/** DHCPv4 messages by their layout (section 2 of RFC 2131, section 4.1 of RFC 2132, RFC 3396): which datagrams are messages, and what they say. */
module MessageLaws {
  import opened Basics
  import opened Dhcp4Message

  // ------------------------------------------------------------------ one field

  /** The bytes of a field that holds these fragments: pads anywhere before them, an end marker after them, zeros to the end. */
  ghost predicate Spells(field: Bytes, frags: Opts)
    decreases |frags|
  {
    if frags == [] then exists n: nat, k: nat :: field == Zeros(n) + [255] + Zeros(k)
    else exists n: nat, rest: Bytes :: Leads(field, n, frags[0], rest) && Spells(rest, frags[1..])
  }

  /** Pads, then one fragment, then the rest. */
  predicate Leads(field: Bytes, n: nat, o: Opt, rest: Bytes) {
    0 < o.0 < 255 && |o.1| <= 255 && field == Zeros(n) + ([o.0, |o.1|] + o.1 + rest)
  }

  lemma {:induction false} PadsSkipped(n: nat, rest: Bytes)
    ensures Fragments(Zeros(n) + rest) == Fragments(rest)
  {
    if n == 0 {
      assert Zeros(0) + rest == rest;
    } else {
      PadsSkipped(n - 1, rest);
      assert (Zeros(n) + rest)[1..] == Zeros(n - 1) + rest;
      assert (Zeros(n) + rest)[0] == 0;
    }
  }

  lemma EndRead(k: nat)
    ensures Fragments([255] + Zeros(k)) == Some([])
  {
  }

  lemma OneRead(o: Opt, rest: Bytes)
    requires 0 < o.0 < 255 && |o.1| <= 255
    ensures Fragments([o.0, |o.1|] + o.1 + rest) == if Fragments(rest).None? then None else Some([o] + Fragments(rest).value)
  {
    var b := [o.0, |o.1|] + o.1 + rest;
    assert b[0] == o.0 && b[1] == |o.1| && b[2..2 + |o.1|] == o.1 && b[2 + |o.1|..] == rest;
  }

  lemma {:induction false} SpelledRead(field: Bytes, frags: Opts)
    requires Spells(field, frags)
    ensures Fragments(field) == Some(frags)
    decreases |frags|
  {
    hide Fragments;
    if frags == [] {
      var n: nat, k: nat :| field == Zeros(n) + [255] + Zeros(k);
      assert field == Zeros(n) + ([255] + Zeros(k));
      PadsSkipped(n, [255] + Zeros(k));
      EndRead(k);
    } else {
      var n: nat, rest :| Leads(field, n, frags[0], rest) && Spells(rest, frags[1..]);
      SpelledRead(rest, frags[1..]);
      PadsSkipped(n, [frags[0].0, |frags[0].1|] + frags[0].1 + rest);
      OneRead(frags[0], rest);
      assert [frags[0]] + frags[1..] == frags;
    }
  }

  lemma {:induction false} ReadSpelled(field: Bytes)
    requires Fragments(field).Some?
    ensures Spells(field, Fragments(field).value)
    decreases |field|
  {
    if field[0] == 255 {
      var k: nat := |field| - 1;
      assert field == Zeros(0) + [255] + Zeros(k);
    } else if field[0] == 0 {
      ReadSpelled(field[1..]);
      OnePad(field[1..], Fragments(field).value);
      assert [0] + field[1..] == field;
    } else {
      var len: int := field[1];
      var end := 2 + len;
      var o, rest := (field[0], field[2..end]), field[end..];
      ReadSpelled(rest);
      hide Fragments;
      FirstSpelled(field, o, rest, Fragments(rest).value);
    }
  }

  lemma FirstSpelled(field: Bytes, o: Opt, rest: Bytes, frags: Opts)
    requires |field| >= 2 && 0 < field[0] < 255 && 2 + field[1] <= |field| && o == (field[0], field[2..2 + field[1]]) && rest == field[2 + field[1]..]
    requires Spells(rest, frags)
    ensures Spells(field, [o] + frags)
  {
    assert field == Zeros(0) + ([o.0, |o.1|] + o.1 + rest);
    assert Leads(field, 0, o, rest);
    assert ([o] + frags)[1..] == frags && ([o] + frags)[0] == o;
  }

  lemma OnePad(field: Bytes, frags: Opts)
    requires Spells(field, frags)
    ensures Spells([0] + field, frags)
  {
    if frags == [] {
      var n: nat, k: nat :| field == Zeros(n) + [255] + Zeros(k);
      assert [0] + field == Zeros(n + 1) + [255] + Zeros(k);
    } else {
      var n: nat, rest :| Leads(field, n, frags[0], rest) && Spells(rest, frags[1..]);
      assert [0] + field == Zeros(n + 1) + ([frags[0].0, |frags[0].1|] + frags[0].1 + rest);
      assert Leads([0] + field, n + 1, frags[0], rest);
    }
  }

  /** The fragments read from a field are exactly those it spells. */
  lemma FieldLaw(field: Bytes, frags: Opts)
    ensures Fragments(field) == Some(frags) <==> Spells(field, frags)
  {
    hide Fragments, Spells;
    if Spells(field, frags) {
      SpelledRead(field, frags);
    }
    if Fragments(field) == Some(frags) {
      ReadSpelled(field);
    }
  }

  // ------------------------------------------------------------------ whole messages

  /** Hardware type, address length and magic cookie of an Ethernet client's message that fits a datagram. */
  predicate Shaped(buf: Bytes) {
    && 240 <= |buf| <= 65507 && (buf[0] == 1 || buf[0] == 2) && buf[1] == 1 && buf[2] == 6
    && buf[236] == 99 && buf[237] == 130 && buf[238] == 83 && buf[239] == 99
  }

  /** Which further fields hold options: what the overload option says. */
  function Overloads(frags: Opts): byte {
    var v := Value(frags, 52);
    if |v| == 1 then v[0] else 0
  }

  /** A further field holds options if asked to, and does not ask for more itself. */
  ghost predicate More(asked: bool, field: Bytes, frags: Opts) {
    if asked then Spells(field, frags) && !Has(frags, 52) else frags == []
  }

  /** The fragments of a message: those of the options field, then of the file field, then of the server name field. */
  ghost predicate Tells(buf: Bytes, a: Opts, b: Opts, c: Opts)
    requires |buf| >= 240
  {
    && Spells(buf[240..], a) && More(Overloads(a) in {1, 3}, buf[108..236], b) && More(Overloads(a) in {2, 3}, buf[44..108], c)
  }

  /** The joined values have the lengths their options demand, and the message says its type. */
  ghost predicate InOrder(frags: Opts) {
    && Has(frags, 53) && |Value(frags, 53)| == 1
    && (Has(frags, 50) ==> |Value(frags, 50)| == 4) && (Has(frags, 54) ==> |Value(frags, 54)| == 4)
    && (Has(frags, 12) ==> 1 <= |Value(frags, 12)| <= 255) && (Has(frags, 61) ==> 2 <= |Value(frags, 61)| <= 255)
    && (Has(frags, 52) ==> Value(frags, 52) in [[1], [2], [3]])
  }

  lemma ShapedIs(buf: Bytes)
    ensures Shaped(buf) <==> Framed(buf)
  {
    if 240 <= |buf| {
      var m := buf[236..240];
      assert m[0] == buf[236] && m[1] == buf[237] && m[2] == buf[238] && m[3] == buf[239];
    }
  }

  /** Valid after joining means in order. */
  lemma OrderIs(opts: Opts, frags: Opts)
    requires Joins(opts, frags)
    ensures RetainedValid(opts) && Has(opts, 53) <==> InOrder(frags)
  {
    hide Value, Has, Tidy;
    forall code: byte
      ensures Has(opts, code) ==> Limit(code).Some? && opts[IndexOf(opts, code)].1 == Value(frags, code)
    {
      if Has(opts, code) {
        KnownOnly(opts, code);
        FindIs(opts, code);
      }
    }
    ValidEach(opts);
    TidyLimits(opts);
    OverloadValues(Value(frags, 52));
    assert Limit(50) == Limit(54) == Some(4) && Limit(12) == Limit(61) == Some(255) && Limit(52) == Limit(53) == Some(1);
    if InOrder(frags) {
      forall code: byte | Has(opts, code)
        ensures ValidOption(code, Value(frags, code))
      {
        SixCodes(code);
      }
    }
  }

  lemma SixCodes(code: byte)
    ensures Limit(code).Some? ==> code in {12, 50, 52, 53, 54, 61}
  {
  }

  lemma KnownOnly(opts: Opts, code: byte)
    requires Tidy(opts) && Has(opts, code)
    ensures Limit(code).Some?
  {
  }

  lemma OverloadValues(v: Bytes)
    ensures v in [[1], [2], [3]] <==> |v| == 1 && 1 <= v[0] <= 3
  {
    if |v| == 1 {
      assert v == [v[0]];
    }
  }

  /** One entry per code: all entries are valid when the six kept options are. */
  lemma ValidEach(opts: Opts)
    requires Tidy(opts)
    ensures RetainedValid(opts) <==> forall code: byte :: Has(opts, code) ==> ValidOption(code, opts[IndexOf(opts, code)].1)
  {
    hide ValidOption;
    forall i | 0 <= i < |opts|
      ensures Has(opts, opts[i].0) && IndexOf(opts, opts[i].0) == i
    {
    }
    if forall code: byte :: Has(opts, code) ==> ValidOption(code, opts[IndexOf(opts, code)].1) {
      forall i | 0 <= i < |opts|
        ensures ValidOption(opts[i].0, opts[i].1)
      {
        assert Has(opts, opts[i].0);
      }
    }
  }

  /** No kept option outgrows what is kept of it. */
  ghost predicate WithinLimits(frags: Opts) {
    forall c: byte :: Limit(c).Some? ==> |Value(frags, c)| <= Limit(c).value
  }

  lemma ScanLaw(field: Bytes, allow: bool, opts: Opts, before: Opts)
    requires Joins(opts, before)
    ensures
      var f := Fragments(field);
      && (ScanField(field, allow, opts).Some? <==> f.Some? && (allow || !Has(f.value, 52)) && WithinLimits(before + f.value))
      && (ScanField(field, allow, opts).Some? ==> Joins(ScanField(field, allow, opts).value, before + f.value))
  {
    hide Tidy, Limit, Has, Value, AppendAll, Fragments;
    var f := Fragments(field);
    if f.Some? {
      AppendAllIs(opts, f.value);
      forall c: byte
        ensures Value(before + f.value, c) == Value(before, c) + Value(f.value, c)
      {
        ValueAppend(before, f.value, c);
      }
    }
    if ScanField(field, allow, opts).Some? {
      ScanJoins(field, allow, opts, before);
    }
  }

  lemma PrefixWithin(a: Opts, b: Opts)
    requires WithinLimits(a + b)
    ensures WithinLimits(a)
  {
    hide Value, Limit;
    forall c: byte | Limit(c).Some?
      ensures |Value(a, c)| <= Limit(c).value
    {
      ValueAppend(a, b, c);
    }
  }

  lemma OrderWithin(frags: Opts)
    requires InOrder(frags)
    ensures WithinLimits(frags)
  {
    hide Value, Has;
    forall c: byte | Limit(c).Some?
      ensures |Value(frags, c)| <= Limit(c).value
    {
      SixCodes(c);
      if !Has(frags, c) {
        ValueAbsent(frags, c);
      }
    }
  }

  /** Only the options field has a say in overloading. */
  lemma OverloadOnce(a: Opts, b: Opts, c: Opts)
    requires !Has(b, 52) && !Has(c, 52)
    ensures Value(a + b + c, 52) == Value(a, 52) && (Has(a + b + c, 52) <==> Has(a, 52))
  {
    hide Value, Has;
    ValueAppend(a + b, c, 52);
    ValueAppend(a, b, 52);
    HasAppend(a + b, c, 52);
    HasAppend(a, b, 52);
    ValueAbsent(b, 52);
    ValueAbsent(c, 52);
  }

  lemma OverloadBits(o: byte)
    requires o <= 3
    ensures (UsesFile(o) <==> o in {1, 3}) && (UsesSname(o) <==> o in {2, 3})
  {
  }

  /** In order, the overload option says nothing, or one of the three. */
  lemma OverloadSmall(a: Opts, all: Opts)
    requires InOrder(all) && Value(all, 52) == Value(a, 52) && (Has(all, 52) <==> Has(a, 52))
    ensures Overloads(a) <= 3
  {
    hide Value, Has;
    if !Has(a, 52) {
      ValueAbsent(a, 52);
    }
    OverloadValues(Value(a, 52));
  }

  lemma NothingMore()
    ensures !Has([], 52)
  {
  }

  /** What the scan of all fields comes to, for the fragments of the three. */
  lemma ScanAllLaw(buf: Bytes, a: Opts, b: Opts, c: Opts)
    requires Framed(buf) && Fragments(buf[240..]) == Some(a) && Overloads(a) <= 3
    requires More(UsesFile(Overloads(a)), buf[108..236], b) && More(UsesSname(Overloads(a)), buf[44..108], c)
    ensures ScanAll(buf).Some? <==> WithinLimits(a + b + c)
    ensures ScanAll(buf).Some? ==> Joins(ScanAll(buf).value, a + b + c)
  {
    hide ScanField, Joins, Overload, Fragments, Value, WithinLimits, Spells, Has;
    EmptyJoins();
    ScanLaw(buf[240..], true, [], []);
    assert [] + a == a;
    assert (a + b) + [] == a + b && a + [] == a;
    FieldLaw(buf[108..236], b);
    FieldLaw(buf[44..108], c);
    if WithinLimits(a + b + c) {
      PrefixWithin(a + b, c);
      PrefixWithin(a, b);
    }
    var sa := ScanField(buf[240..], true, []);
    if sa.Some? {
      JoinedOverload(sa.value, a);
      ScanLaw(buf[108..236], false, sa.value, a);
      var sb := if UsesFile(Overload(sa.value)) then ScanField(buf[108..236], false, sa.value) else sa;
      if sb.Some? {
        ScanLaw(buf[44..108], false, sb.value, a + b);
      }
    }
  }

  /** The other way round: what was scanned came in three parts. */
  lemma ScannedParts(buf: Bytes) returns (a: Opts, b: Opts, c: Opts)
    requires Framed(buf) && ScanAll(buf).Some?
    ensures Fragments(buf[240..]) == Some(a) && More(UsesFile(Overloads(a)), buf[108..236], b) && More(UsesSname(Overloads(a)), buf[44..108], c)
    ensures Joins(ScanAll(buf).value, a + b + c)
  {
    hide ScanField, Joins, Overload, Fragments, Value, WithinLimits, Spells, Has;
    EmptyJoins();
    ScanLaw(buf[240..], true, [], []);
    a, b, c := Fragments(buf[240..]).value, [], [];
    assert [] + a == a;
    var sa := ScanField(buf[240..], true, []);
    JoinedOverload(sa.value, a);
    var sb := sa;
    if UsesFile(Overloads(a)) {
      ScanLaw(buf[108..236], false, sa.value, a);
      sb, b := ScanField(buf[108..236], false, sa.value), Fragments(buf[108..236]).value;
      FieldLaw(buf[108..236], b);
    } else {
      assert a + b == a;
    }
    if UsesSname(Overloads(a)) {
      ScanLaw(buf[44..108], false, sb.value, a + b);
      c := Fragments(buf[44..108]).value;
      FieldLaw(buf[44..108], c);
    } else {
      assert a + b + c == a + b;
    }
  }

  lemma MoreSilent(asked: bool, field: Bytes, frags: Opts)
    requires More(asked, field, frags)
    ensures !Has(frags, 52)
  {
  }

  /** A datagram is a message exactly when it is shaped like one, its fields spell fragments, and these are in order. */
  lemma ParseLaw(buf: Bytes)
    ensures Parse(buf).Some? <==> Shaped(buf) && exists a, b, c :: Tells(buf, a, b, c) && InOrder(a + b + c)
  {
    hide Framed, Shaped, ScanAll, Joins, Fragments, Value, Spells, Has, InOrder, RetainedValid, Fields, Tells;
    ShapedIs(buf);
    if Parse(buf).Some? {
      var a, b, c := ParsedParts(buf);
    }
    if Shaped(buf) {
      ShapeLong(buf);
      if a, b, c :| Tells(buf, a, b, c) && InOrder(a + b + c) {
        PartsParse(buf, a, b, c);
      }
    }
  }

  lemma ShapeLong(buf: Bytes)
    requires Shaped(buf)
    ensures |buf| >= 240
  {
  }

  lemma ParsedParts(buf: Bytes) returns (a: Opts, b: Opts, c: Opts)
    requires Parse(buf).Some?
    ensures Tells(buf, a, b, c) && InOrder(a + b + c)
  {
    hide ScanAll, Joins, Fragments, Value, Spells, Has, InOrder, RetainedValid, More, Overloads;
    a, b, c := ScannedParts(buf);
    OrderIs(ScanAll(buf).value, a + b + c);
    MoreSilent(UsesFile(Overloads(a)), buf[108..236], b);
    MoreSilent(UsesSname(Overloads(a)), buf[44..108], c);
    OverloadOnce(a, b, c);
    OverloadSmall(a, a + b + c);
    OverloadBits(Overloads(a));
    FieldLaw(buf[240..], a);
  }

  lemma PartsParse(buf: Bytes, a: Opts, b: Opts, c: Opts)
    requires Framed(buf) && Tells(buf, a, b, c) && InOrder(a + b + c)
    ensures Parse(buf).Some? && Joins(ScanAll(buf).value, a + b + c)
  {
    hide ScanAll, Joins, Fragments, Value, Spells, Has, InOrder, RetainedValid, More, Overloads, WithinLimits;
    MoreSilent(Overloads(a) in {1, 3}, buf[108..236], b);
    MoreSilent(Overloads(a) in {2, 3}, buf[44..108], c);
    OverloadOnce(a, b, c);
    OverloadSmall(a, a + b + c);
    OverloadBits(Overloads(a));
    FieldLaw(buf[240..], a);
    OrderWithin(a + b + c);
    ScanAllLaw(buf, a, b, c);
    OrderIs(ScanAll(buf).value, a + b + c);
  }

  function Octet(b: Bytes, i: nat): int
    requires i < |b|
  {
    b[i]
  }

  /** Four octets, the most significant first. */
  function Word(b: Bytes, i: nat): nat
    requires i + 4 <= |b|
  {
    ((Octet(b, i) * 256 + Octet(b, i + 1)) * 256 + Octet(b, i + 2)) * 256 + Octet(b, i + 3)
  }

  /** What a message says: the fixed fields at their places, and each kept option joined from its fragments. */
  lemma ContentsLaw(buf: Bytes, a: Opts, b: Opts, c: Opts)
    requires Shaped(buf) && Tells(buf, a, b, c) && InOrder(a + b + c)
    ensures Parse(buf).Some?
    ensures
      var m := Parse(buf).value;
      && m.op == buf[0] && m.xid == Word(buf, 4) && m.flags == Octet(buf, 10) * 256 + Octet(buf, 11)
      && m.ciaddr == Word(buf, 12) && m.yiaddr == Word(buf, 16) && m.siaddr == Word(buf, 20) && m.giaddr == Word(buf, 24) && m.chaddr == buf[28..34]
      && forall code: byte :: code in {12, 50, 53, 54, 61} ==>
           OptionOf(m, code) == if Has(a + b + c, code) then Some(Value(a + b + c, code)) else None
  {
    hide ScanAll, Joins, Value, Has, InOrder, RetainedValid, Tells, Find, Tidy, Framed;
    ShapedIs(buf);
    PartsParse(buf, a, b, c);
    var opts, m := ScanAll(buf).value, Parse(buf).value;
    FixedLayout(buf, opts);
    forall code: byte | code in {12, 50, 53, 54, 61}
      ensures OptionOf(m, code) == if Has(a + b + c, code) then Some(Value(a + b + c, code)) else None
    {
      OptionRead(opts, a + b + c, buf, code);
    }
  }

  lemma FixedLayout(buf: Bytes, opts: Opts)
    requires |buf| >= 240
    ensures
      var m := Fields(buf, opts);
      && m.op == buf[0] && m.xid == Word(buf, 4) && m.flags == Octet(buf, 10) * 256 + Octet(buf, 11)
      && m.ciaddr == Word(buf, 12) && m.yiaddr == Word(buf, 16) && m.siaddr == Word(buf, 20) && m.giaddr == Word(buf, 24) && m.chaddr == buf[28..34]
  {
  }

  lemma OptionRead(opts: Opts, frags: Opts, buf: Bytes, code: byte)
    requires Joins(opts, frags) && code in {12, 50, 53, 54, 61} && |buf| >= 240
    ensures OptionOf(Fields(buf, opts), code) == if Has(frags, code) then Some(Value(frags, code)) else None
  {
    hide Value, Has, Find, Tidy;
    FindIs(opts, code);
    WithoutIs(opts, OVERLOAD);
    WithoutIs(Without(opts, OVERLOAD), CLIENT_ID);
    FindIs(Without(Without(opts, OVERLOAD), CLIENT_ID), code);
  }
}
