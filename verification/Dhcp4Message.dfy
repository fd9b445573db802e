/**
 DHCPv4 messages on the wire. An option may be cut into fragments and spread over the options,
 file and sname fields (RFC 3396); the parser joins them again.
 */
module Dhcp4Message {
  import opened Basics

  const FIXED_LEN := 236
  const MAX_DATAGRAM := 65507
  const MAGIC: Bytes := [99, 130, 83, 99]

  const HOSTNAME: byte := 12
  const REQUESTED_IP: byte := 50
  const OVERLOAD: byte := 52
  const MSG_TYPE: byte := 53
  const SERVER_ID: byte := 54
  const CLIENT_ID: byte := 61
  const END: byte := 255

  /** A code with a value, or with a fragment of one. */
  type Opt = (byte, Bytes)
  type Opts = seq<Opt>

  /** The longest value the server keeps of an option; nothing for options it ignores. */
  function Limit(code: byte): Option<nat> {
    if code == OVERLOAD || code == MSG_TYPE then Some(1)
    else if code == REQUESTED_IP || code == SERVER_ID then Some(4)
    else if code == HOSTNAME || code == CLIENT_ID then Some(255)
    else None
  }

  predicate ValidOption(code: byte, value: Bytes) {
    if code == REQUESTED_IP || code == SERVER_ID then |value| == 4
    else if code == HOSTNAME then |value| > 0
    else if code == CLIENT_ID then 2 <= |value| <= 255
    else if code == OVERLOAD then |value| == 1 && 1 <= value[0] <= 3
    else code == MSG_TYPE && |value| == 1
  }

  predicate RetainedValid(opts: Opts) {
    forall i :: 0 <= i < |opts| ==> ValidOption(opts[i].0, opts[i].1)
  }

  // ------------------------------------------------------------------ fragments and values

  /** The fragments of one field, up to its end marker; nothing for a malformed field. */
  function Fragments(field: Bytes): Option<Opts>
    decreases |field|
  {
    if field == [] then None
    else if field[0] == END then (if forall i :: 1 <= i < |field| ==> field[i] == 0 then Some([]) else None)
    else if field[0] == 0 then Fragments(field[1..])
    else if |field| < 2 || 2 + field[1] > |field| then None
    else
      var rest := Fragments(field[2 + field[1]..]);
      if rest.None? then None else Some([(field[0], field[2..2 + field[1]])] + rest.value)
  }

  /** Everything filed under a code, joined in order. */
  function Value(opts: Opts, code: byte): Bytes {
    if opts == [] then [] else (if opts[0].0 == code then opts[0].1 else []) + Value(opts[1..], code)
  }

  predicate Has(opts: Opts, code: byte) {
    exists i :: 0 <= i < |opts| && opts[i].0 == code
  }

  /** One entry per code, only codes that are kept, none longer than allowed. */
  ghost predicate Tidy(opts: Opts) {
    && (forall i, j :: 0 <= i < j < |opts| ==> opts[i].0 != opts[j].0)
    && (forall i :: 0 <= i < |opts| ==> Limit(opts[i].0).Some? && |opts[i].1| <= Limit(opts[i].0).value)
  }

  lemma {:induction false} ValueAbsent(opts: Opts, code: byte)
    requires !Has(opts, code)
    ensures Value(opts, code) == []
  {
    if opts != [] {
      assert opts[0].0 != code;
      assert !Has(opts[1..], code) by {
        assert forall i :: 0 <= i < |opts[1..]| ==> opts[1..][i] == opts[i + 1];
      }
      ValueAbsent(opts[1..], code);
    }
  }

  lemma {:induction false} ValueAppend(a: Opts, b: Opts, code: byte)
    ensures Value(a + b, code) == Value(a, code) + Value(b, code)
  {
    if a == [] {
      assert a + b == b;
    } else {
      ValueAppend(a[1..], b, code);
      assert (a + b)[1..] == a[1..] + b && (a + b)[0] == a[0];
    }
  }

  /** With one entry per code, that entry is the value. */
  lemma {:induction false} ValueAt(opts: Opts, i: nat)
    requires Tidy(opts) && i < |opts|
    ensures Value(opts, opts[i].0) == opts[i].1
  {
    hide Tidy;
    TidyTail(opts);
    if i == 0 {
      ValueAbsent(opts[1..], opts[0].0);
    } else {
      assert opts[1..][i - 1] == opts[i];
      ValueAt(opts[1..], i - 1);
    }
  }

  lemma ValueOne(o: Opt, code: byte)
    ensures Value([o], code) == if o.0 == code then o.1 else []
  {
    assert [o][1..] == [];
  }

  // ------------------------------------------------------------------ joining fragments

  function IndexOf(opts: Opts, code: byte): (i: nat)
    requires Has(opts, code)
    ensures i < |opts| && opts[i].0 == code && forall j :: 0 <= j < i ==> opts[j].0 != code
  {
    if opts[0].0 == code then 0
    else
      assert Has(opts[1..], code) by {
        var k :| 0 <= k < |opts| && opts[k].0 == code;
        assert opts[1..][k - 1].0 == code;
      }
      assert forall j :: 0 < j < |opts| ==> opts[j] == opts[1..][j - 1];
      1 + IndexOf(opts[1..], code)
  }

  /** Files a fragment under its code; nothing when the value outgrows its limit. */
  function Append(opts: Opts, code: byte, value: Bytes, limit: nat): Option<Opts> {
    if Has(opts, code) then
      var i := IndexOf(opts, code);
      if |opts[i].1| + |value| > limit then None else Some(opts[i := (code, opts[i].1 + value)])
    else if |value| > limit then None
    else Some(opts + [(code, value)])
  }

  function AppendAll(opts: Opts, frags: Opts): Option<Opts>
    decreases |frags|
  {
    if frags == [] then Some(opts)
    else
      var (code, value) := frags[0];
      if Limit(code).None? then AppendAll(opts, frags[1..])
      else
        var o := Append(opts, code, value, Limit(code).value);
        if o.None? then None else AppendAll(o.value, frags[1..])
  }

  lemma AppendIs(opts: Opts, code: byte, value: Bytes)
    requires Tidy(opts) && Limit(code).Some?
    ensures
      var r := Append(opts, code, value, Limit(code).value);
      && (r.Some? <==> |Value(opts, code)| + |value| <= Limit(code).value)
      && (r.Some? ==> Tidy(r.value) && Has(r.value, code) && Value(r.value, code) == Value(opts, code) + value)
      && (r.Some? ==> forall c :: c != code ==> Value(r.value, c) == Value(opts, c) && (Has(r.value, c) <==> Has(opts, c)))
  {
    hide Value;
    var r := Append(opts, code, value, Limit(code).value);
    if Has(opts, code) {
      var i := IndexOf(opts, code);
      ValueAt(opts, i);
      if r.Some? {
        assert r.value[i].0 == code;
        ValueAt(r.value, i);
        forall c: byte | c != code
          ensures Value(r.value, c) == Value(opts, c) && (Has(r.value, c) <==> Has(opts, c))
        {
          ReplaceOther(opts, i, r.value[i], c);
        }
      }
    } else {
      ValueAbsent(opts, code);
      if r.Some? {
        assert r.value[|opts|].0 == code;
        ValueAt(r.value, |opts|);
        forall c: byte | c != code
          ensures Value(r.value, c) == Value(opts, c) && (Has(r.value, c) <==> Has(opts, c))
        {
          ValueAppend(opts, [(code, value)], c);
          ValueOne((code, value), c);
          HasAppend(opts, [(code, value)], c);
        }
      }
    }
  }

  lemma HasAppend(a: Opts, b: Opts, c: byte)
    ensures Has(a + b, c) <==> Has(a, c) || Has(b, c)
  {
    if Has(a, c) {
      var i :| 0 <= i < |a| && a[i].0 == c;
      assert (a + b)[i].0 == c;
    }
    if Has(b, c) {
      var i :| 0 <= i < |b| && b[i].0 == c;
      assert (a + b)[|a| + i].0 == c;
    }
  }

  lemma ReplaceOther(opts: Opts, i: nat, o: Opt, c: byte)
    requires i < |opts| && o.0 == opts[i].0 && c != o.0
    ensures Value(opts[i := o], c) == Value(opts, c) && (Has(opts[i := o], c) <==> Has(opts, c))
  {
    hide Value;
    var a, b := opts[..i], opts[i + 1..];
    assert opts == a + ([opts[i]] + b) && opts[i := o] == a + ([o] + b);
    ValueAppend(a, [opts[i]] + b, c);
    ValueAppend(a, [o] + b, c);
    ValueAppend([opts[i]], b, c);
    ValueAppend([o], b, c);
    ValueOne(o, c);
    ValueOne(opts[i], c);
    assert forall j :: 0 <= j < |opts| ==> opts[i := o][j].0 == opts[j].0;
  }

  /** Each kept option ends up with all its fragments joined in order, and only an overlong value is refused. */
  lemma {:induction false} AppendAllIs(opts: Opts, frags: Opts)
    requires Tidy(opts)
    ensures AppendAll(opts, frags).Some? <==>
            forall c: byte :: Limit(c).Some? ==> |Value(opts, c)| + |Value(frags, c)| <= Limit(c).value
    ensures AppendAll(opts, frags).Some? ==> Tidy(AppendAll(opts, frags).value)
    ensures AppendAll(opts, frags).Some? ==> forall c: byte :: Limit(c).Some? ==>
      Value(AppendAll(opts, frags).value, c) == Value(opts, c) + Value(frags, c) &&
      (Has(AppendAll(opts, frags).value, c) <==> Has(opts, c) || Has(frags, c))
    decreases |frags|
  {
    hide Append, Limit, Tidy, Has, Value;
    if frags == [] {
      TidyLimits(opts);
      NothingHas();
    } else {
      var (code, value) := frags[0];
      forall c: byte
        ensures Has(frags, c) <==> c == code || Has(frags[1..], c)
        ensures Value(frags, c) == (if c == code then value else []) + Value(frags[1..], c)
      {
        HasFirst(frags, c);
        ValueFirst(frags, c);
      }
      if Limit(code).None? {
        AppendAllIs(opts, frags[1..]);
      } else {
        AppendIs(opts, code, value);
        var o := Append(opts, code, value, Limit(code).value);
        if o.Some? {
          AppendAllIs(o.value, frags[1..]);
        }
      }
    }
  }

  lemma NothingHas()
    ensures forall c: byte :: !Has([], c) && Value([], c) == []
  {
  }

  lemma ValueFirst(frags: Opts, c: byte)
    requires frags != []
    ensures Value(frags, c) == (if c == frags[0].0 then frags[0].1 else []) + Value(frags[1..], c)
  {
  }

  lemma HasFirst(frags: Opts, c: byte)
    requires frags != []
    ensures Has(frags, c) <==> c == frags[0].0 || Has(frags[1..], c)
  {
    assert frags == [frags[0]] + frags[1..];
    HasAppend([frags[0]], frags[1..], c);
    assert [frags[0]][0].0 == c <==> Has([frags[0]], c);
  }

  lemma TidyLimits(opts: Opts)
    requires Tidy(opts)
    ensures forall c: byte :: Limit(c).Some? ==> |Value(opts, c)| <= Limit(c).value
  {
    hide Value;
    forall c: byte | Limit(c).Some?
      ensures |Value(opts, c)| <= Limit(c).value
    {
      if Has(opts, c) {
        ValueAt(opts, IndexOf(opts, c));
      } else {
        ValueAbsent(opts, c);
      }
    }
  }

  // ------------------------------------------------------------------ scanning a field

  /** Joins a field's fragments to what earlier fields gave; only the options field may announce overloading. */
  function ScanField(field: Bytes, allowOverload: bool, opts: Opts): Option<Opts> {
    var frags := Fragments(field);
    if frags.None? || (!allowOverload && Has(frags.value, OVERLOAD)) then None else AppendAll(opts, frags.value)
  }

  /** What reading one more fragment does to the rest of the scan. */
  lemma ScanStep(field: Bytes, allowOverload: bool, opts: Opts)
    requires field != [] && field[0] != END && field[0] != 0 && |field| >= 2 && 2 + field[1] <= |field|
    ensures
      var code, value, rest := field[0], field[2..2 + field[1]], field[2 + field[1]..];
      && (code == OVERLOAD && !allowOverload ==> ScanField(field, allowOverload, opts).None?)
      && (!(code == OVERLOAD && !allowOverload) ==>
            && (Limit(code).None? ==> ScanField(field, allowOverload, opts) == ScanField(rest, allowOverload, opts))
            && (Limit(code).Some? ==>
                  var o := Append(opts, code, value, Limit(code).value);
                  ScanField(field, allowOverload, opts) == if o.None? then None else ScanField(rest, allowOverload, o.value)))
  {
    hide Append, Limit, Has;
    var code, value, rest := field[0], field[2..2 + field[1]], field[2 + field[1]..];
    var frags := Fragments(rest);
    if frags.Some? {
      var all := [(code, value)] + frags.value;
      assert all[1..] == frags.value;
      HasFirst(all, OVERLOAD);
    }
  }

  method AppendOptionFragment(opts: Opts, code: byte, value: Bytes, limit: nat) returns (r: Option<Opts>)
    ensures r == Append(opts, code, value, limit)
  {
    for i := 0 to |opts|
      invariant forall j :: 0 <= j < i ==> opts[j].0 != code
    {
      if opts[i].0 == code {
        assert Has(opts, code) && IndexOf(opts, code) == i;
        if |opts[i].1| + |value| > limit {
          return None;
        }
        return Some(opts[i := (code, opts[i].1 + value)]);
      }
    }
    if |value| > limit {
      return None;
    }
    return Some(opts + [(code, value)]);
  }

  method ScanOptionField(field: Bytes, allowOverload: bool, opts: Opts) returns (r: Option<Opts>)
    ensures r == ScanField(field, allowOverload, opts)
  {
    hide Append, Limit, AppendAll, Has;
    var offset, options := 0, opts;
    assert field[0..] == field;
    while offset < |field|
      invariant offset <= |field| && ScanField(field, allowOverload, opts) == ScanField(field[offset..], allowOverload, options)
    {
      ghost var left := field[offset..];
      var code := field[offset];
      if code == END {
        EndOfField(left, allowOverload, options);
        assert (forall i :: 1 <= i < |left| ==> left[i] == 0) <==> (forall i :: offset + 1 <= i < |field| ==> field[i] == 0) by {
          assert forall i :: offset + 1 <= i < |field| ==> field[i] == left[i - offset];
        }
        return if forall i :: offset + 1 <= i < |field| ==> field[i] == 0 then Some(options) else None;
      }
      if code == 0 {
        assert left[1..] == field[offset + 1..];
        offset := offset + 1;
        continue;
      }
      if offset + 1 >= |field| {
        return None;
      }
      var end := offset + 2 + field[offset + 1];
      if end > |field| {
        return None;
      }
      var value := field[offset + 2..end];
      ScanStep(left, allowOverload, options);
      assert left[2..2 + left[1]] == value && left[2 + left[1]..] == field[end..];
      if code == OVERLOAD && !allowOverload {
        return None;
      }
      var limit := Limit(code);
      if limit.Some? {
        var o := AppendOptionFragment(options, code, value, limit.value);
        if o.None? {
          return None;
        }
        options := o.value;
      }
      offset := end;
    }
    assert field[offset..] == [];
    return None;
  }

  lemma EndOfField(left: Bytes, allowOverload: bool, opts: Opts)
    requires left != [] && left[0] == END
    ensures ScanField(left, allowOverload, opts) == if forall i :: 1 <= i < |left| ==> left[i] == 0 then Some(opts) else None
  {
  }

  // ------------------------------------------------------------------ messages

  datatype Message = Message(op: byte, xid: u32, flags: u16, ciaddr: u32, yiaddr: u32, siaddr: u32, giaddr: u32,
                             chaddr: Bytes, clientId: Option<Bytes>, options: Opts)

  function Without(opts: Opts, code: byte): Opts {
    if opts == [] then [] else (if opts[0].0 == code then [] else [opts[0]]) + Without(opts[1..], code)
  }

  function Find(opts: Opts, code: byte): Option<Bytes> {
    if Has(opts, code) then Some(opts[IndexOf(opts, code)].1) else None
  }

  /** Which other fields carry options. */
  function Overload(opts: Opts): byte {
    var o := Find(opts, OVERLOAD);
    if o.Some? && |o.value| == 1 then o.value[0] else 0
  }

  predicate UsesFile(overload: byte) {
    overload % 2 == 1
  }

  predicate UsesSname(overload: byte) {
    overload / 2 % 2 == 1
  }

  predicate Framed(buf: Bytes) {
    && FIXED_LEN + 4 <= |buf| <= MAX_DATAGRAM && (buf[0] == 1 || buf[0] == 2) && buf[1] == 1 && buf[2] == 6
    && buf[FIXED_LEN..FIXED_LEN + 4] == MAGIC
  }

  /** The kept options of all fields: the options field, then file, then sname. */
  function ScanAll(buf: Bytes): Option<Opts>
    requires Framed(buf)
  {
    var a := ScanField(buf[FIXED_LEN + 4..], true, []);
    if a.None? then None
    else
      var b := if UsesFile(Overload(a.value)) then ScanField(buf[108..236], false, a.value) else a;
      if b.None? then None
      else if UsesSname(Overload(a.value)) then ScanField(buf[44..108], false, b.value) else b
  }

  function Fields(buf: Bytes, opts: Opts): Message
    requires |buf| >= FIXED_LEN
  {
    Message(buf[0], FromBe32(buf[4..8]), FromBe16(buf[10], buf[11]), FromBe32(buf[12..16]), FromBe32(buf[16..20]),
            FromBe32(buf[20..24]), FromBe32(buf[24..28]), buf[28..34], Find(opts, CLIENT_ID), Without(Without(opts, OVERLOAD), CLIENT_ID))
  }

  function Parse(buf: Bytes): Option<Message> {
    if !Framed(buf) then None
    else
      var opts := ScanAll(buf);
      if opts.None? || !RetainedValid(opts.value) || !Has(opts.value, MSG_TYPE) then None
      else Some(Fields(buf, opts.value))
  }

  method ParseMessage(buf: Bytes) returns (m: Option<Message>)
    ensures m == Parse(buf)
  {
    hide ScanField, Overload, RetainedValid, Fields;
    if !Framed(buf) {
      return None;
    }
    var a := ScanOptionField(buf[FIXED_LEN + 4..], true, []);
    if a.None? {
      return None;
    }
    var opts, overload := a.value, Overload(a.value);
    if UsesFile(overload) {
      var b := ScanOptionField(buf[108..236], false, opts);
      if b.None? {
        return None;
      }
      opts := b.value;
    }
    if UsesSname(overload) {
      var c := ScanOptionField(buf[44..108], false, opts);
      if c.None? {
        return None;
      }
      opts := c.value;
    }
    if !RetainedValid(opts) || !Has(opts, MSG_TYPE) {
      return None;
    }
    return Some(Fields(buf, opts));
  }

  /** The option of a parsed message. */
  function OptionOf(m: Message, code: byte): Option<Bytes> {
    if code == CLIENT_ID then m.clientId else Find(m.options, code)
  }

  // ------------------------------------------------------------------ what parsing means

  /** All fragments of a message, in the order in which they are joined. */
  ghost function AllFragments(buf: Bytes): Option<Opts>
    requires Framed(buf)
  {
    var a := Fragments(buf[FIXED_LEN + 4..]);
    if a.None? then None
    else
      var v := Value(a.value, OVERLOAD);
      var overload := if |v| == 1 then v[0] else 0;
      var b := if UsesFile(overload) then Fragments(buf[108..236]) else Some([]);
      var c := if UsesSname(overload) then Fragments(buf[44..108]) else Some([]);
      if b.None? || c.None? then None else Some(a.value + b.value + c.value)
  }

  /** `opts` is what joining `frags` gives. */
  ghost predicate Joins(opts: Opts, frags: Opts) {
    Tidy(opts) && forall c: byte :: Limit(c).Some? ==> Value(opts, c) == Value(frags, c) && (Has(opts, c) <==> Has(frags, c))
  }

  lemma ScanJoins(field: Bytes, allowOverload: bool, opts: Opts, frags: Opts)
    requires Joins(opts, frags) && ScanField(field, allowOverload, opts).Some?
    ensures Fragments(field).Some? && Joins(ScanField(field, allowOverload, opts).value, frags + Fragments(field).value)
  {
    hide Tidy, Limit, Has, Value, AppendAll, Fragments;
    var more := Fragments(field).value;
    AppendAllIs(opts, more);
    forall c: byte | Limit(c).Some?
      ensures Value(frags + more, c) == Value(frags, c) + Value(more, c) && (Has(frags + more, c) <==> Has(frags, c) || Has(more, c))
    {
      ValueAppend(frags, more, c);
      HasAppend(frags, more, c);
    }
  }

  lemma FindIs(opts: Opts, code: byte)
    requires Tidy(opts)
    ensures Find(opts, code) == if Has(opts, code) then Some(Value(opts, code)) else None
  {
    hide Value;
    if Has(opts, code) {
      ValueAt(opts, IndexOf(opts, code));
    }
  }

  lemma JoinedOverload(opts: Opts, frags: Opts)
    requires Joins(opts, frags)
    ensures Overload(opts) == if |Value(frags, OVERLOAD)| == 1 then Value(frags, OVERLOAD)[0] else 0
  {
    hide Tidy, Has, Value;
    FindIs(opts, OVERLOAD);
    if !Has(opts, OVERLOAD) {
      ValueAbsent(frags, OVERLOAD);
    }
  }

  lemma ScanAllJoins(buf: Bytes)
    requires Framed(buf) && ScanAll(buf).Some?
    ensures AllFragments(buf).Some? && Joins(ScanAll(buf).value, AllFragments(buf).value)
  {
    hide ScanField, Joins, Overload, Fragments, Value;
    var a := ScanField(buf[FIXED_LEN + 4..], true, []).value;
    EmptyJoins();
    ScanJoins(buf[FIXED_LEN + 4..], true, [], []);
    var fa := Fragments(buf[FIXED_LEN + 4..]).value;
    assert [] + fa == fa && fa + [] == fa;
    JoinedOverload(a, fa);
    var b, fb := a, [];
    if UsesFile(Overload(a)) {
      ScanJoins(buf[108..236], false, a, fa);
      b, fb := ScanField(buf[108..236], false, a).value, Fragments(buf[108..236]).value;
    }
    assert Joins(b, fa + fb);
    assert (fa + fb) + [] == fa + fb;
    if UsesSname(Overload(a)) {
      ScanJoins(buf[44..108], false, b, fa + fb);
    }
  }

  lemma EmptyJoins()
    ensures Joins([], [])
  {
  }

  lemma {:induction false} WithoutIs(opts: Opts, code: byte)
    ensures forall c: byte :: Has(Without(opts, code), c) <==> c != code && Has(opts, c)
    ensures forall c: byte :: c != code ==> Value(Without(opts, code), c) == Value(opts, c)
    ensures Tidy(opts) ==> Tidy(Without(opts, code))
  {
    hide Tidy, Has, Value;
    if opts == [] {
      NothingHas();
    } else {
      var rest := Without(opts[1..], code);
      WithoutIs(opts[1..], code);
      if Tidy(opts) {
        TidyTail(opts);
      }
      forall c: byte
        ensures Has(Without(opts, code), c) <==> c != code && Has(opts, c)
        ensures c != code ==> Value(Without(opts, code), c) == Value(opts, c)
      {
        HasFirst(opts, c);
        ValueFirst(opts, c);
        if opts[0].0 != code {
          var w := [opts[0]] + rest;
          assert w[1..] == rest && w[0] == opts[0];
          HasFirst(w, c);
          ValueFirst(w, c);
        } else {
          assert [] + rest == rest;
        }
      }
      if opts[0].0 != code && Tidy(opts) {
        TidyCons(opts[0], rest);
      } else {
        assert opts[0].0 == code ==> [] + rest == rest;
      }
    }
  }

  lemma TidyTail(opts: Opts)
    requires Tidy(opts) && opts != []
    ensures Tidy(opts[1..]) && !Has(opts[1..], opts[0].0) && Limit(opts[0].0).Some? && |opts[0].1| <= Limit(opts[0].0).value
  {
    assert forall i :: 0 <= i < |opts[1..]| ==> opts[1..][i] == opts[i + 1];
  }

  lemma TidyCons(o: Opt, rest: Opts)
    requires Tidy(rest) && !Has(rest, o.0) && Limit(o.0).Some? && |o.1| <= Limit(o.0).value
    ensures Tidy([o] + rest)
  {
    var all := [o] + rest;
    assert forall i :: 0 < i < |all| ==> all[i] == rest[i - 1];
  }

  /** Every kept option of a parsed message is its fragments joined in order, however it was split; it is absent if there are none. */
  lemma ParsedOptions(buf: Bytes, code: byte)
    requires Parse(buf).Some? && Limit(code).Some? && code != OVERLOAD
    ensures AllFragments(buf).Some?
    ensures OptionOf(Parse(buf).value, code)
         == if Has(AllFragments(buf).value, code) then Some(Value(AllFragments(buf).value, code)) else None
  {
    hide ScanAll, Value, Has, Find, Tidy, AllFragments, Framed;
    ScanAllJoins(buf);
    var opts := ScanAll(buf).value;
    FindIs(opts, code);
    WithoutIs(opts, OVERLOAD);
    WithoutIs(Without(opts, OVERLOAD), CLIENT_ID);
    FindIs(Without(Without(opts, OVERLOAD), CLIENT_ID), code);
  }

  // ------------------------------------------------------------------ encoding

  function OptionBytes(o: Opt): Bytes {
    if |o.1| <= 255 then [o.0, |o.1|] + o.1 else []
  }

  function EncodeOptions(opts: Opts): Bytes {
    if opts == [] then [] else OptionBytes(opts[0]) + EncodeOptions(opts[1..])
  }

  function Fixed(m: Message): Bytes {
    [m.op, 1, 6, 0] + ToBe32(m.xid) + [0, 0] + ToBe16(m.flags)
    + ToBe32(m.ciaddr) + ToBe32(m.yiaddr) + ToBe32(m.siaddr) + ToBe32(m.giaddr) + m.chaddr + Zeros(202)
  }

  /** All options in the order in which they are written. */
  function Written(m: Message): Opts {
    (if m.clientId.Some? then [(CLIENT_ID, m.clientId.value)] else []) + m.options
  }

  function Encode(m: Message): Bytes {
    Fixed(m) + MAGIC + EncodeOptions(Written(m)) + [END]
  }

  lemma {:induction false} EncodeOptionsAppend(a: Opts, b: Opts)
    ensures EncodeOptions(a + b) == EncodeOptions(a) + EncodeOptions(b)
  {
    hide OptionBytes;
    if a == [] {
      assert a + b == b;
    } else {
      EncodeOptionsAppend(a[1..], b);
      assert (a + b)[1..] == a[1..] + b && (a + b)[0] == a[0];
    }
  }

  /** Writes the message; an option too long for a length octet is left out. */
  method EncodeMessage(m: Message) returns (b: Bytes)
    requires |m.chaddr| == 6 && (m.clientId.Some? ==> |m.clientId.value| <= 255)
    ensures b == Encode(m)
  {
    hide Fixed, EncodeOptions;
    var head := Fixed(m) + MAGIC;
    b := head;
    ghost var done: Opts := [];
    NoOptions();
    if m.clientId.Some? {
      b := b + [CLIENT_ID, |m.clientId.value|] + m.clientId.value;
      done := [(CLIENT_ID, m.clientId.value)];
      OneOption(done[0]);
    }
    ghost var first := done;
    for i := 0 to |m.options|
      invariant done == first + m.options[..i] && b == head + EncodeOptions(done)
    {
      var (code, value) := m.options[i];
      EncodeOptionsAppend(done, [m.options[i]]);
      OneOption(m.options[i]);
      assert first + m.options[..i + 1] == done + [m.options[i]];
      done := done + [m.options[i]];
      if |value| <= 255 {
        b := b + [code, |value|] + value;
      }
    }
    assert first + m.options[..|m.options|] == Written(m);
    b := b + [END];
  }

  lemma NoOptions()
    ensures EncodeOptions([]) == []
  {
  }

  lemma OneOption(o: Opt)
    ensures EncodeOptions([o]) == OptionBytes(o)
  {
    assert [o][1..] == [];
  }

  // ------------------------------------------------------------------ round trip

  lemma {:induction false} EncodedFragments(opts: Opts)
    requires forall i :: 0 <= i < |opts| ==> opts[i].0 != 0 && opts[i].0 != END && |opts[i].1| <= 255
    ensures Fragments(EncodeOptions(opts) + [END]) == Some(opts)
  {
    if opts != [] {
      var (code, value) := opts[0];
      var rest := EncodeOptions(opts[1..]) + [END];
      EncodedFragments(opts[1..]);
      var field := EncodeOptions(opts) + [END];
      assert field == [code, |value|] + value + rest;
      assert field[2..2 + |value|] == value && field[2 + |value|..] == rest;
      assert [(code, value)] + opts[1..] == opts;
    }
  }

  function RetainedOnly(opts: Opts): Opts {
    if opts == [] then [] else (if Limit(opts[0].0).Some? then [opts[0]] else []) + RetainedOnly(opts[1..])
  }

  lemma {:induction false} AppendDistinct(pre: Opts, opts: Opts)
    requires Tidy(pre + RetainedOnly(opts))
    ensures AppendAll(pre, opts) == Some(pre + RetainedOnly(opts))
    decreases |opts|
  {
    hide Limit;
    if opts == [] {
      assert pre + [] == pre;
    } else {
      var (code, value) := opts[0];
      if Limit(code).None? {
        assert [] + RetainedOnly(opts[1..]) == RetainedOnly(opts[1..]);
        AppendDistinct(pre, opts[1..]);
      } else {
        var rest := RetainedOnly(opts[1..]);
        var all := pre + RetainedOnly(opts);
        assert all == (pre + [(code, value)]) + rest;
        assert all[|pre|] == (code, value);
        assert forall i :: 0 <= i < |pre| ==> all[i] == pre[i];
        assert !Has(pre, code);
        AppendDistinct(pre + [(code, value)], opts[1..]);
      }
    }
  }

  /** What a message needs to survive the wire: codes that are not framing, values that fit, kept options once and valid, and a type. */
  ghost predicate Wellformed(m: Message) {
    var opts := Written(m);
    && (m.op == 1 || m.op == 2) && |m.chaddr| == 6 && |Encode(m)| <= MAX_DATAGRAM
    && (forall i :: 0 <= i < |opts| ==> opts[i].0 != 0 && opts[i].0 != END && opts[i].0 != OVERLOAD && |opts[i].1| <= 255)
    && Tidy(RetainedOnly(opts)) && RetainedValid(RetainedOnly(opts)) && Has(RetainedOnly(opts), MSG_TYPE)
  }

  lemma FixedFields(m: Message, back: Bytes, opts: Opts)
    requires |m.chaddr| == 6
    ensures |Fixed(m)| == FIXED_LEN && (Fixed(m) + back)[0] == m.op && (Fixed(m) + back)[1] == 1 && (Fixed(m) + back)[2] == 6
    ensures Fields(Fixed(m) + back, opts) == m.(clientId := Find(opts, CLIENT_ID), options := Without(Without(opts, OVERLOAD), CLIENT_ID))
  {
    hide ToBe32, FromBe32, Find, Without;
    var b := Fixed(m) + back;
    assert b[4..8] == ToBe32(m.xid) && b[12..16] == ToBe32(m.ciaddr) && b[16..20] == ToBe32(m.yiaddr);
    assert b[20..24] == ToBe32(m.siaddr) && b[24..28] == ToBe32(m.giaddr) && b[28..34] == m.chaddr;
    assert b[10] == ToBe16(m.flags)[0] && b[11] == ToBe16(m.flags)[1];
    Be16RoundTrip(m.flags);
    Be32RoundTrip(m.xid);
    Be32RoundTrip(m.ciaddr);
    Be32RoundTrip(m.yiaddr);
    Be32RoundTrip(m.siaddr);
    Be32RoundTrip(m.giaddr);
  }

  lemma {:induction false} WithoutAbsent(opts: Opts, code: byte)
    requires !Has(opts, code)
    ensures Without(opts, code) == opts
  {
    if opts != [] {
      HasFirst(opts, code);
      WithoutAbsent(opts[1..], code);
      assert opts == [opts[0]] + opts[1..];
    }
  }

  lemma {:induction false} RetainedHas(opts: Opts, code: byte)
    ensures Has(RetainedOnly(opts), code) <==> Limit(code).Some? && Has(opts, code)
  {
    hide Limit, Has;
    if opts == [] {
      NothingHas();
    } else {
      RetainedHas(opts[1..], code);
      HasFirst(opts, code);
      var rest := RetainedOnly(opts[1..]);
      if Limit(opts[0].0).Some? {
        assert ([opts[0]] + rest)[1..] == rest;
        HasFirst([opts[0]] + rest, code);
      } else {
        assert [] + rest == rest;
      }
    }
  }

  /** Taking the client identifier off the front again. */
  lemma WrittenSplits(m: Message)
    requires Tidy(RetainedOnly(Written(m))) && !Has(RetainedOnly(Written(m)), OVERLOAD)
    requires m.clientId.None? ==> !Has(m.options, CLIENT_ID)
    ensures
      var opts := RetainedOnly(Written(m));
      Find(opts, CLIENT_ID) == m.clientId && Without(Without(opts, OVERLOAD), CLIENT_ID) == RetainedOnly(m.options)
  {
    hide Limit;
    var opts := RetainedOnly(Written(m));
    WithoutAbsent(opts, OVERLOAD);
    RetainedHas(m.options, CLIENT_ID);
    if m.clientId.None? {
      assert Written(m) == m.options;
      WithoutAbsent(opts, CLIENT_ID);
    } else {
      var rest := RetainedOnly(m.options);
      ClientIdFirst(m);
      assert opts[0].0 == CLIENT_ID;
      TidyTail(opts);
      assert opts[1..] == rest;
      WithoutAbsent(rest, CLIENT_ID);
      assert [] + rest == rest;
    }
  }

  lemma ClientIdFirst(m: Message)
    requires m.clientId.Some?
    ensures RetainedOnly(Written(m)) == [(CLIENT_ID, m.clientId.value)] + RetainedOnly(m.options)
  {
    assert Written(m)[1..] == m.options;
  }

  /** Parsing undoes encoding, except that options the server does not keep are gone. */
  lemma RoundTrip(m: Message)
    requires Wellformed(m) && (m.clientId.None? ==> !Has(m.options, CLIENT_ID))
    ensures Parse(Encode(m)) == Some(m.(options := RetainedOnly(m.options)))
  {
    hide Fixed, Fields, Tidy, RetainedValid, Has, Fragments, AppendAll, EncodeOptions, RetainedOnly, Find, Limit;
    var opts, back := RetainedOnly(Written(m)), MAGIC + EncodeOptions(Written(m)) + [END];
    assert Encode(m) == Fixed(m) + back;
    FixedFields(m, back, opts);
    assert Encode(m)[FIXED_LEN..FIXED_LEN + 4] == MAGIC;
    assert Encode(m)[FIXED_LEN + 4..] == EncodeOptions(Written(m)) + [END];
    EncodedFragments(Written(m));
    assert [] + opts == opts;
    AppendDistinct([], Written(m));
    RetainedHas(Written(m), OVERLOAD);
    NotOverloaded(Written(m));
    WrittenSplits(m);
    NoOverload(opts);
  }

  lemma NotOverloaded(opts: Opts)
    requires forall i :: 0 <= i < |opts| ==> opts[i].0 != OVERLOAD
    ensures !Has(opts, OVERLOAD)
  {
  }

  lemma NoOverload(opts: Opts)
    requires !Has(opts, OVERLOAD)
    ensures Overload(opts) == 0
  {
  }
}
