/**
 Cache keys: a request is reduced to the bytes that can change its answer. The length is counted
 in one pass over the options and the bytes are written in a second one.
 */
module RequestKey {
  import opened Basics
  import Dns

  const MAX_CACHED_REQUEST_WIRE := 4096
  const INLINE_CAPACITY := 64
  const EDNS_PADDING: u16 := 12
  const OPT: u16 := 41

  // ------------------------------------------------------------------ requests

  type Labels = seq<Bytes>

  /** What every decoded name satisfies. */
  predicate ValidName(name: Labels) {
    (forall i :: 0 <= i < |name| ==> 0 < |name[i]| <= 63) && Dns.WireLength(name) <= 255
  }

  datatype Header = Header(id: u16, response: bool, opcode: byte, authoritative: bool, truncated: bool,
                           recursionDesired: bool, recursionAvailable: bool, authenticData: bool, checkingDisabled: bool, rcode: u16)

  datatype Question = Question(name: Labels, qtype: u16, qclass: u16)

  /** A record of the additional section; `raw` is absent when its data was decoded into another form. */
  datatype Record = Record(name: Labels, rtype: u16, class_: u16, ttl: u32, raw: Option<Bytes>)

  datatype Request = Request(header: Header, questions: seq<Question>, answers: nat, authorities: nat, additionals: seq<Record>)

  /** Questions and nothing else, apart from one OPT record. */
  predicate Cacheable(r: Request) {
    && !r.header.response && r.header.opcode == 0 && !r.header.authoritative && !r.header.truncated
    && !r.header.recursionAvailable && r.header.rcode == 0
    && |r.questions| == 1 && r.answers == 0 && r.authorities == 0 && |r.additionals| <= 1
    && (forall i :: 0 <= i < |r.additionals| ==> r.additionals[i].rtype == OPT)
  }

  // ------------------------------------------------------------------ what a request means

  datatype EdnsOption = EdnsOption(code: u16, data: Bytes)

  datatype Edns = Edns(payload: u16, version: byte, dnssecOk: bool, options: seq<EdnsOption>)

  datatype Meaning = Meaning(rd: bool, ad: bool, cd: bool, name: Labels, qtype: u16, qclass: u16, edns: Option<Edns>)

  function LowerName(n: Labels): Labels {
    seq(|n|, i requires 0 <= i < |n| => Lowered(n[i]))
  }

  /** The options that are not padding, in order; nothing when the list is cut short. */
  function Options(raw: Bytes): (r: Option<seq<EdnsOption>>)
    ensures r.Some? ==> forall i :: 0 <= i < |r.value| ==> |r.value[i].data| <= U16_MAX
  {
    if raw == [] then Some([])
    else if |raw| < 4 then None
    else
      var code, len := FromBe16(raw[0], raw[1]), FromBe16(raw[2], raw[3]);
      if |raw| < 4 + len then None
      else
        var rest := Options(raw[4 + len..]);
        if rest.None? then None
        else Some((if code == EDNS_PADDING then [] else [EdnsOption(code, raw[4..4 + len])]) + rest.value)
  }

  function Version(ttl: u32): byte {
    ttl / 0x1_0000 % 0x100
  }

  predicate DnssecOk(ttl: u32) {
    ttl / 0x8000 % 2 == 1
  }

  function EdnsOf(r: Record): Option<Edns> {
    if r.name != [] || r.raw.None? then None
    else
      var options := Options(r.raw.value);
      if options.None? || |options.value| > U16_MAX then None
      else Some(Edns(r.class_, Version(r.ttl), DnssecOk(r.ttl), options.value))
  }

  function MeaningOf(r: Request): Option<Meaning> {
    if !Cacheable(r) then None
    else
      var q, h := r.questions[0], r.header;
      var m := Meaning(h.recursionDesired, h.authenticData, h.checkingDisabled, LowerName(q.name), q.qtype, q.qclass, None);
      if r.additionals == [] then Some(m)
      else
        var e := EdnsOf(r.additionals[0]);
        if e.None? then None else Some(m.(edns := e))
  }

  // ------------------------------------------------------------------ the key bytes

  /** What every meaning of a request satisfies. */
  predicate Sized(m: Meaning) {
    ValidName(m.name) && (m.edns.Some? ==> OptionsSized(m.edns.value.options))
  }

  predicate OptionsSized(options: seq<EdnsOption>) {
    |options| <= U16_MAX && forall i :: 0 <= i < |options| ==> |options[i].data| <= U16_MAX
  }

  function Flags(m: Meaning): u16 {
    (if m.rd then 0x100 else 0) + (if m.ad then 0x20 else 0) + (if m.cd then 0x10 else 0)
  }

  /** Length-prefixed labels, ended by a zero. */
  function NameBytes(n: Labels): Bytes
    requires forall i :: 0 <= i < |n| ==> 0 < |n[i]| <= 63
  {
    if n == [] then [0] else [|n[0]|] + n[0] + NameBytes(n[1..])
  }

  function OptionBytes(o: EdnsOption): Bytes
    requires |o.data| <= U16_MAX
  {
    ToBe16(o.code) + ToBe16(|o.data|) + o.data
  }

  function OptionsBytes(options: seq<EdnsOption>): Bytes
    requires forall i :: 0 <= i < |options| ==> |options[i].data| <= U16_MAX
  {
    if options == [] then [] else OptionBytes(options[0]) + OptionsBytes(options[1..])
  }

  function Bit(b: bool): byte {
    if b then 1 else 0
  }

  function EdnsHead(e: Edns): Bytes
    requires OptionsSized(e.options)
  {
    ToBe16(e.payload) + [e.version, Bit(e.dnssecOk)] + ToBe16(|e.options|)
  }

  function EdnsBytes(e: Option<Edns>): Bytes
    requires e.Some? ==> OptionsSized(e.value.options)
  {
    if e.None? then [0] else [1] + EdnsHead(e.value) + OptionsBytes(e.value.options)
  }

  function HeadBytes(m: Meaning): Bytes
    requires ValidName(m.name)
  {
    [1] + ToBe16(Flags(m)) + NameBytes(m.name) + ToBe16(m.qtype) + ToBe16(m.qclass)
  }

  function KeyBytes(m: Meaning): Bytes
    requires Sized(m)
  {
    HeadBytes(m) + EdnsBytes(m.edns)
  }

  // ------------------------------------------------------------------ different meanings have different keys

  lemma ToBe16Injective(x: u16, y: u16)
    requires ToBe16(x) == ToBe16(y)
    ensures x == y
  {
    assert ToBe16(x)[0] == ToBe16(y)[0] && ToBe16(x)[1] == ToBe16(y)[1];
    assert x == x / 0x100 * 0x100 + x % 0x100 && y == y / 0x100 * 0x100 + y % 0x100;
  }

  lemma SplitAppend(a: Bytes, x: Bytes, b: Bytes, y: Bytes)
    requires a + x == b + y && |a| == |b|
    ensures a == b && x == y
  {
    assert a == (a + x)[..|a|] && b == (b + y)[..|b|];
    assert x == (a + x)[|a|..] && y == (b + y)[|b|..];
  }

  lemma FlagsInjective(a: Meaning, b: Meaning)
    requires Flags(a) == Flags(b)
    ensures a.rd == b.rd && a.ad == b.ad && a.cd == b.cd
  {
  }

  /** Encoded names are self-delimiting: whatever follows, the name can be read off. */
  lemma {:induction false} NamesDelimit(a: Labels, x: Bytes, b: Labels, y: Bytes)
    requires forall i :: 0 <= i < |a| ==> 0 < |a[i]| <= 63
    requires forall i :: 0 <= i < |b| ==> 0 < |b[i]| <= 63
    requires NameBytes(a) + x == NameBytes(b) + y
    ensures a == b && x == y
  {
    assert (NameBytes(a) + x)[0] == (NameBytes(b) + y)[0];
    if a == [] || b == [] {
      assert a == b == [];
      SplitAppend([0], x, [0], y);
    } else {
      assert |a[0]| == |b[0]|;
      assert NameBytes(a) + x == ([|a[0]|] + a[0]) + (NameBytes(a[1..]) + x);
      assert NameBytes(b) + y == ([|b[0]|] + b[0]) + (NameBytes(b[1..]) + y);
      SplitAppend([|a[0]|] + a[0], NameBytes(a[1..]) + x, [|b[0]|] + b[0], NameBytes(b[1..]) + y);
      SplitAppend([|a[0]|], a[0], [|b[0]|], b[0]);
      NamesDelimit(a[1..], x, b[1..], y);
      assert a == [a[0]] + a[1..] && b == [b[0]] + b[1..];
    }
  }

  lemma OptionsDelimit1(a: EdnsOption, x: Bytes, b: EdnsOption, y: Bytes)
    requires |a.data| <= U16_MAX && |b.data| <= U16_MAX && OptionBytes(a) + x == OptionBytes(b) + y
    ensures a == b && x == y
  {
    assert OptionBytes(a) + x == ToBe16(a.code) + (ToBe16(|a.data|) + (a.data + x));
    assert OptionBytes(b) + y == ToBe16(b.code) + (ToBe16(|b.data|) + (b.data + y));
    SplitAppend(ToBe16(a.code), ToBe16(|a.data|) + (a.data + x), ToBe16(b.code), ToBe16(|b.data|) + (b.data + y));
    SplitAppend(ToBe16(|a.data|), a.data + x, ToBe16(|b.data|), b.data + y);
    ToBe16Injective(a.code, b.code);
    ToBe16Injective(|a.data|, |b.data|);
    SplitAppend(a.data, x, b.data, y);
  }

  lemma {:induction false} OptionsInjective(a: seq<EdnsOption>, b: seq<EdnsOption>)
    requires forall i :: 0 <= i < |a| ==> |a[i].data| <= U16_MAX
    requires forall i :: 0 <= i < |b| ==> |b[i].data| <= U16_MAX
    requires OptionsBytes(a) == OptionsBytes(b)
    ensures a == b
  {
    if a != [] && b != [] {
      OptionsDelimit1(a[0], OptionsBytes(a[1..]), b[0], OptionsBytes(b[1..]));
      OptionsInjective(a[1..], b[1..]);
      assert a == [a[0]] + a[1..] && b == [b[0]] + b[1..];
    }
  }

  lemma EdnsInjective(a: Option<Edns>, b: Option<Edns>)
    requires a.Some? ==> OptionsSized(a.value.options)
    requires b.Some? ==> OptionsSized(b.value.options)
    requires EdnsBytes(a) == EdnsBytes(b)
    ensures a == b
  {
    assert EdnsBytes(a)[0] == EdnsBytes(b)[0];
    if a.Some? && b.Some? {
      var d, e := a.value, b.value;
      assert EdnsBytes(a) == ([1] + EdnsHead(d)) + OptionsBytes(d.options);
      assert EdnsBytes(b) == ([1] + EdnsHead(e)) + OptionsBytes(e.options);
      SplitAppend([1] + EdnsHead(d), OptionsBytes(d.options), [1] + EdnsHead(e), OptionsBytes(e.options));
      SplitAppend([1], EdnsHead(d), [1], EdnsHead(e));
      OptionsInjective(d.options, e.options);
      assert EdnsHead(d)[..2] == ToBe16(d.payload) && EdnsHead(e)[..2] == ToBe16(e.payload);
      ToBe16Injective(d.payload, e.payload);
      assert EdnsHead(d)[2] == EdnsHead(e)[2] && EdnsHead(d)[3] == EdnsHead(e)[3];
    }
  }

  /** Equal keys mean equal requests, as far as the answer is concerned, and conversely. */
  lemma KeysAreCanonical(a: Meaning, b: Meaning)
    requires Sized(a) && Sized(b)
    ensures KeyBytes(a) == KeyBytes(b) <==> a == b
  {
    hide NameBytes, EdnsBytes;
    if KeyBytes(a) == KeyBytes(b) {
      var ta := ToBe16(a.qtype) + (ToBe16(a.qclass) + EdnsBytes(a.edns));
      var tb := ToBe16(b.qtype) + (ToBe16(b.qclass) + EdnsBytes(b.edns));
      assert KeyBytes(a) == [1] + (ToBe16(Flags(a)) + (NameBytes(a.name) + ta));
      assert KeyBytes(b) == [1] + (ToBe16(Flags(b)) + (NameBytes(b.name) + tb));
      SplitAppend([1], ToBe16(Flags(a)) + (NameBytes(a.name) + ta), [1], ToBe16(Flags(b)) + (NameBytes(b.name) + tb));
      SplitAppend(ToBe16(Flags(a)), NameBytes(a.name) + ta, ToBe16(Flags(b)), NameBytes(b.name) + tb);
      NamesDelimit(a.name, ta, b.name, tb);
      ToBe16Injective(Flags(a), Flags(b));
      FlagsInjective(a, b);
      SplitAppend(ToBe16(a.qtype), ToBe16(a.qclass) + EdnsBytes(a.edns), ToBe16(b.qtype), ToBe16(b.qclass) + EdnsBytes(b.edns));
      ToBe16Injective(a.qtype, b.qtype);
      SplitAppend(ToBe16(a.qclass), EdnsBytes(a.edns), ToBe16(b.qclass), EdnsBytes(b.edns));
      ToBe16Injective(a.qclass, b.qclass);
      EdnsInjective(a.edns, b.edns);
    }
  }

  // ------------------------------------------------------------------ the buffer

  /** Collects key bytes in a fixed buffer when they are known to fit, else in a growing one. */
  class KeyBuffer {
    const inline: bool
    const bytes: array<byte>
    var len: nat
    var heap: Bytes

    ghost predicate Valid()
      reads this
    {
      bytes.Length == INLINE_CAPACITY && len <= INLINE_CAPACITY
    }

    ghost function Contents(): Bytes
      requires Valid()
      reads this, bytes
    {
      if inline then bytes[..len] else heap
    }

    constructor (capacity: nat)
      ensures Valid() && fresh(bytes) && inline == (capacity <= INLINE_CAPACITY) && Contents() == []
    {
      inline := capacity <= INLINE_CAPACITY;
      bytes := new byte[INLINE_CAPACITY](_ => 0);
      len, heap := 0, [];
    }

    /** The only demand on callers: an inline buffer has room. */
    method Extend(value: Bytes)
      requires Valid() && (inline ==> |Contents()| + |value| <= INLINE_CAPACITY)
      modifies this, bytes
      ensures Valid() && Contents() == old(Contents()) + value
    {
      if inline {
        ghost var start := bytes[..len];
        forall i | 0 <= i < |value| {
          bytes[len + i] := value[i];
        }
        assert bytes[..len + |value|] == start + value;
        len := len + |value|;
      } else {
        heap := heap + value;
      }
    }
  }

  // ------------------------------------------------------------------ the two passes

  /** `done` followed by what is still to be read. */
  ghost function Prepended(done: seq<EdnsOption>, rest: Option<seq<EdnsOption>>): Option<seq<EdnsOption>> {
    if rest.None? then None else Some(done + rest.value)
  }

  lemma {:induction false} OptionsBytesAppend(a: seq<EdnsOption>, o: EdnsOption)
    requires (forall i :: 0 <= i < |a| ==> |a[i].data| <= U16_MAX) && |o.data| <= U16_MAX
    ensures OptionsBytes(a + [o]) == OptionsBytes(a) + OptionBytes(o)
  {
    if a == [] {
      assert [o][1..] == [];
    } else {
      OptionsBytesAppend(a[1..], o);
      assert (a + [o])[1..] == a[1..] + [o];
    }
  }

  /** Reading one more option. */
  lemma OptionsStep(raw: Bytes, offset: nat, done: seq<EdnsOption>)
    requires offset < |raw|
    ensures |raw| < offset + 4 ==> Options(raw[offset..]).None?
    ensures |raw| >= offset + 4 ==>
      var code, len := FromBe16(raw[offset], raw[offset + 1]), FromBe16(raw[offset + 2], raw[offset + 3]);
      var end := offset + 4 + len;
      && (|raw| < end ==> Options(raw[offset..]).None?)
      && (|raw| >= end ==>
            var read := if code == EDNS_PADDING then [] else [EdnsOption(code, raw[offset + 4..end])];
            Prepended(done, Options(raw[offset..])) == Prepended(done + read, Options(raw[end..])))
  {
    if |raw| >= offset + 4 {
      var code, len := FromBe16(raw[offset], raw[offset + 1]), FromBe16(raw[offset + 2], raw[offset + 3]);
      var end := offset + 4 + len;
      if |raw| >= end {
        var read := if code == EDNS_PADDING then [] else [EdnsOption(code, raw[offset + 4..end])];
        assert raw[offset..][4..4 + len] == raw[offset + 4..end] && raw[offset..][4 + len..] == raw[end..];
        var rest := Options(raw[end..]);
        if rest.Some? {
          assert done + (read + rest.value) == (done + read) + rest.value;
        }
      }
    }
  }

  /** Counts the options that go into the key, and their bytes. */
  method CountOptions(raw: Bytes) returns (counted: Option<(nat, nat)>)
    ensures counted.None? <==> Options(raw).None? || |Options(raw).value| > U16_MAX
    ensures counted.Some? ==> counted.value == (|Options(raw).value|, |OptionsBytes(Options(raw).value)|)
  {
    hide Options, OptionsBytes;
    var offset: nat, count: nat, size: nat := 0, 0, 0;
    ghost var done: seq<EdnsOption> := [];
    NothingRead(raw);
    while offset < |raw|
      invariant offset <= |raw| && Options(raw) == Prepended(done, Options(raw[offset..]))
      invariant forall i :: 0 <= i < |done| ==> |done[i].data| <= U16_MAX
      invariant count == |done| <= U16_MAX && size == |OptionsBytes(done)|
    {
      OptionsStep(raw, offset, done);
      if offset + 4 > |raw| {
        return None;
      }
      var code, len := FromBe16(raw[offset], raw[offset + 1]), FromBe16(raw[offset + 2], raw[offset + 3]);
      var end := offset + 4 + len;
      if end > |raw| {
        return None;
      }
      if code != EDNS_PADDING {
        ghost var o := EdnsOption(code, raw[offset + 4..end]);
        if count == U16_MAX {
          return None;
        }
        OptionsBytesAppend(done, o);
        done := done + [o];
        count, size := count + 1, size + 4 + len;
      } else {
        assert done + [] == done;
      }
      offset := end;
    }
    AllRead(raw, done);
    return Some((count, size));
  }

  lemma NothingRead(raw: Bytes)
    ensures Options(raw) == Prepended([], Options(raw[0..])) && OptionsBytes([]) == []
  {
    assert raw[0..] == raw;
    if Options(raw).Some? {
      assert [] + Options(raw).value == Options(raw).value;
    }
  }

  lemma AllRead(raw: Bytes, done: seq<EdnsOption>)
    ensures Prepended(done, Options(raw[|raw|..])) == Some(done)
  {
    assert raw[|raw|..] == [] && done + [] == done;
  }

  lemma {:induction false} OptionsBytesConcat(a: seq<EdnsOption>, b: seq<EdnsOption>)
    requires forall i :: 0 <= i < |a| ==> |a[i].data| <= U16_MAX
    requires forall i :: 0 <= i < |b| ==> |b[i].data| <= U16_MAX
    ensures OptionsBytes(a + b) == OptionsBytes(a) + OptionsBytes(b)
  {
    hide OptionBytes;
    if a == [] {
      assert a + b == b;
    } else {
      OptionsBytesConcat(a[1..], b);
      assert (a + b)[1..] == a[1..] + b && (a + b)[0] == a[0];
      assert OptionsBytes(a + b) == OptionBytes(a[0]) + OptionsBytes(a[1..] + b);
    }
  }

  /** Writes the same options; the room the counting pass found is enough. */
  method WriteOptions(buffer: KeyBuffer, raw: Bytes)
    requires buffer.Valid() && Options(raw).Some?
    requires buffer.inline ==> |buffer.Contents()| + |OptionsBytes(Options(raw).value)| <= INLINE_CAPACITY
    modifies buffer, buffer.bytes
    ensures buffer.Valid() && buffer.Contents() == old(buffer.Contents()) + OptionsBytes(Options(raw).value)
  {
    hide Options, OptionsBytes, OptionBytes;
    var offset: nat := 0;
    ghost var done: seq<EdnsOption> := [];
    ghost var all, start := Options(raw).value, buffer.Contents();
    NothingRead(raw);
    while offset < |raw|
      invariant buffer.Valid() && offset <= |raw| && Options(raw) == Prepended(done, Options(raw[offset..]))
      invariant forall i :: 0 <= i < |done| ==> |done[i].data| <= U16_MAX
      invariant buffer.Contents() == start + OptionsBytes(done)
    {
      OptionsStep(raw, offset, done);
      var code, len := FromBe16(raw[offset], raw[offset + 1]), FromBe16(raw[offset + 2], raw[offset + 3]);
      var end := offset + 4 + len;
      if code != EDNS_PADDING {
        var o := EdnsOption(code, raw[offset + 4..end]);
        OptionsBytesConcat(done + [o], Options(raw[end..]).value);
        OptionsBytesAppend(done, o);
        assert |OptionsBytes(done)| + |OptionBytes(o)| <= |OptionsBytes(all)|;
        buffer.Extend(OptionBytes(o));
        assert (start + OptionsBytes(done)) + OptionBytes(o) == start + OptionsBytes(done + [o]);
        done := done + [o];
      } else {
        assert done + [] == done;
      }
      offset := end;
    }
    AllRead(raw, done);
  }

  lemma LowerKeepsLengths(n: Labels)
    requires ValidName(n)
    ensures ValidName(LowerName(n))
  {
    LowerWireLength(n);
  }

  lemma {:induction false} LowerWireLength(n: Labels)
    ensures Dns.WireLength(LowerName(n)) == Dns.WireLength(n)
  {
    if n != [] {
      LowerWireLength(n[1..]);
      assert LowerName(n)[1..] == LowerName(n[1..]);
    }
  }

  lemma MeaningsAreSized(r: Request)
    requires MeaningOf(r).Some? && ValidName(r.questions[0].name)
    ensures Sized(MeaningOf(r).value)
  {
    LowerKeepsLengths(r.questions[0].name);
  }

  /** The key of a request, if it has one. */
  function KeyOf(r: Request): Option<Bytes>
    requires forall i :: 0 <= i < |r.questions| ==> ValidName(r.questions[i].name)
  {
    if MeaningOf(r).None? then None
    else
      MeaningsAreSized(r);
      var key := KeyBytes(MeaningOf(r).value);
      if |key| <= MAX_CACHED_REQUEST_WIRE then Some(key) else None
  }

  method WriteHead(buffer: KeyBuffer, h: Header, q: Question, ghost m: Meaning)
    requires buffer.Valid() && buffer.Contents() == []
    requires ValidName(m.name) && m.name == LowerName(q.name) && m.qtype == q.qtype && m.qclass == q.qclass
    requires m.rd == h.recursionDesired && m.ad == h.authenticData && m.cd == h.checkingDisabled
    requires buffer.inline ==> |HeadBytes(m)| <= INLINE_CAPACITY
    modifies buffer, buffer.bytes
    ensures buffer.Valid() && buffer.Contents() == HeadBytes(m)
  {
    hide NameBytes, Dns.WireLength, LowerName;
    buffer.Extend([1]);
    buffer.Extend(ToBe16((if h.recursionDesired then 0x100 else 0) + (if h.authenticData then 0x20 else 0) + (if h.checkingDisabled then 0x10 else 0)));
    buffer.Extend(NameBytes(LowerName(q.name)));
    buffer.Extend(ToBe16(q.qtype));
    buffer.Extend(ToBe16(q.qclass));
  }

  method WriteEdns(buffer: KeyBuffer, record: Record, count: nat)
    requires buffer.Valid() && EdnsOf(record).Some? && count == |EdnsOf(record).value.options|
    requires buffer.inline ==> |buffer.Contents()| + |EdnsBytes(EdnsOf(record))| <= INLINE_CAPACITY
    modifies buffer, buffer.bytes
    ensures buffer.Valid() && buffer.Contents() == old(buffer.Contents()) + EdnsBytes(EdnsOf(record))
  {
    hide Options, OptionsBytes, ToBe16, Version, DnssecOk;
    buffer.Extend([1]);
    buffer.Extend(ToBe16(record.class_));
    buffer.Extend([Version(record.ttl), Bit(DnssecOk(record.ttl))]);
    buffer.Extend(ToBe16(count));
    ghost var sofar := buffer.Contents();
    assert sofar == old(buffer.Contents()) + ([1] + EdnsHead(EdnsOf(record).value));
    WriteOptions(buffer, record.raw.value);
  }

  /** Counts first, for the whole section: whether it can be keyed, the options and the bytes it will take. */
  method CountEdns(additionals: seq<Record>) returns (counted: Option<(nat, nat)>)
    requires |additionals| <= 1
    ensures counted.None? <==> additionals != [] && EdnsOf(additionals[0]).None?
    ensures counted.Some? && additionals == [] ==> counted.value == (0, 0)
    ensures counted.Some? && additionals != [] ==> counted.value == (|EdnsOf(additionals[0]).value.options|, |EdnsBytes(EdnsOf(additionals[0]))| - 1)
  {
    hide Options, OptionsBytes;
    if additionals == [] {
      return Some((0, 0));
    }
    var record := additionals[0];
    if record.name != [] || record.raw.None? {
      return None;
    }
    counted := CountOptions(record.raw.value);
    if counted.Some? {
      counted := Some((counted.value.0, 6 + counted.value.1));
    }
  }

  /** The key of a request, or nothing when it cannot be cached. Exactly the counted bytes are written. */
  method FromRequest(r: Request) returns (key: Option<Bytes>)
    requires forall i :: 0 <= i < |r.questions| ==> ValidName(r.questions[i].name)
    ensures key == KeyOf(r)
  {
    hide Options, NameBytes, Dns.WireLength, LowerName, EdnsOf, OptionsBytes, EdnsHead;
    if !Cacheable(r) {
      return None;
    }
    var counted := CountEdns(r.additionals);
    if counted.None? {
      return None;
    }
    ghost var m := MeaningOf(r).value;
    MeaningsAreSized(r);
    var keyLen := 1 + 2 + |NameBytes(LowerName(r.questions[0].name))| + 4 + 1 + counted.value.1;
    assert keyLen == |KeyBytes(m)|;
    if keyLen > MAX_CACHED_REQUEST_WIRE {
      return None;
    }
    var buffer := new KeyBuffer(keyLen);
    WriteHead(buffer, r.header, r.questions[0], m);
    if r.additionals == [] {
      buffer.Extend([0]);
    } else {
      WriteEdns(buffer, r.additionals[0], counted.value.0);
    }
    assert buffer.Contents() == KeyBytes(m);
    key := Some(if buffer.inline then buffer.bytes[..buffer.len] else buffer.heap);
  }
}
