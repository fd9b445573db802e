/** Which requests share a cache key, said of the requests themselves. */
module KeyLaws {
  import opened Basics
  import Dns
  import opened RequestKey

  // ------------------------------------------------------------------ names

  /** The same letter in either case, or the same other byte. */
  predicate SameLetter(x: byte, y: byte) {
    x == y || (0x41 <= x <= 0x5A && y == x + 0x20) || (0x41 <= y <= 0x5A && x == y + 0x20)
  }

  ghost predicate SameLabel(a: Bytes, b: Bytes) {
    |a| == |b| && forall i :: 0 <= i < |a| ==> SameLetter(a[i], b[i])
  }

  ghost predicate SameName(a: Labels, b: Labels) {
    |a| == |b| && forall i :: 0 <= i < |a| ==> SameLabel(a[i], b[i])
  }

  lemma SameLabelIs(a: Bytes, b: Bytes)
    ensures SameLabel(a, b) <==> Lowered(a) == Lowered(b)
  {
    forall i | 0 <= i < |a| && i < |b|
      ensures SameLetter(a[i], b[i]) <==> Lowered(a)[i] == Lowered(b)[i]
    {
      SameLetterIs(a[i], b[i]);
    }
    if Lowered(a) == Lowered(b) {
      assert |a| == |Lowered(a)| && |b| == |Lowered(b)|;
    }
  }

  lemma SameLetterIs(x: byte, y: byte)
    ensures SameLetter(x, y) <==> Lower(x) == Lower(y)
  {
  }

  lemma SameNameIs(a: Labels, b: Labels)
    ensures SameName(a, b) <==> LowerName(a) == LowerName(b)
  {
    hide SameLabel;
    forall i | 0 <= i < |a| && i < |b|
      ensures SameLabel(a[i], b[i]) <==> LowerName(a)[i] == LowerName(b)[i]
    {
      SameLabelIs(a[i], b[i]);
    }
    if LowerName(a) == LowerName(b) {
      assert |a| == |LowerName(a)| && |b| == |LowerName(b)|;
    }
  }

  // ------------------------------------------------------------------ options

  /** The bytes of an option: its code, its length and its data. */
  function OnWire(o: EdnsOption): Bytes
    requires |o.data| <= 0xFFFF
  {
    [o.code / 256, o.code % 256, |o.data| / 256, |o.data| % 256] + o.data
  }

  predicate Writable(l: seq<EdnsOption>) {
    forall i :: 0 <= i < |l| ==> |l[i].data| <= 0xFFFF
  }

  function AllOnWire(l: seq<EdnsOption>): Bytes
    requires Writable(l)
  {
    if l == [] then [] else OnWire(l[0]) + AllOnWire(l[1..])
  }

  /** The options other than padding (RFC 7830), in order. */
  function Telling(l: seq<EdnsOption>): seq<EdnsOption> {
    if l == [] then [] else (if l[0].code == 12 then [] else [l[0]]) + Telling(l[1..])
  }

  lemma OneOnWire(o: EdnsOption, rest: Bytes)
    requires |o.data| <= 0xFFFF
    ensures
      var raw, n := OnWire(o) + rest, |o.data|;
      && FromBe16(raw[0], raw[1]) == o.code && FromBe16(raw[2], raw[3]) == n
      && raw[4..4 + n] == o.data && raw[4 + n..] == rest
  {
    var raw := OnWire(o) + rest;
    assert raw[0] == o.code / 256 && raw[1] == o.code % 256 && raw[2] == |o.data| / 256 && raw[3] == |o.data| % 256;
  }

  /** Reading what was written gives the options back, without padding. */
  lemma {:induction false} OptionsRoundTrip(l: seq<EdnsOption>)
    requires Writable(l)
    ensures Options(AllOnWire(l)) == Some(Telling(l))
  {
    hide OnWire, Options;
    if l == [] {
      NoOptions();
    } else {
      OptionsRoundTrip(l[1..]);
      OneRead(l[0], AllOnWire(l[1..]));
    }
  }

  lemma NoOptions()
    ensures Options([]) == Some([])
  {
  }

  lemma OneRead(o: EdnsOption, rest: Bytes)
    requires |o.data| <= 0xFFFF && Options(rest).Some?
    ensures Options(OnWire(o) + rest) == Some((if o.code == 12 then [] else [o]) + Options(rest).value)
  {
    OneOnWire(o, rest);
    FirstOption(OnWire(o) + rest);
    assert EdnsOption(o.code, o.data) == o;
  }

  lemma FirstOption(raw: Bytes)
    requires |raw| >= 4 && |raw| >= 4 + FromBe16(raw[2], raw[3])
    ensures
      var code, end := FromBe16(raw[0], raw[1]), 4 + FromBe16(raw[2], raw[3]);
      var rest := Options(raw[end..]);
      Options(raw) == if rest.None? then None else Some((if code == 12 then [] else [EdnsOption(code, raw[4..end])]) + rest.value)
  {
  }

  /** Whatever can be read was written from some list. */
  lemma {:induction false} OptionsComplete(raw: Bytes) returns (l: seq<EdnsOption>)
    requires Options(raw).Some?
    ensures Writable(l) && AllOnWire(l) == raw
    decreases |raw|
  {
    hide OnWire, FromBe16;
    if raw == [] {
      l := [];
    } else {
      var o, end := FirstOnWire(raw);
      var rest := OptionsComplete(raw[end..]);
      l := [o] + rest;
      assert l[1..] == rest && l[0] == o;
      assert raw == raw[..end] + raw[end..];
    }
  }

  lemma FirstOnWire(raw: Bytes) returns (o: EdnsOption, end: nat)
    requires raw != [] && Options(raw).Some?
    ensures 4 <= end <= |raw| && |o.data| <= 0xFFFF && OnWire(o) == raw[..end] && Options(raw[end..]).Some?
  {
    var code: u16, len: nat := FromBe16(raw[0], raw[1]), FromBe16(raw[2], raw[3]);
    end := 4 + len;
    o := EdnsOption(code, raw[4..end]);
    FirstOption(raw);
    HeaderBytes(raw[0], raw[1]);
    HeaderBytes(raw[2], raw[3]);
  }

  lemma HeaderBytes(a: byte, b: byte)
    ensures FromBe16(a, b) / 256 == a && FromBe16(a, b) % 256 == b
  {
  }

  /** The option list `raw` was written from has exactly these options besides padding. */
  ghost predicate Says(raw: Bytes, told: seq<EdnsOption>) {
    exists l :: Writable(l) && AllOnWire(l) == raw && Telling(l) == told
  }

  lemma SaysIs(raw: Bytes, told: seq<EdnsOption>)
    ensures Says(raw, told) <==> Options(raw) == Some(told)
  {
    hide AllOnWire, Telling, Options;
    if Options(raw) == Some(told) {
      var l := OptionsComplete(raw);
      OptionsRoundTrip(l);
    }
    if Says(raw, told) {
      var l :| Writable(l) && AllOnWire(l) == raw && Telling(l) == told;
      OptionsRoundTrip(l);
    }
  }

  // ------------------------------------------------------------------ the OPT record

  /** The TTL field of an OPT record: extended code, version, DO bit and the rest (section 6.1.3 of RFC 6891). */
  predicate Fields(ttl: u32, code: nat, version: nat, dnssecOk: nat, rest: nat) {
    && version < 256 && dnssecOk < 2 && rest < 0x8000
    && ttl == code * 0x100_0000 + version * 0x1_0000 + dnssecOk * 0x8000 + rest
  }

  /** Version and DO bit agree. */
  ghost predicate SameFields(a: u32, b: u32) {
    exists version: nat, dnssecOk: nat, c: nat, d: nat, x: nat, y: nat :: Fields(a, c, version, dnssecOk, x) && Fields(b, d, version, dnssecOk, y)
  }

  lemma FieldsAre(ttl: u32)
    ensures Fields(ttl, ttl / 0x100_0000, ttl / 0x1_0000 % 0x100, ttl / 0x8000 % 2, ttl % 0x8000)
    ensures forall c: nat, v: nat, d: nat, z: nat :: Fields(ttl, c, v, d, z) ==> v == ttl / 0x1_0000 % 0x100 && d == ttl / 0x8000 % 2
  {
    hide Fields;
    OwnFields(ttl);
    forall c: nat, v: nat, d: nat, z: nat | Fields(ttl, c, v, d, z)
      ensures v == ttl / 0x1_0000 % 0x100 && d == ttl / 0x8000 % 2
    {
      FieldsRead(ttl, c, v, d, z);
    }
  }

  lemma OwnFields(ttl: u32)
    ensures Fields(ttl, ttl / 0x100_0000, ttl / 0x1_0000 % 0x100, ttl / 0x8000 % 2, ttl % 0x8000)
  {
  }

  lemma FieldsRead(ttl: u32, c: nat, v: nat, d: nat, z: nat)
    requires Fields(ttl, c, v, d, z)
    ensures v == ttl / 0x1_0000 % 0x100 && d == ttl / 0x8000 % 2
  {
    assert ttl / 0x8000 == (c * 256 + v) * 2 + d;
    assert ttl / 0x1_0000 == c * 256 + v;
  }

  lemma SameFieldsIs(a: u32, b: u32)
    ensures SameFields(a, b) <==> a / 0x1_0000 % 0x100 == b / 0x1_0000 % 0x100 && a / 0x8000 % 2 == b / 0x8000 % 2
  {
    hide Fields;
    FieldsAre(a);
    FieldsAre(b);
  }

  ghost predicate SameOptions(a: Option<Bytes>, b: Option<Bytes>) {
    a.Some? && b.Some? && exists told :: Says(a.value, told) && Says(b.value, told)
  }

  // ------------------------------------------------------------------ requests

  /** Everything that can change the answer agrees. */
  ghost predicate SameRequest(a: Request, b: Request)
    requires |a.questions| == 1 && |b.questions| == 1
  {
    && a.header.recursionDesired == b.header.recursionDesired && a.header.authenticData == b.header.authenticData
    && a.header.checkingDisabled == b.header.checkingDisabled
    && SameName(a.questions[0].name, b.questions[0].name) && a.questions[0].qtype == b.questions[0].qtype && a.questions[0].qclass == b.questions[0].qclass
    && |a.additionals| == |b.additionals|
    && forall i :: 0 <= i < |a.additionals| ==>
         && a.additionals[i].class_ == b.additionals[i].class_ && SameFields(a.additionals[i].ttl, b.additionals[i].ttl)
         && SameOptions(a.additionals[i].raw, b.additionals[i].raw)
  }

  lemma EdnsAgree(a: Record, b: Record)
    requires EdnsOf(a).Some? && EdnsOf(b).Some?
    ensures EdnsOf(a) == EdnsOf(b) <==> a.class_ == b.class_ && SameFields(a.ttl, b.ttl) && SameOptions(a.raw, b.raw)
  {
    hide Options, Says, SameFields;
    SameFieldsIs(a.ttl, b.ttl);
    var x, y := Options(a.raw.value).value, Options(b.raw.value).value;
    SaysIs(a.raw.value, x);
    SaysIs(b.raw.value, x);
    forall told | Says(a.raw.value, told) && Says(b.raw.value, told)
      ensures x == y
    {
      SaysIs(a.raw.value, told);
      SaysIs(b.raw.value, told);
    }
  }

  lemma MeaningsAgree(a: Request, b: Request)
    requires MeaningOf(a).Some? && MeaningOf(b).Some?
    ensures MeaningOf(a) == MeaningOf(b) <==> SameRequest(a, b)
  {
    hide EdnsOf, SameName, SameFields, SameOptions, LowerName;
    SameNameIs(a.questions[0].name, b.questions[0].name);
    if a.additionals != [] && b.additionals != [] {
      EdnsAgree(a.additionals[0], b.additionals[0]);
    }
  }

  ghost predicate NamesValid(r: Request) {
    forall i :: 0 <= i < |r.questions| ==> ValidName(r.questions[i].name)
  }

  /** Two requests with keys have the same key exactly when everything that can change the answer agrees. */
  lemma KeyLaw(a: Request, b: Request)
    requires NamesValid(a) && NamesValid(b) && KeyOf(a).Some? && KeyOf(b).Some?
    ensures |a.questions| == 1 && |b.questions| == 1 && (KeyOf(a) == KeyOf(b) <==> SameRequest(a, b))
  {
    hide SameRequest, KeyBytes, EdnsOf;
    MeaningsAreSized(a);
    MeaningsAreSized(b);
    KeysAreCanonical(MeaningOf(a).value, MeaningOf(b).value);
    MeaningsAgree(a, b);
  }

  // ------------------------------------------------------------------ which requests have a key

  /** Bytes of a name on the wire. */
  function NameSize(n: Labels): nat {
    if n == [] then 1 else 1 + |n[0]| + NameSize(n[1..])
  }

  function OptionsSize(l: seq<EdnsOption>): nat {
    if l == [] then 0 else 4 + |l[0].data| + OptionsSize(l[1..])
  }

  /** A plain query: one question, nothing else, and no header bit that a query does not set. */
  predicate PlainQuery(r: Request) {
    && !r.header.response && r.header.opcode == 0 && !r.header.authoritative && !r.header.truncated && !r.header.recursionAvailable && r.header.rcode == 0
    && |r.questions| == 1 && r.answers == 0 && r.authorities == 0
  }

  /** At most an OPT record of the root with a well-formed option list, and few enough bytes in all. */
  ghost predicate Keyable(r: Request) {
    && PlainQuery(r)
    && match |r.additionals|
       case 0 => 8 + NameSize(r.questions[0].name) <= 4096
       case 1 =>
         var o := r.additionals[0];
         && o.rtype == 41 && o.name == [] && o.raw.Some?
         && exists told :: Says(o.raw.value, told) && |told| <= 0xFFFF && 14 + NameSize(r.questions[0].name) + OptionsSize(told) <= 4096
       case _ => false
  }

  lemma {:induction false} NameSizeIs(n: Labels)
    requires forall i :: 0 <= i < |n| ==> 0 < |n[i]| <= 63
    ensures |NameBytes(n)| == NameSize(n)
  {
    if n != [] {
      NameSizeIs(n[1..]);
    }
  }

  lemma {:induction false} LowerSize(n: Labels)
    ensures NameSize(LowerName(n)) == NameSize(n)
  {
    if n != [] {
      LowerSize(n[1..]);
      assert LowerName(n)[1..] == LowerName(n[1..]);
    }
  }

  lemma {:induction false} OptionsSizeIs(l: seq<EdnsOption>)
    requires forall i :: 0 <= i < |l| ==> |l[i].data| <= U16_MAX
    ensures |OptionsBytes(l)| == OptionsSize(l)
  {
    if l != [] {
      OptionsSizeIs(l[1..]);
    }
  }

  lemma KeyableLaw(r: Request)
    requires NamesValid(r)
    ensures KeyOf(r).Some? <==> Keyable(r)
  {
    hide Options, NameBytes, OptionsBytes, Says, LowerName, Dns.WireLength, NameSize, OptionsSize;
    if Cacheable(r) {
      var name := r.questions[0].name;
      LowerKeepsLengths(name);
      NameSizeIs(LowerName(name));
      LowerSize(name);
      if r.additionals != [] && r.additionals[0].raw.Some? {
        var raw := r.additionals[0].raw.value;
        forall told
          ensures Says(raw, told) <==> Options(raw) == Some(told)
        {
          SaysIs(raw, told);
        }
        if Options(raw).Some? {
          OptionsSizeIs(Options(raw).value);
        }
      }
    }
  }
}
