/** DHCPv6 messages: nested option parsing, the identity-association checks, and encoded sizes. */
module Dhcp6Wire {
  import opened Basics
  import opened IaStore

  const SOLICIT: byte := 1
  const ADVERTISE: byte := 2
  const REQUEST: byte := 3
  const RENEW: byte := 5
  const REPLY: byte := 7
  const RELEASE: byte := 8
  const INFORMATION_REQUEST: byte := 11

  const OPT_CLIENT_ID: u16 := 1
  const OPT_SERVER_ID: u16 := 2
  const OPT_IA_NA: u16 := 3
  const OPT_IA_TA: u16 := 4
  const OPT_IA_ADDR: u16 := 5
  const OPT_STATUS_CODE: u16 := 13
  const OPT_DNS_SERVERS: u16 := 23
  const OPT_IA_PD: u16 := 25

  const STATUS_SUCCESS: u16 := 0
  const STATUS_NO_ADDRS_AVAIL: u16 := 2
  const STATUS_NO_BINDING: u16 := 3

  const MIN_DUID_LEN := 3
  const MAX_STANDARD_IPV6_UDP_PAYLOAD := 65527
  const IA_NA_ADDRESS_RESPONSE_WIRE_LEN := 44

  type Options = seq<(u16, Bytes)>

  datatype Message = Message(msgType: byte, txid: Bytes, options: Options)

  datatype Config = Config(serverDuid: Bytes, dns: seq<u128>, leaseSecs: u32)

  predicate ValidDuid(duid: Bytes) {
    MIN_DUID_LEN <= |duid| <= MAX_DUID_LEN
  }

  // ------------------------------------------------------------------ words

  /** Big-endian value of a byte string. */
  function BeValue(b: Bytes): nat {
    if b == [] then 0 else BeValue(b[..|b| - 1]) * 0x100 + b[|b| - 1]
  }

  function Power256(n: nat): nat {
    if n == 0 then 1 else 0x100 * Power256(n - 1)
  }

  lemma {:induction false} BeValueBound(b: Bytes)
    ensures BeValue(b) < Power256(|b|)
  {
    if b != [] {
      BeValueBound(b[..|b| - 1]);
    }
  }

  function Address(b: Bytes): (ip: u128)
    requires |b| == 16
  {
    BeValueBound(b);
    Power256Of16();
    BeValue(b)
  }

  lemma Power256Of16()
    ensures Power256(16) == 0x1_0000_0000_0000_0000_0000_0000_0000_0000
  {
    assert Power256(4) == 0x100 * 0x100 * 0x100 * 0x100;
    assert Power256(8) == 0x100 * 0x100 * 0x100 * 0x100 * Power256(4);
    assert Power256(12) == 0x100 * 0x100 * 0x100 * 0x100 * Power256(8);
  }

  /** `n` big-endian bytes of `x`. */
  function ToBe(x: nat, n: nat): (r: Bytes)
    ensures |r| == n
  {
    if n == 0 then [] else ToBe(x / 0x100, n - 1) + [x % 0x100]
  }

  /** Octets and address are inverse. */
  lemma {:induction false} ToBeValue(x: nat, n: nat)
    requires x < Power256(n)
    ensures BeValue(ToBe(x, n)) == x
  {
    if n > 0 {
      ToBeValue(x / 0x100, n - 1);
      assert ToBe(x, n)[..n - 1] == ToBe(x / 0x100, n - 1);
    }
  }

  // ------------------------------------------------------------------ nested options

  /** The options of a byte string, or nothing if a length overruns it. */
  function Split(b: Bytes): Option<Options>
    decreases |b|
  {
    if b == [] then Some([])
    else if |b| < 4 then None
    else
      var end := 4 + FromBe16(b[2], b[3]);
      if end > |b| then None
      else
        var rest := Split(b[end..]);
        if rest.None? then None else Some([(FromBe16(b[0], b[1]), b[4..end])] + rest.value)
  }

  predicate ValidIaAddr(data: Bytes) {
    |data| >= 24 && Split(data[24..]).Some?
  }

  predicate ValidIaOptions(o: Options) {
    forall i :: 0 <= i < |o| && o[i].0 == OPT_IA_ADDR ==> ValidIaAddr(o[i].1)
  }

  datatype IaNa = IaNa(iaid: Iaid, options: Options)

  /** A well-formed identity association: header, options, every address option complete. */
  function IaNaOf(data: Bytes): Option<IaNa> {
    if |data| < 12 then None
    else
      var o := Split(data[12..]);
      if o.Some? && ValidIaOptions(o.value) then Some(IaNa(FromBe32(data[..4]), o.value)) else None
  }

  /** The addresses an association names. */
  ghost predicate Lists(ia: IaNa, ip: u128) {
    exists i :: 0 <= i < |ia.options| && ia.options[i].0 == OPT_IA_ADDR && |ia.options[i].1| >= 24
             && Address(ia.options[i].1[..16]) == ip
  }

  method ValidNestedOptions(b: Bytes) returns (ok: bool)
    ensures ok <==> Split(b).Some?
  {
    var rest := b;
    while rest != []
      invariant Split(b).Some? <==> Split(rest).Some?
      decreases |rest|
    {
      if |rest| < 4 {
        return false;
      }
      var end := 4 + FromBe16(rest[2], rest[3]);
      if end > |rest| {
        return false;
      }
      rest := rest[end..];
    }
    return true;
  }

  /** One option in front of well-formed or malformed rest. */
  lemma SplitFirst(b: Bytes, end: nat)
    requires |b| >= 4 && end == 4 + FromBe16(b[2], b[3]) && end <= |b|
    ensures Split(b) == if Split(b[end..]).None? then None
                        else Some([(FromBe16(b[0], b[1]), b[4..end])] + Split(b[end..]).value)
  {
  }

  /** The options of an association are those `seen` followed by those of `rest`. */
  ghost predicate Scanned(o: Option<Options>, seen: Options, rest: Bytes) {
    && ValidIaOptions(seen)
    && o == (if Split(rest).Some? then Some(seen + Split(rest).value) else None)
  }

  lemma ScanStep(o: Option<Options>, seen: Options, rest: Bytes, end: nat)
    requires Scanned(o, seen, rest)
    requires |rest| >= 4 && end == 4 + FromBe16(rest[2], rest[3]) && end <= |rest|
    ensures
      var e := (FromBe16(rest[0], rest[1]), rest[4..end]);
      && (e.0 != OPT_IA_ADDR || ValidIaAddr(e.1) ==> Scanned(o, seen + [e], rest[end..]))
      && (e.0 == OPT_IA_ADDR && !ValidIaAddr(e.1) ==> o.None? || !ValidIaOptions(o.value))
  {
    hide Split, ValidIaAddr, ValidIaOptions;
    var e := (FromBe16(rest[0], rest[1]), rest[4..end]);
    SplitFirst(rest, end);
    ValidSnoc(seen, e);
    if Split(rest[end..]).Some? {
      var tail := Split(rest[end..]).value;
      assert seen + ([e] + tail) == (seen + [e]) + tail;
      ValidPrefix(seen + [e], tail);
    }
  }

  lemma ValidSnoc(seen: Options, e: (u16, Bytes))
    requires ValidIaOptions(seen)
    ensures ValidIaOptions(seen + [e]) <==> e.0 != OPT_IA_ADDR || ValidIaAddr(e.1)
  {
    hide ValidIaAddr;
    assert (seen + [e])[|seen|] == e;
  }

  lemma ValidPrefix(a: Options, b: Options)
    ensures ValidIaOptions(a + b) ==> ValidIaOptions(a)
  {
    hide ValidIaAddr;
    assert forall i :: 0 <= i < |a| ==> (a + b)[i] == a[i];
  }

  /** Validates an association in one pass over its options. */
  method ParseIaNa(data: Bytes) returns (r: Option<IaNa>)
    ensures r == IaNaOf(data)
  {
    hide ValidIaOptions;
    if |data| < 12 {
      return None;
    }
    var rest, seen := data[12..], [];
    ScanStart(data[12..]);
    while rest != []
      invariant Scanned(Split(data[12..]), seen, rest)
      decreases |rest|
    {
      if |rest| < 4 {
        return None;
      }
      var end := 4 + FromBe16(rest[2], rest[3]);
      if end > |rest| {
        return None;
      }
      ScanStep(Split(data[12..]), seen, rest, end);
      var code, value := FromBe16(rest[0], rest[1]), rest[4..end];
      var ok := true;
      if code == OPT_IA_ADDR {
        ok := ValidAddressOption(value);
      }
      if !ok {
        return None;
      }
      seen, rest := seen + [(code, value)], rest[end..];
    }
    assert seen + [] == seen;
    return Some(IaNa(FromBe32(data[..4]), seen));
  }

  lemma ScanStart(b: Bytes)
    ensures Scanned(Split(b), [], b)
  {
    if Split(b).Some? {
      assert [] + Split(b).value == Split(b).value;
    }
  }

  method ValidAddressOption(value: Bytes) returns (ok: bool)
    ensures ok <==> ValidIaAddr(value)
  {
    ok := false;
    if |value| >= 24 {
      ok := ValidNestedOptions(value[24..]);
    }
  }

  method ContainsAddress(ia: IaNa, expected: u128) returns (found: bool)
    requires ValidIaOptions(ia.options)
    ensures found <==> Lists(ia, expected)
  {
    for i := 0 to |ia.options|
      invariant forall j :: 0 <= j < i && ia.options[j].0 == OPT_IA_ADDR ==> Address(ia.options[j].1[..16]) != expected
    {
      if ia.options[i].0 == OPT_IA_ADDR && Address(ia.options[i].1[..16]) == expected {
        return true;
      }
    }
    return false;
  }

  // ------------------------------------------------------------------ message options

  function Pick(o: Options, code: u16): seq<Bytes> {
    if o == [] then [] else (if o[0].0 == code then [o[0].1] else []) + Pick(o[1..], code)
  }

  /** The option's value if it occurs exactly once. */
  function Unique(o: Options, code: u16): Option<Bytes> {
    var values := Pick(o, code);
    if |values| == 1 then Some(values[0]) else None
  }

  /** All associations are well formed and name different IAIDs. */
  ghost predicate WellFormedIas(ias: seq<Bytes>) {
    && (forall i :: 0 <= i < |ias| ==> IaNaOf(ias[i]).Some?)
    && (forall i, j :: 0 <= i < j < |ias| ==> IaNaOf(ias[i]).value.iaid != IaNaOf(ias[j]).value.iaid)
  }

  ghost predicate SeenExactly(ias: seq<Bytes>, seen: set<Iaid>)
    requires forall i :: 0 <= i < |ias| ==> IaNaOf(ias[i]).Some?
  {
    forall id :: id in seen <==> exists i :: 0 <= i < |ias| && IaNaOf(ias[i]).value.iaid == id
  }

  /** Counts the associations of a request, refusing malformed ones, repeated IAIDs and more than fit the reply. */
  method ValidateIaNas(ias: seq<Bytes>, maxCount: nat) returns (r: Option<nat>)
    ensures r.Some? <==> WellFormedIas(ias) && 0 < |ias| <= maxCount
    ensures r.Some? ==> r.value == |ias|
  {
    hide IaNaOf;
    var seen := {};
    for n := 0 to |ias|
      invariant WellFormedIas(ias[..n]) && n <= maxCount
      invariant SeenExactly(ias[..n], seen)
    {
      var ia := ParseIaNa(ias[n]);
      if ia.None? || n + 1 > maxCount {
        return None;
      }
      if ia.value.iaid in seen {
        ghost var i :| 0 <= i < n && IaNaOf(ias[..n][i]).value.iaid == ia.value.iaid;
        assert ias[..n][i] == ias[i];
        return None;
      }
      SeenGrows(ias[..n], ias[n], seen);
      assert ias[..n] + [ias[n]] == ias[..n + 1];
      seen := seen + {ia.value.iaid};
    }
    assert ias[..|ias|] == ias;
    if |ias| > 0 {
      return Some(|ias|);
    }
    return None;
  }

  lemma SeenGrows(before: seq<Bytes>, data: Bytes, seen: set<Iaid>)
    requires WellFormedIas(before) && IaNaOf(data).Some? && SeenExactly(before, seen)
    requires IaNaOf(data).value.iaid !in seen
    ensures WellFormedIas(before + [data]) && SeenExactly(before + [data], seen + {IaNaOf(data).value.iaid})
  {
    var after := before + [data];
    forall i | 0 <= i < |before|
      ensures IaNaOf(before[i]).value.iaid in seen
    {
    }
    assert after[|before|] == data;
    forall id
      ensures id in seen + {IaNaOf(data).value.iaid} <==> exists i :: 0 <= i < |after| && IaNaOf(after[i]).value.iaid == id
    {
      if id in seen {
        var i :| 0 <= i < |before| && IaNaOf(before[i]).value.iaid == id;
        assert after[i] == before[i];
      }
    }
  }

  // ------------------------------------------------------------------ encoding

  function EncodeOption(e: (u16, Bytes)): Bytes {
    if |e.1| > U16_MAX then [] else ToBe16(e.0) + ToBe16(|e.1|) + e.1
  }

  function EncodeOptions(o: Options): Bytes {
    if o == [] then [] else EncodeOption(o[0]) + EncodeOptions(o[1..])
  }

  function Encode(m: Message): Bytes {
    [m.msgType] + m.txid + EncodeOptions(m.options)
  }

  lemma {:induction false} EncodedAppend(a: Options, b: Options)
    ensures EncodeOptions(a + b) == EncodeOptions(a) + EncodeOptions(b)
  {
    hide EncodeOption;
    if a == [] {
      assert a + b == b;
    } else {
      EncodedAppend(a[1..], b);
      assert (a + b)[1..] == a[1..] + b && (a + b)[0] == a[0];
      var x, y, z := EncodeOption(a[0]), EncodeOptions(a[1..]), EncodeOptions(b);
      assert EncodeOptions(a) == x + y && EncodeOptions(a + b) == x + (y + z);
      assert (x + y) + z == x + (y + z);
    }
  }
}
