/**
 One DHCPv6 exchange (sections 18.3.1, 18.3.2, 18.3.4 and 18.3.7 of RFC 8415): every identity
 association of a request is answered against the pool, and the reply fits one UDP datagram.
 */
module Dhcp6Handle {
  import opened Basics
  import opened IaStore
  import opened Lease6
  import opened Dhcp6Wire

  // ------------------------------------------------------------------ reply options

  function RenewalTimers(lease: u32): (t: (u32, u32))
    ensures lease == 0xFFFF_FFFF ==> t == (lease, lease)
    ensures lease < 0xFFFF_FFFF ==> 2 * t.0 <= lease < 2 * t.0 + 2 && 5 * t.1 <= 4 * lease < 5 * t.1 + 5
  {
    if lease == U32_MAX then (U32_MAX, U32_MAX) else (lease / 2, lease * 4 / 5)
  }

  function IaAddrOption(ip: u128, preferred: u32, valid: u32): (r: Bytes)
    ensures |r| == 28
  {
    ToBe16(OPT_IA_ADDR) + ToBe16(24) + ToBe(ip, 16) + ToBe32(preferred) + ToBe32(valid)
  }

  function IaNaOption(iaid: Iaid, t1: u32, t2: u32, ip: u128, lease: u32): (r: (u16, Bytes))
    ensures |r.1| == 40
  {
    (OPT_IA_NA, ToBe32(iaid) + ToBe32(t1) + ToBe32(t2) + IaAddrOption(ip, lease, lease))
  }

  function IaNaStatusOption(iaid: Iaid, code: u16): (r: (u16, Bytes))
    ensures |r.1| == 18
  {
    (OPT_IA_NA, ToBe32(iaid) + Zeros(8) + ToBe16(OPT_STATUS_CODE) + ToBe16(2) + ToBe16(code))
  }

  function StatusOption(code: u16): (u16, Bytes) {
    (OPT_STATUS_CODE, ToBe16(code))
  }

  function DnsBytes(dns: seq<u128>): (r: Bytes)
    ensures |r| == 16 * |dns|
  {
    if dns == [] then [] else ToBe(dns[0], 16) + DnsBytes(dns[1..])
  }

  /** What one association of a request got: an address with its expiry, a status, or no option at all. */
  datatype Outcome = Assigned(ip: u128, until: u64) | Refused(code: u16) | Silent

  function Render(iaid: Iaid, o: Outcome, cfg: Config): (r: Options)
    ensures |r| <= 1 && |EncodeOptions(r)| <= IA_NA_ADDRESS_RESPONSE_WIRE_LEN
  {
    match o
    case Assigned(ip, _) =>
      var t := RenewalTimers(cfg.leaseSecs);
      assert EncodeOptions([]) == [];
      [IaNaOption(iaid, t.0, t.1, ip, cfg.leaseSecs)]
    case Refused(code) =>
      assert EncodeOptions([]) == [];
      [IaNaStatusOption(iaid, code)]
    case Silent => []
  }

  function RenderAll(ias: seq<Bytes>, log: seq<Outcome>, cfg: Config): Options
    requires |log| <= |ias| && WellFormedIas(ias)
  {
    if log == [] then [] else
      var n := |log| - 1;
      RenderAll(ias, log[..n], cfg) + Render(IaNaOf(ias[n]).value.iaid, log[n], cfg)
  }

  function Head(client: Bytes, cfg: Config): Options {
    [(OPT_CLIENT_ID, client), (OPT_SERVER_ID, cfg.serverDuid)]
  }

  function Tail(msgType: byte, cfg: Config): Options {
    if msgType == RELEASE then [StatusOption(STATUS_SUCCESS)]
    else if cfg.dns != [] then [(OPT_DNS_SERVERS, DnsBytes(cfg.dns))]
    else []
  }

  // ------------------------------------------------------------------ size

  /** How many address answers the fixed part of the reply leaves room for. */
  function ResponseIaCapacity(clientLen: nat, cfg: Config, msgType: byte): Option<nat> {
    if !ValidDuid(cfg.serverDuid) then None
    else
      var ids := 4 + (4 + clientLen) + (4 + |cfg.serverDuid|);
      if msgType != RELEASE && cfg.dns != [] && |cfg.dns| * 16 > U16_MAX then None
      else
        var fixed := ids + (if msgType == RELEASE then 4 + 2 else if cfg.dns != [] then 4 + |cfg.dns| * 16 else 0);
        if fixed > MAX_STANDARD_IPV6_UDP_PAYLOAD then None
        else Some((MAX_STANDARD_IPV6_UDP_PAYLOAD - fixed) / IA_NA_ADDRESS_RESPONSE_WIRE_LEN)
  }

  lemma {:induction false} RenderAllSize(ias: seq<Bytes>, log: seq<Outcome>, cfg: Config)
    requires |log| <= |ias| && WellFormedIas(ias)
    ensures |EncodeOptions(RenderAll(ias, log, cfg))| <= |log| * IA_NA_ADDRESS_RESPONSE_WIRE_LEN
  {
    hide EncodeOptions;
    if log == [] {
      EncodedEmpty();
    } else {
      var n := |log| - 1;
      RenderAllSize(ias, log[..n], cfg);
      EncodedAppend(RenderAll(ias, log[..n], cfg), Render(IaNaOf(ias[n]).value.iaid, log[n], cfg));
    }
  }

  lemma EncodedEmpty()
    ensures EncodeOptions([]) == []
  {
  }

  lemma EncodedPair(a: (u16, Bytes), b: (u16, Bytes))
    ensures EncodeOptions([a, b]) == EncodeOption(a) + EncodeOption(b)
    ensures EncodeOptions([a]) == EncodeOption(a)
  {
    EncodedEmpty();
    assert [a, b][1..] == [b] && [b][1..] == [] && [a][1..] == [];
    assert EncodeOptions([b]) == EncodeOption(b);
  }

  /** The capacity computed before touching the pool makes every reply fit one datagram. */
  lemma ReplyFits(txid: Bytes, msgType: byte, responseType: byte, client: Bytes, cfg: Config, ias: seq<Bytes>, log: seq<Outcome>)
    requires |txid| == 3 && ValidDuid(client) && WellFormedIas(ias) && |log| == |ias|
    requires ResponseIaCapacity(|client|, cfg, msgType).Some? && |ias| <= ResponseIaCapacity(|client|, cfg, msgType).value
    ensures |Encode(Message(responseType, txid, Head(client, cfg) + RenderAll(ias, log, cfg) + Tail(msgType, cfg)))|
         <= MAX_STANDARD_IPV6_UDP_PAYLOAD
  {
    hide WellFormedIas, EncodeOptions, RenderAll;
    var all := RenderAll(ias, log, cfg);
    RenderAllSize(ias, log, cfg);
    EncodedAppend(Head(client, cfg) + all, Tail(msgType, cfg));
    EncodedAppend(Head(client, cfg), all);
    EncodedPair((OPT_CLIENT_ID, client), (OPT_SERVER_ID, cfg.serverDuid));
    EncodedPair(StatusOption(STATUS_SUCCESS), StatusOption(STATUS_SUCCESS));
    EncodedPair((OPT_DNS_SERVERS, DnsBytes(cfg.dns)), StatusOption(STATUS_SUCCESS));
    EncodedEmpty();
  }

  // ------------------------------------------------------------------ what a client reads in the reply

  /** The reader of options finds one option that fills its input. */
  lemma SplitOne(code: u16, value: Bytes)
    requires |value| <= U16_MAX
    ensures Split(ToBe16(code) + ToBe16(|value|) + value) == Some([(code, value)])
  {
    hide Split, ToBe16, FromBe16;
    var c, n := ToBe16(code), ToBe16(|value|);
    var b := c + n + value;
    Be16RoundTrip(code);
    Be16RoundTrip(|value|);
    Headed(c, n, value);
    SplitFirst(b, 4 + |value|);
    SplitNone();
    assert [(code, value)] + [] == [(code, value)];
  }

  lemma SplitNone()
    ensures Split([]) == Some([])
  {
  }

  lemma Headed(c: Bytes, n: Bytes, value: Bytes)
    requires |c| == 2 && |n| == 2
    ensures
      var b := c + n + value;
      && b[0] == c[0] && b[1] == c[1] && b[2] == n[0] && b[3] == n[1]
      && b[4..4 + |value|] == value && b[4 + |value|..] == []
  {
  }

  /** The fields of an address option. */
  predicate Grants(a: Bytes, ip: u128, preferred: u32, valid: u32) {
    |a| == 24 && Address(a[..16]) == ip && FromBe32(a[16..20]) == preferred && FromBe32(a[20..24]) == valid
  }

  lemma AddressReads(ip: u128, preferred: u32, valid: u32)
    ensures Grants(ToBe(ip, 16) + ToBe32(preferred) + ToBe32(valid), ip, preferred, valid)
  {
    hide ToBe, ToBe32, FromBe32;
    var a := ToBe(ip, 16) + ToBe32(preferred) + ToBe32(valid);
    assert a[..16] == ToBe(ip, 16) && a[16..20] == ToBe32(preferred) && a[20..24] == ToBe32(valid);
    Power256Of16();
    ToBeValue(ip, 16);
    Be32RoundTrip(preferred);
    Be32RoundTrip(valid);
  }

  /** What an association option says: its IAID, the two renewal times, and one nested option. */
  predicate Reads(data: Bytes, iaid: Iaid, t1: u32, t2: u32, code: u16, value: Bytes) {
    && |data| >= 12 && FromBe32(data[4..8]) == t1 && FromBe32(data[8..12]) == t2
    && IaNaOf(data) == Some(IaNa(iaid, [(code, value)]))
  }

  lemma NestedReads(iaid: Iaid, t1: u32, t2: u32, code: u16, value: Bytes)
    requires |value| <= U16_MAX && (code == 5 ==> |value| == 24)
    ensures Reads(ToBe32(iaid) + ToBe32(t1) + ToBe32(t2) + (ToBe16(code) + ToBe16(|value|) + value), iaid, t1, t2, code, value)
  {
    hide ToBe32, FromBe32, Split;
    var rest := ToBe16(code) + ToBe16(|value|) + value;
    var data := ToBe32(iaid) + ToBe32(t1) + ToBe32(t2) + rest;
    assert data[..4] == ToBe32(iaid) && data[4..8] == ToBe32(t1) && data[8..12] == ToBe32(t2) && data[12..] == rest;
    Be32RoundTrip(iaid);
    Be32RoundTrip(t1);
    Be32RoundTrip(t2);
    SplitOne(code, value);
    if code == 5 {
      NothingNested(value);
    }
  }

  lemma NothingNested(value: Bytes)
    requires |value| == 24
    ensures ValidIaAddr(value)
  {
    assert value[24..] == [];
  }

  /** A client reads exactly the outcome: the address for the lease time with renewal at a half and four fifths of it, or the status. */
  lemma RenderReads(iaid: Iaid, o: Outcome, cfg: Config)
    ensures
      var r := Render(iaid, o, cfg);
      match o
      case Assigned(ip, _) =>
        && |r| == 1 && r[0].0 == 3
        && var t, a := RenewalTimers(cfg.leaseSecs), ToBe(ip, 16) + ToBe32(cfg.leaseSecs) + ToBe32(cfg.leaseSecs);
           Reads(r[0].1, iaid, t.0, t.1, 5, a) && Grants(a, ip, cfg.leaseSecs, cfg.leaseSecs)
      case Refused(code) => |r| == 1 && r[0].0 == 3 && Reads(r[0].1, iaid, 0, 0, 13, ToBe16(code))
      case Silent => r == []
  {
    hide ToBe, ToBe32, ToBe16, Reads, Grants, EncodeOptions;
    match o {
      case Assigned(ip, _) =>
        var t, a := RenewalTimers(cfg.leaseSecs), ToBe(ip, 16) + ToBe32(cfg.leaseSecs) + ToBe32(cfg.leaseSecs);
        AddressReads(ip, cfg.leaseSecs, cfg.leaseSecs);
        NestedReads(iaid, t.0, t.1, 5, a);
        assert ToBe16(5) + ToBe16(24) + a == IaAddrOption(ip, cfg.leaseSecs, cfg.leaseSecs);
      case Refused(code) =>
        NestedReads(iaid, 0, 0, 13, ToBe16(code));
        ZeroTimers();
        assert ToBe32(iaid) + ToBe32(0) + ToBe32(0) + (ToBe16(13) + ToBe16(2) + ToBe16(code))
            == ToBe32(iaid) + (ToBe32(0) + ToBe32(0)) + ToBe16(13) + ToBe16(2) + ToBe16(code);
      case Silent =>
    }
  }

  lemma ZeroTimers()
    ensures ToBe32(0) + ToBe32(0) == Zeros(8)
  {
  }

  lemma {:induction false} PickAppend(a: Options, b: Options, code: u16)
    ensures Pick(a + b, code) == Pick(a, code) + Pick(b, code)
  {
    if a == [] {
      assert a + b == b;
    } else {
      PickAppend(a[1..], b, code);
      assert (a + b)[1..] == a[1..] + b && (a + b)[0] == a[0];
      var first := if a[0].0 == code then [a[0].1] else [];
      assert Pick(a, code) == first + Pick(a[1..], code);
      assert first + (Pick(a[1..], code) + Pick(b, code)) == (first + Pick(a[1..], code)) + Pick(b, code);
    }
  }

  /** The answers to the associations are all of one kind of option. */
  lemma {:induction false} PickRendered(ias: seq<Bytes>, log: seq<Outcome>, cfg: Config, code: u16)
    requires |log| <= |ias| && WellFormedIas(ias) && code != 3
    ensures Pick(RenderAll(ias, log, cfg), code) == []
  {
    hide EncodeOptions, IaNaOf, WellFormedIas, IaNaOption, IaNaStatusOption;
    if log != [] {
      var n := |log| - 1;
      WellFormedAt(ias, n);
      PickRendered(ias, log[..n], cfg, code);
      var r := Render(IaNaOf(ias[n]).value.iaid, log[n], cfg);
      PickAppend(RenderAll(ias, log[..n], cfg), r, code);
      RenderReads(IaNaOf(ias[n]).value.iaid, log[n], cfg);
      PickOne(r, code);
    }
  }

  lemma PickOne(r: Options, code: u16)
    requires |r| <= 1
    ensures Pick(r, code) == if r != [] && r[0].0 == code then [r[0].1] else []
  {
  }

  /** The reply names the client and the server once, and carries the DNS servers, or the success of a release. */
  lemma ReplyReads(msgType: byte, client: Bytes, cfg: Config, ias: seq<Bytes>, log: seq<Outcome>)
    requires |log| <= |ias| && WellFormedIas(ias)
    ensures
      var o := Head(client, cfg) + RenderAll(ias, log, cfg) + Tail(msgType, cfg);
      && Unique(o, 1) == Some(client) && Unique(o, 2) == Some(cfg.serverDuid)
      && Pick(o, 13) == (if msgType == 8 then [[0, 0]] else [])
      && Pick(o, 23) == (if msgType != 8 && cfg.dns != [] then [DnsBytes(cfg.dns)] else [])
  {
    hide RenderAll, WellFormedIas, DnsBytes;
    var head, all, tail := Head(client, cfg), RenderAll(ias, log, cfg), Tail(msgType, cfg);
    assert head == [(1, client)] + [(2, cfg.serverDuid)];
    forall code: u16 | code in {1, 2, 13, 23}
      ensures Pick(head + all + tail, code) == Pick([(1, client)], code) + Pick([(2, cfg.serverDuid)], code) + Pick(tail, code)
    {
      PickAppend(head + all, tail, code);
      PickAppend(head, all, code);
      PickAppend([(1, client)], [(2, cfg.serverDuid)], code);
      PickRendered(ias, log, cfg, code);
      assert Pick(head, code) + [] == Pick(head, code);
    }
    assert ToBe16(0) == [0, 0];
    assert 1 in {1, 2, 13, 23} && 2 in {1, 2, 13, 23} && 13 in {1, 2, 13, 23} && 23 in {1, 2, 13, 23};
    forall code: u16
      ensures Pick([(1, client)], code) == (if code == 1 then [client] else [])
      ensures Pick([(2, cfg.serverDuid)], code) == (if code == 2 then [cfg.serverDuid] else [])
      ensures Pick(tail, code) == if tail != [] && tail[0].0 == code then [tail[0].1] else []
    {
      PickOne([(1, client)], code);
      PickOne([(2, cfg.serverDuid)], code);
      PickOne(tail, code);
    }
  }

  /** Each server of the list is its sixteen octets, in order. */
  lemma {:induction false} DnsReads(dns: seq<u128>, i: nat)
    requires i < |dns|
    ensures Address(DnsBytes(dns)[16 * i..16 * i + 16]) == dns[i]
  {
    hide ToBe;
    var all, rest := DnsBytes(dns), DnsBytes(dns[1..]);
    if i == 0 {
      assert all[..16] == ToBe(dns[0], 16);
      Power256Of16();
      ToBeValue(dns[0], 16);
    } else {
      DnsReads(dns[1..], i - 1);
      assert all[16 * i..16 * i + 16] == rest[16 * (i - 1)..16 * (i - 1) + 16];
    }
  }

  // ------------------------------------------------------------------ requests without addresses

  /** The answer to a request for configuration only. */
  function InformationReply(req: Message, cfg: Config): Option<Message> {
    if exists i :: 0 <= i < |req.options| && req.options[i].0 in {OPT_IA_NA, OPT_IA_TA, OPT_IA_PD} then None
    else if Unique(req.options, OPT_SERVER_ID).Some? && Unique(req.options, OPT_SERVER_ID).value != cfg.serverDuid then None
    else
      var client := Unique(req.options, OPT_CLIENT_ID);
      if client.Some? && !ValidDuid(client.value) then None
      else
        var ids := (if client.Some? then [(OPT_CLIENT_ID, client.value)] else []) + [(OPT_SERVER_ID, cfg.serverDuid)];
        Some(Message(REPLY, req.txid, ids + (if cfg.dns != [] then [(OPT_DNS_SERVERS, DnsBytes(cfg.dns))] else [])))
  }

  /** Configuration is given to whoever asks for nothing else, names this server or none, and has a well-formed identifier or none. */
  lemma InformationLaw(req: Message, cfg: Config)
    ensures InformationReply(req, cfg).Some? <==>
      && (forall i :: 0 <= i < |req.options| ==> req.options[i].0 !in {3, 4, 25})
      && (Unique(req.options, 2).Some? ==> Unique(req.options, 2).value == cfg.serverDuid)
      && (Unique(req.options, 1).Some? ==> 3 <= |Unique(req.options, 1).value| <= 130)
    ensures InformationReply(req, cfg).Some? ==>
      var m := InformationReply(req, cfg).value;
      && m.msgType == 7 && m.txid == req.txid && Unique(m.options, 1) == Unique(req.options, 1) && Unique(m.options, 2) == Some(cfg.serverDuid)
      && Pick(m.options, 23) == if cfg.dns != [] then [DnsBytes(cfg.dns)] else []
  {
    hide DnsBytes, Pick, Unique;
    if InformationReply(req, cfg).Some? {
      InformationOptions(Unique(req.options, 1), cfg);
    }
  }

  lemma InformationOptions(client: Option<Bytes>, cfg: Config)
    ensures
      var ids := (if client.Some? then [(OPT_CLIENT_ID, client.value)] else []) + [(OPT_SERVER_ID, cfg.serverDuid)];
      var o := ids + (if cfg.dns != [] then [(OPT_DNS_SERVERS, DnsBytes(cfg.dns))] else []);
      Unique(o, 1) == client && Unique(o, 2) == Some(cfg.serverDuid) && Pick(o, 23) == if cfg.dns != [] then [DnsBytes(cfg.dns)] else []
  {
    hide DnsBytes, Pick;
    var a, b, c := if client.Some? then [(OPT_CLIENT_ID, client.value)] else [], [(OPT_SERVER_ID, cfg.serverDuid)],
                   if cfg.dns != [] then [(OPT_DNS_SERVERS, DnsBytes(cfg.dns))] else [];
    forall code: u16
      ensures Pick(a + b + c, code) == Pick(a, code) + Pick(b, code) + Pick(c, code)
      ensures Pick(b, code) == if code == 2 then [cfg.serverDuid] else []
      ensures Pick(a, code) == if client.Some? && code == 1 then [client.value] else []
      ensures Pick(c, code) == if cfg.dns != [] && code == 23 then [DnsBytes(cfg.dns)] else []
    {
      PickAppend(a + b, c, code);
      PickAppend(a, b, code);
      PickOne(a, code);
      PickOne(b, code);
      PickOne(c, code);
    }
  }

  /** Encoded length of a configuration answer; a DNS list too long for its option is left out. */
  function InformationSize(req: Message, cfg: Config): nat {
    var client := Unique(req.options, OPT_CLIENT_ID);
    4 + (if client.Some? then 4 + |client.value| else 0) + 4 + |cfg.serverDuid|
      + (if cfg.dns != [] && |cfg.dns| * 16 <= U16_MAX then 4 + |cfg.dns| * 16 else 0)
  }

  /** Unlike address answers, a configuration answer is not capped: it fits one datagram exactly when its parts do. */
  lemma InformationFitsIff(req: Message, cfg: Config)
    requires |req.txid| == 3 && ValidDuid(cfg.serverDuid) && InformationReply(req, cfg).Some?
    ensures |Encode(InformationReply(req, cfg).value)| == InformationSize(req, cfg)
    ensures |Encode(InformationReply(req, cfg).value)| <= MAX_STANDARD_IPV6_UDP_PAYLOAD
       <==> InformationSize(req, cfg) <= MAX_STANDARD_IPV6_UDP_PAYLOAD
  {
    hide EncodeOptions, Unique;
    var client := Unique(req.options, OPT_CLIENT_ID);
    var ids := (if client.Some? then [(OPT_CLIENT_ID, client.value)] else []) + [(OPT_SERVER_ID, cfg.serverDuid)];
    var dns := (OPT_DNS_SERVERS, DnsBytes(cfg.dns));
    EncodedEmpty();
    EncodedAppend(ids, if cfg.dns != [] then [dns] else []);
    if client.Some? {
      assert ids == [(OPT_CLIENT_ID, client.value), (OPT_SERVER_ID, cfg.serverDuid)];
      EncodedPair((OPT_CLIENT_ID, client.value), (OPT_SERVER_ID, cfg.serverDuid));
    } else {
      assert ids == [(OPT_SERVER_ID, cfg.serverDuid)];
      EncodedPair((OPT_SERVER_ID, cfg.serverDuid), dns);
    }
    EncodedPair(dns, dns);
  }

  /** A DNS list of 4095 servers makes the configuration answer overrun the datagram limit. */
  lemma InformationCanOverrun(req: Message, cfg: Config)
    requires req == Message(INFORMATION_REQUEST, [0, 0, 0], []) && |cfg.serverDuid| == 10 && |cfg.dns| == 4095
    ensures InformationReply(req, cfg).Some? && |Encode(InformationReply(req, cfg).value)| > MAX_STANDARD_IPV6_UDP_PAYLOAD
  {
    assert Pick(req.options, OPT_SERVER_ID) == [] && Pick(req.options, OPT_CLIENT_ID) == [];
    InformationFitsIff(req, cfg);
  }

  // ------------------------------------------------------------------ what a request leaves alone

  /** Outside `touched`, nothing appeared or changed, and only what had expired by `t` is gone. */
  ghost predicate Untouched(m0: Bindings, m: Bindings, touched: set<IaKey>, t: u64) {
    && (forall q :: q !in touched && q in m ==> q in m0 && m[q] == m0[q])
    && (forall q :: q !in touched && q in m0 && m0[q].expiry > t ==> q in m)
  }

  ghost predicate Evolves(s0: PoolState, s: PoolState, touched: set<IaKey>, t: u64) {
    s.start == s0.start && s.end == s0.end && Untouched(s0.leases, s.leases, touched, t) && Untouched(s0.offers, s.offers, touched, t)
  }

  lemma EvolvesThrough(s0: PoolState, s1: PoolState, s2: PoolState, a: set<IaKey>, b: set<IaKey>, t1: u64, t2: u64)
    requires Evolves(s0, s1, a, t1) && Evolves(s1, s2, b, t2) && t1 <= t2
    ensures Evolves(s0, s2, a + b, t2)
  {
  }

  lemma EvolvesCleaned(s: PoolState, t: u64)
    ensures Evolves(s, s.Cleaned(t), {}, t)
  {
  }

  /** The association's own step after cleaning touches nothing else. */
  lemma EvolvesOwn(s: PoolState, k: IaKey, v: Binding, t: u64)
    ensures Evolves(s, Offered(s.Cleaned(t), k, v), {k}, t)
    ensures Evolves(s, Committed(s.Cleaned(t), k, v), {k}, t)
    ensures Evolves(s, Leased(s.Cleaned(t), k, v), {k}, t)
    ensures Evolves(s, Released(s, k), {k}, t)
  {
  }

  // ------------------------------------------------------------------ one association

  /** The association's lease, if it lasts beyond `t`. */
  function LiveLease(s: PoolState, k: IaKey, t: u64): Option<Binding> {
    if k in s.leases && s.leases[k].expiry > t then Some(s.leases[k]) else None
  }

  function LiveOffer(s: PoolState, k: IaKey, t: u64): Option<Binding> {
    if k in s.offers && s.offers[k].expiry > t then Some(s.offers[k]) else None
  }

  /** An address of the range that no lease and no offer has at time `t`. */
  ghost predicate Free(s: PoolState, ip: u128, t: u64) {
    && s.start <= ip <= s.end
    && forall q :: !(LiveLease(s, q, t).Some? && s.leases[q].ip == ip) && !(LiveOffer(s, q, t).Some? && s.offers[q].ip == ip)
  }

  /** Leases and offers at time `t`. */
  ghost function LiveCount(s: PoolState, t: u64): nat {
    |set q | q in s.leases && LiveLease(s, q, t).Some?| + |set q | q in s.offers && LiveOffer(s, q, t).Some?|
  }

  /** Nothing is to be had for an association without a lease or an offer. */
  ghost predicate Crowded(s: PoolState, t: u64) {
    LiveCount(s, t) >= 100_000 || forall ip: u128 :: !Free(s, ip, t)
  }

  /** The bindings of `k` are what they were, less what ran out by `t`. */
  predicate KeepsOwn(s: PoolState, s': PoolState, k: IaKey, t: u64) {
    && (k in s'.leases ==> k in s.leases && s'.leases[k] == s.leases[k]) && (LiveLease(s, k, t).Some? ==> k in s'.leases)
    && (k in s'.offers ==> k in s.offers && s'.offers[k] == s.offers[k]) && (LiveOffer(s, k, t).Some? ==> k in s'.offers)
  }

  /** When a lease granted at `t` ends; all ones means never. */
  function LeaseEnd(t: u64, secs: u32): u64 {
    if secs == 0xFFFF_FFFF then 0xFFFF_FFFF_FFFF_FFFF else Min(t + secs, 0xFFFF_FFFF_FFFF_FFFF)
  }

  /** The address a REQUEST may confirm: the one offered, else the one leased. */
  function Wanted(s: PoolState, k: IaKey, t: u64): Option<u128> {
    if LiveOffer(s, k, t).Some? then Some(s.offers[k].ip) else if LiveLease(s, k, t).Some? then Some(s.leases[k].ip) else None
  }

  /** The claim on the address still stands. */
  predicate Stands(s: PoolState, k: IaKey, ip: u128, t: u64) {
    (LiveOffer(s, k, t).Some? && s.offers[k].ip == ip) || (LiveLease(s, k, t).Some? && s.leases[k].ip == ip)
  }

  ghost predicate Confirmable(s: PoolState, k: IaKey, ia: IaNa, now: u64, t: u64) {
    Wanted(s, k, now).Some? && Lists(ia, Wanted(s, k, now).value) && Stands(s, k, Wanted(s, k, now).value, t)
  }

  /** The association has a lease, lists its address, and the lease lasts through the operation. */
  ghost predicate Renewable(s: PoolState, k: IaKey, ia: IaNa, now: u64, t: u64) {
    LiveLease(s, k, Max(now, t)).Some? && Lists(ia, s.leases[k].ip)
  }

  /** A lease handed out again, else an offer, else a free address while there is room. */
  ghost predicate Advertisable(s: PoolState, k: IaKey, t: u64, ip: u128) {
    if LiveLease(s, k, t).Some? then ip == s.leases[k].ip
    else if LiveOffer(s, k, t).Some? then ip == s.offers[k].ip
    else LiveCount(s, t) < 100_000 && Free(s, ip, t)
  }

  /** An advertised address is held: by the lease that has it, or by an offer for a minute. */
  predicate Advertised(s: PoolState, s': PoolState, k: IaKey, t: u64, v: Binding) {
    if LiveLease(s, k, t).Some? then v == s.leases[k] && KeepsOwn(s, s', k, t)
    else v.expiry == Min(t + 60, 0xFFFF_FFFF_FFFF_FFFF) && k in s'.offers && s'.offers[k] == v && k !in s'.leases
  }

  /**
   Exactly what one association gets: from pool `s` to pool `s'`, with the clock read at `now` for the message and at
   `t1` and `t2` for the operations.
   */
  ghost predicate Serves(msgType: byte, s: PoolState, s': PoolState, k: IaKey, ia: IaNa, secs: u32, now: u64, t1: u64, t2: u64, o: Outcome) {
    match o
    case Assigned(ip, until) =>
      if msgType == 1 then Advertisable(s, k, t1, ip) && Advertised(s, s', k, t2, Binding(ip, until))
      else
        && until == LeaseEnd(t1, secs) && k in s'.leases && s'.leases[k] == Binding(ip, until)
        && (if msgType == 3 then Confirmable(s, k, ia, now, t1) && ip == Wanted(s, k, now).value && k !in s'.offers
            else msgType == 5 && Renewable(s, k, ia, now, t1) && ip == s.leases[k].ip)
    case Refused(code) =>
      && KeepsOwn(s, s', k, t2)
      && (if msgType == 1 then code == 2 && LiveLease(s, k, t1).None? && LiveOffer(s, k, t1).None? && Crowded(s, t1)
          else code == 3 && if msgType == 3 then !Confirmable(s, k, ia, now, t1) else !Renewable(s, k, ia, now, t1))
    case Silent => msgType == 8 && Renewable(s, k, ia, now, t1) && k !in s'.leases && (LiveOffer(s, k, t2).Some? ==> k in s'.offers)
  }

  lemma OwnCleaned(s: PoolState, k: IaKey, t: u64)
    ensures LiveLease(s, k, t) == (if k in s.Cleaned(t).leases then Some(s.Cleaned(t).leases[k]) else None)
    ensures LiveOffer(s, k, t) == (if k in s.Cleaned(t).offers then Some(s.Cleaned(t).offers[k]) else None)
  {
  }

  lemma CleanedTwice(s: PoolState, t: u64, u: u64)
    requires t <= u
    ensures s.Cleaned(t).Cleaned(u) == s.Cleaned(u)
  {
    assert Unexpired(Unexpired(s.leases, t), u) == Unexpired(s.leases, u);
    assert Unexpired(Unexpired(s.offers, t), u) == Unexpired(s.offers, u);
  }

  lemma CountCleaned(s: PoolState, t: u64)
    ensures s.Cleaned(t).Entries() == LiveCount(s, t)
  {
    var c := s.Cleaned(t);
    assert c.leases.Keys == set q | q in s.leases && LiveLease(s, q, t).Some?;
    assert c.offers.Keys == set q | q in s.offers && LiveOffer(s, q, t).Some?;
    assert |c.leases| == |c.leases.Keys| && |c.offers| == |c.offers.Keys|;
  }

  lemma FreeCleaned(s: PoolState, ip: u128, t: u64)
    ensures Free(s, ip, t) <==> s.start <= ip <= s.end && ip !in s.Cleaned(t).Occupied()
  {
    var c := s.Cleaned(t);
    if ip in c.Occupied() {
      if ip in Addresses(c.leases) {
        var q :| q in c.leases && c.leases[q].ip == ip;
        assert LiveLease(s, q, t).Some?;
      } else {
        var q :| q in c.offers && c.offers[q].ip == ip;
        assert LiveOffer(s, q, t).Some?;
      }
    } else {
      forall q
        ensures !(LiveLease(s, q, t).Some? && s.leases[q].ip == ip) && !(LiveOffer(s, q, t).Some? && s.offers[q].ip == ip)
      {
        assert LiveLease(s, q, t).Some? ==> q in c.leases && c.leases[q].ip in Addresses(c.leases);
        assert LiveOffer(s, q, t).Some? ==> q in c.offers && c.offers[q].ip in Addresses(c.offers);
      }
    }
  }

  /** The search yields what may be advertised, and nothing only when there is nothing. */
  lemma AllocatedIs(s: PoolState, k: IaKey, t: u64, r: Option<u128>)
    requires Allocates(s.Cleaned(t), k, r)
    ensures r.Some? ==> Advertisable(s, k, t, r.value)
    ensures r.None? ==> LiveLease(s, k, t).None? && LiveOffer(s, k, t).None? && Crowded(s, t)
  {
    hide Unexpired, Free, LiveCount, PoolState.Occupied;
    OwnCleaned(s, k, t);
    CountCleaned(s, t);
    forall ip: u128
      ensures Free(s, ip, t) <==> s.start <= ip <= s.end && ip !in s.Cleaned(t).Occupied()
    {
      FreeCleaned(s, ip, t);
    }
  }

  /** What the search found can be held when the clock is read again. */
  lemma HoldFits(s: PoolState, k: IaKey, ip: u128, t1: u64, t2: u64)
    requires s.Inv() && t1 <= t2 && Allocates(s.Cleaned(t1), k, Some(ip))
    ensures s.Cleaned(t1).start <= ip <= s.Cleaned(t1).end
    ensures HasLease(s.Cleaned(t2), k, ip) || CanOffer(s.Cleaned(t2), k, ip)
  {
    hide Unexpired, PoolState.Occupied, PoolState.Inv;
    var c, d := s.Cleaned(t1), s.Cleaned(t2);
    CleanedTwice(s, t1, t2);
    CleanedKeeps(s, t1);
    InRange(c, k);
    OwnCleaned(c, k, t2);
    if k in c.leases {
      if k !in d.leases {
        LapsedLease(c, k, t2);
      }
    } else if k in c.offers {
      if k !in d.offers {
        LapsedOffer(c, k, t2);
      }
    } else {
      FewerLater(c, t2);
    }
  }

  lemma InRange(c: PoolState, k: IaKey)
    requires c.Inv()
    ensures k in c.leases ==> c.start <= c.leases[k].ip <= c.end
    ensures k in c.offers ==> c.start <= c.offers[k].ip <= c.end
  {
  }

  lemma FewerLater(c: PoolState, t: u64)
    ensures c.Cleaned(t).Entries() <= c.Entries() && c.Cleaned(t).Occupied() <= c.Occupied()
  {
    var d := c.Cleaned(t);
    SubsetSize(d.leases.Keys, c.leases.Keys);
    SubsetSize(d.offers.Keys, c.offers.Keys);
    assert |d.leases| == |d.leases.Keys| && |d.offers| == |d.offers.Keys| && |c.leases| == |c.leases.Keys| && |c.offers| == |c.offers.Keys|;
    forall ip | ip in d.Occupied()
      ensures ip in c.Occupied()
    {
      if ip in Addresses(d.leases) {
        var q :| q in d.leases && d.leases[q].ip == ip;
        assert q in c.leases && c.leases[q].ip == ip;
      } else {
        var q :| q in d.offers && d.offers[q].ip == ip;
        assert q in c.offers && c.offers[q].ip == ip;
      }
    }
  }

  /** A lease that ran out frees its address and an entry. */
  lemma LapsedLease(c: PoolState, k: IaKey, t: u64)
    requires c.Inv() && k in c.leases && k !in c.Cleaned(t).leases
    ensures c.leases[k].ip !in c.Cleaned(t).Occupied() && c.Cleaned(t).Entries() < 100_000
  {
    hide PoolState.Inv, PoolState.Occupied, Unexpired;
    AnyBound(c);
    ReleasedKeeps(c, k, 0);
    RemovedSize(c.leases, k);
    FewerLater(Released(c, k), t);
    InvSize(c);
    SameLater(c, Released(c, k), t, k);
  }

  lemma SameLater(c: PoolState, d: PoolState, t: u64, k: IaKey)
    requires (d == Released(c, k) && k !in c.Cleaned(t).leases) || (d == Withdrawn(c, k) && k !in c.Cleaned(t).offers)
    ensures c.Cleaned(t) == d.Cleaned(t)
  {
    assert Unexpired(c.leases, t) == Unexpired(d.leases, t) && Unexpired(c.offers, t) == Unexpired(d.offers, t);
  }

  lemma LapsedOffer(c: PoolState, k: IaKey, t: u64)
    requires c.Inv() && k in c.offers && k !in c.Cleaned(t).offers
    ensures c.offers[k].ip !in c.Cleaned(t).Occupied() && c.Cleaned(t).Entries() < 100_000
  {
    hide PoolState.Inv, PoolState.Occupied, Unexpired;
    AnyBound(c);
    WithdrawnKeeps(c, k, 0);
    FewerLater(Withdrawn(c, k), t);
    InvSize(c);
    SameLater(c, Withdrawn(c, k), t, k);
  }

  lemma EvolvesWiden(s0: PoolState, s: PoolState, a: set<IaKey>, b: set<IaKey>, t: u64, t': u64)
    requires Evolves(s0, s, a, t) && a <= b && t <= t'
    ensures Evolves(s0, s, b, t')
  {
  }

  /** All ways one step may leave the pool: as it was, cleaned, or cleaned with the own association changed. */
  lemma EvolvesAny(s: PoolState, k: IaKey, v: Binding, t: u64)
    ensures Evolves(s, s, {k}, t) && Evolves(s, s.Cleaned(t), {k}, t)
    ensures Evolves(s, Offered(s.Cleaned(t), k, v), {k}, t)
    ensures Evolves(s, Committed(s.Cleaned(t), k, v), {k}, t)
    ensures Evolves(s, Leased(s.Cleaned(t), k, v), {k}, t)
    ensures Evolves(s, Released(s, k), {k}, t)
  {
    EvolvesOwn(s, k, v, t);
    EvolvesCleaned(s, t);
    EvolvesWiden(s, s.Cleaned(t), {}, {k}, t, t);
  }

  function HeldUntil(s: PoolState, k: IaKey, t: u64): u64 {
    if LiveLease(s, k, t).Some? then s.leases[k].expiry else SaturatingAdd64(t, OFFER_SECS)
  }

  lemma SolicitServes(s: PoolState, s': PoolState, k: IaKey, ia: IaNa, secs: u32, now: u64, t1: u64, t2: u64, ip: u128)
    requires s.Inv() && t1 <= t2 && Allocates(s.Cleaned(t1), k, Some(ip))
    requires s' == if HasLease(s.Cleaned(t2), k, ip) then s.Cleaned(t2) else Offered(s.Cleaned(t2), k, Binding(ip, SaturatingAdd64(t2, OFFER_SECS)))
    ensures
      var until := HeldUntil(s, k, t2);
      Serves(SOLICIT, s, s', k, ia, secs, now, t1, t2, Assigned(ip, until))
  {
    hide Unexpired, Advertisable, Lists, PoolState.Inv;
    AllocatedIs(s, k, t1, Some(ip));
    OwnCleaned(s, k, t1);
    OwnCleaned(s, k, t2);
  }

  lemma OwnKept(s: PoolState, k: IaKey, t: u64, t': u64)
    requires t <= t'
    ensures KeepsOwn(s, s, k, t') && KeepsOwn(s, s.Cleaned(t), k, t')
  {
  }

  lemma SolicitRefused(s: PoolState, k: IaKey, ia: IaNa, secs: u32, now: u64, t1: u64, t2: u64)
    requires t1 <= t2 && LiveLease(s, k, t1).None? && LiveOffer(s, k, t1).None? && Crowded(s, t1)
    ensures Serves(SOLICIT, s, s.Cleaned(t1), k, ia, secs, now, t1, t2, Refused(STATUS_NO_ADDRS_AVAIL))
  {
    hide Crowded, KeepsOwn;
    OwnKept(s, k, t1, t2);
  }

  lemma ValidInv(pool: Lease6Pool)
    requires pool.Valid()
    ensures pool.State().Inv() && pool.State().start == pool.start && pool.State().end == pool.end
  {
  }

  /** An address to advertise, held for the client; none exactly when the association has nothing and the pool is crowded. */
  method Solicit(pool: Lease6Pool, client: Bytes, ia: IaNa, now: u64, t1: u64, t2: u64) returns (ip: Option<u128>, ghost o: Outcome)
    requires pool.Valid() && Storable(client) && t1 <= t2
    modifies pool, pool.leases, pool.offers
    ensures pool.Valid() && pool.leases == old(pool.leases) && pool.offers == old(pool.offers) && pool.leaseSecs == old(pool.leaseSecs)
    ensures Evolves(old(pool.State()), pool.State(), {(client, ia.iaid)}, t2)
    ensures Serves(SOLICIT, old(pool.State()), pool.State(), (client, ia.iaid), ia, pool.leaseSecs, now, t1, t2, o)
    ensures if ip.Some? then o.Assigned? && o.ip == ip.value else o == Refused(STATUS_NO_ADDRS_AVAIL)
  {
    hide Lease6Pool.Valid, Lease6Pool.State, Evolves, Unexpired, Address, Split, Allocates, Lists, PoolState.Inv, PoolState.Occupied, Serves, KeepsOwn, CanOffer, HasLease, Crowded, Advertisable, PoolState.Cleaned;
    ghost var s0, k := pool.State(), (client, ia.iaid);
    ValidInv(pool);
    EvolvesAny(s0, k, Binding(0, 0), t1);
    EvolvesWiden(s0, s0.Cleaned(t1), {k}, {k}, t1, t2);
    ip := pool.Allocate(client, ia.iaid, t1);
    AllocatedIs(s0, k, t1, ip);
    if ip.None? {
      o := Refused(STATUS_NO_ADDRS_AVAIL);
      SolicitRefused(s0, k, ia, pool.leaseSecs, now, t1, t2);
      return;
    }
    HoldFits(s0, k, ip.value, t1, t2);
    CleanedTwice(s0, t1, t2);
    EvolvesAny(s0, k, Binding(ip.value, SaturatingAdd64(t2, OFFER_SECS)), t2);
    ValidInv(pool);
    var held := pool.HoldOffer(client, ia.iaid, ip.value, t2);
    ValidInv(pool);
    if !held {
      ip := None;
    }
    o := Assigned(ip.value, HeldUntil(s0, k, t2));
    SolicitServes(s0, pool.State(), k, ia, pool.leaseSecs, now, t1, t2, ip.value);
  }

  /** A claim that stands can be confirmed, and only that. */
  lemma CommitIff(s: PoolState, k: IaKey, ip: u128, t: u64)
    requires s.Inv()
    ensures CanCommit(s.Cleaned(t), k, ip, true) <==> Stands(s, k, ip, t)
  {
    hide PoolState.Inv, PoolState.Occupied, Unexpired;
    CleanedKeeps(s, t);
    InRange(s.Cleaned(t), k);
    OwnCleaned(s, k, t);
  }

  lemma RequestRefused(s: PoolState, s': PoolState, k: IaKey, ia: IaNa, secs: u32, now: u64, t: u64)
    requires !Confirmable(s, k, ia, now, t) && (s' == s || s' == s.Cleaned(t))
    ensures Serves(REQUEST, s, s', k, ia, secs, now, t, t, Refused(STATUS_NO_BINDING))
  {
    hide Confirmable, KeepsOwn;
    OwnKept(s, k, t, t);
  }

  lemma RequestServes(s: PoolState, k: IaKey, ia: IaNa, secs: u32, now: u64, t: u64)
    requires Confirmable(s, k, ia, now, t)
    ensures
      var v := Binding(Wanted(s, k, now).value, LeaseExpiry(t, secs));
      Serves(REQUEST, s, Committed(s.Cleaned(t), k, v), k, ia, secs, now, t, t, Assigned(v.ip, v.expiry))
  {
    hide Lists, Unexpired;
  }

  /** The address offered or leased is confirmed exactly when the client lists it and the claim still stands. */
  method Request(pool: Lease6Pool, client: Bytes, ia: IaNa, now: u64, t: u64) returns (ip: Option<u128>, ghost o: Outcome)
    requires pool.Valid() && Storable(client) && ValidIaOptions(ia.options)
    modifies pool, pool.leases, pool.offers
    ensures pool.Valid() && pool.leases == old(pool.leases) && pool.offers == old(pool.offers) && pool.leaseSecs == old(pool.leaseSecs)
    ensures Evolves(old(pool.State()), pool.State(), {(client, ia.iaid)}, t)
    ensures Serves(REQUEST, old(pool.State()), pool.State(), (client, ia.iaid), ia, pool.leaseSecs, now, t, t, o)
    ensures if ip.Some? then o.Assigned? && o.ip == ip.value else o == Refused(STATUS_NO_BINDING)
  {
    hide Lease6Pool.Valid, Lease6Pool.State, Evolves, Unexpired, Address, Split, Lists, Serves, CanCommit, PoolState.Inv, Stands;
    ghost var s0, k := pool.State(), (client, ia.iaid);
    ValidInv(pool);
    o := Refused(STATUS_NO_BINDING);
    ip := pool.OfferedAddress(client, ia.iaid, now);
    OwnCleaned(s0, k, now);
    assert ip == Wanted(s0, k, now);
    EvolvesAny(s0, k, if ip.Some? then Binding(ip.value, LeaseExpiry(t, pool.leaseSecs)) else Binding(0, 0), t);
    if ip.None? {
      RequestRefused(s0, s0, k, ia, pool.leaseSecs, now, t);
      return;
    }
    var listed := ContainsAddress(ia, ip.value);
    if !listed {
      RequestRefused(s0, s0, k, ia, pool.leaseSecs, now, t);
      ip := None;
      return;
    }
    CommitIff(s0, k, ip.value, t);
    var committed := pool.CommitInner(client, ia.iaid, ip.value, true, t);
    if committed {
      o := Assigned(ip.value, LeaseExpiry(t, pool.leaseSecs));
      RequestServes(s0, k, ia, pool.leaseSecs, now, t);
    } else {
      RequestRefused(s0, pool.State(), k, ia, pool.leaseSecs, now, t);
      ip := None;
    }
  }

  lemma RenewRefused(msgType: byte, s: PoolState, s': PoolState, k: IaKey, ia: IaNa, secs: u32, now: u64, t: u64)
    requires msgType in {RENEW, RELEASE} && !Renewable(s, k, ia, now, t) && (s' == s || s' == s.Cleaned(t))
    ensures Serves(msgType, s, s', k, ia, secs, now, t, t, Refused(STATUS_NO_BINDING))
  {
    hide Renewable, KeepsOwn;
    OwnKept(s, k, t, t);
  }

  lemma RenewServes(s: PoolState, k: IaKey, ia: IaNa, secs: u32, now: u64, t: u64)
    requires Renewable(s, k, ia, now, t)
    ensures
      var v := Binding(s.leases[k].ip, LeaseExpiry(t, secs));
      Serves(RENEW, s, Leased(s.Cleaned(t), k, v), k, ia, secs, now, t, t, Assigned(v.ip, v.expiry))
  {
    hide Lists, Unexpired;
  }

  /** The lease is extended exactly when the client lists its address and it has not run out. */
  method RenewIa(pool: Lease6Pool, client: Bytes, ia: IaNa, now: u64, t: u64) returns (ip: Option<u128>, ghost o: Outcome)
    requires pool.Valid() && Storable(client) && ValidIaOptions(ia.options)
    modifies pool, pool.leases, pool.offers
    ensures pool.Valid() && pool.leases == old(pool.leases) && pool.offers == old(pool.offers) && pool.leaseSecs == old(pool.leaseSecs)
    ensures Evolves(old(pool.State()), pool.State(), {(client, ia.iaid)}, t)
    ensures Serves(RENEW, old(pool.State()), pool.State(), (client, ia.iaid), ia, pool.leaseSecs, now, t, t, o)
    ensures if ip.Some? then o.Assigned? && o.ip == ip.value else o == Refused(STATUS_NO_BINDING)
  {
    hide Lease6Pool.Valid, Lease6Pool.State, Evolves, Unexpired, Address, Split, Lists, Serves;
    ghost var s0, k := pool.State(), (client, ia.iaid);
    o := Refused(STATUS_NO_BINDING);
    ip := pool.LeasedAddress(client, ia.iaid, now);
    OwnCleaned(s0, k, now);
    OwnCleaned(s0, k, t);
    EvolvesAny(s0, k, if ip.Some? then Binding(ip.value, LeaseExpiry(t, pool.leaseSecs)) else Binding(0, 0), t);
    if ip.None? {
      RenewRefused(RENEW, s0, s0, k, ia, pool.leaseSecs, now, t);
      return;
    }
    var listed := ContainsAddress(ia, ip.value);
    if !listed {
      RenewRefused(RENEW, s0, s0, k, ia, pool.leaseSecs, now, t);
      ip := None;
      return;
    }
    var renewed := pool.Renew(client, ia.iaid, ip.value, t);
    if renewed {
      o := Assigned(ip.value, LeaseExpiry(t, pool.leaseSecs));
      RenewServes(s0, k, ia, pool.leaseSecs, now, t);
    } else {
      RenewRefused(RENEW, s0, pool.State(), k, ia, pool.leaseSecs, now, t);
      ip := None;
    }
  }

  lemma ReleaseServes(s: PoolState, k: IaKey, ia: IaNa, secs: u32, now: u64, t: u64)
    requires Renewable(s, k, ia, now, t)
    ensures Serves(RELEASE, s, Released(s, k), k, ia, secs, now, t, t, Silent)
  {
    hide Lists;
  }

  /** The lease is taken back exactly when the client lists its address and it has not run out. */
  method ReleaseIa(pool: Lease6Pool, client: Bytes, ia: IaNa, now: u64, t: u64) returns (released: bool, ghost o: Outcome)
    requires pool.Valid() && Storable(client) && ValidIaOptions(ia.options)
    modifies pool, pool.leases, pool.offers
    ensures pool.Valid() && pool.leases == old(pool.leases) && pool.offers == old(pool.offers) && pool.leaseSecs == old(pool.leaseSecs)
    ensures Evolves(old(pool.State()), pool.State(), {(client, ia.iaid)}, t)
    ensures Serves(RELEASE, old(pool.State()), pool.State(), (client, ia.iaid), ia, pool.leaseSecs, now, t, t, o)
    ensures o == if released then Silent else Refused(STATUS_NO_BINDING)
  {
    hide Lease6Pool.Valid, Lease6Pool.State, Evolves, Unexpired, Address, Split, Lists, Serves;
    ghost var s0, k := pool.State(), (client, ia.iaid);
    o := Refused(STATUS_NO_BINDING);
    EvolvesAny(s0, k, Binding(0, 0), t);
    OwnCleaned(s0, k, now);
    OwnCleaned(s0, k, t);
    var leased := pool.LeasedAddress(client, ia.iaid, now);
    if leased.None? {
      RenewRefused(RELEASE, s0, s0, k, ia, pool.leaseSecs, now, t);
      return false, o;
    }
    var listed := ContainsAddress(ia, leased.value);
    if !listed {
      RenewRefused(RELEASE, s0, s0, k, ia, pool.leaseSecs, now, t);
      return false, o;
    }
    released := pool.ReleaseAddress(client, ia.iaid, leased.value, t);
    if released {
      o := Silent;
      ReleaseServes(s0, k, ia, pool.leaseSecs, now, t);
    } else {
      RenewRefused(RELEASE, s0, s0, k, ia, pool.leaseSecs, now, t);
    }
  }

  lemma ServesLater(msgType: byte, s: PoolState, s': PoolState, k: IaKey, ia: IaNa, secs: u32, now: u64, t1: u64, t2: u64, o: Outcome)
    requires msgType != SOLICIT && t1 <= t2 && Serves(msgType, s, s', k, ia, secs, now, t1, t1, o)
    ensures Serves(msgType, s, s', k, ia, secs, now, t1, t2, o)
  {
    hide Confirmable, Renewable;
  }

  /** Answers one association and renders the answer. */
  method HandleIa(pool: Lease6Pool, msgType: byte, client: Bytes, data: Bytes, cfg: Config, now: u64, t1: u64, t2: u64)
    returns (options: Options, ghost o: Outcome)
    requires pool.Valid() && Storable(client) && t1 <= t2 && IaNaOf(data).Some?
    requires msgType in {SOLICIT, REQUEST, RENEW, RELEASE}
    modifies pool, pool.leases, pool.offers
    ensures pool.Valid() && pool.leases == old(pool.leases) && pool.offers == old(pool.offers) && pool.leaseSecs == old(pool.leaseSecs)
    ensures Evolves(old(pool.State()), pool.State(), {(client, IaNaOf(data).value.iaid)}, t2)
    ensures Serves(msgType, old(pool.State()), pool.State(), (client, IaNaOf(data).value.iaid), IaNaOf(data).value, pool.leaseSecs, now, t1, t2, o)
    ensures options == Render(IaNaOf(data).value.iaid, o, cfg)
  {
    hide Lease6Pool.Valid, Lease6Pool.State, Evolves, Serves, Split, EncodeOptions;
    var parsed := ParseIaNa(data);
    var ia := parsed.value;
    ghost var s0, k := pool.State(), (client, ia.iaid);
    var ip: Option<u128>, status := None, STATUS_NO_BINDING;
    if msgType == SOLICIT {
      status := STATUS_NO_ADDRS_AVAIL;
      ip, o := Solicit(pool, client, ia, now, t1, t2);
    } else if msgType == REQUEST {
      ip, o := Request(pool, client, ia, now, t1);
    } else if msgType == RENEW {
      ip, o := RenewIa(pool, client, ia, now, t1);
    } else {
      var released;
      released, o := ReleaseIa(pool, client, ia, now, t1);
      EvolvesWiden(s0, pool.State(), {k}, {k}, t1, t2);
      ServesLater(msgType, s0, pool.State(), k, ia, pool.leaseSecs, now, t1, t2, o);
      return if released then [] else [IaNaStatusOption(ia.iaid, STATUS_NO_BINDING)], o;
    }
    if msgType != SOLICIT {
      EvolvesWiden(s0, pool.State(), {k}, {k}, t1, t2);
      ServesLater(msgType, s0, pool.State(), k, ia, pool.leaseSecs, now, t1, t2, o);
    }
    if ip.None? {
      return [IaNaStatusOption(ia.iaid, status)], o;
    }
    var timers := RenewalTimers(cfg.leaseSecs);
    return [IaNaOption(ia.iaid, timers.0, timers.1, ip.value, cfg.leaseSecs)], o;
  }

  // ------------------------------------------------------------------ one message

  function KeyAt(client: Bytes, ias: seq<Bytes>, i: nat): IaKey
    requires i < |ias| && WellFormedIas(ias)
  {
    (client, IaNaOf(ias[i]).value.iaid)
  }

  /** The associations the first `n` options of a request speak about. */
  ghost function OwnKeys(client: Bytes, ias: seq<Bytes>, n: nat): set<IaKey>
    requires n <= |ias| && WellFormedIas(ias)
  {
    set i | 0 <= i < n :: KeyAt(client, ias, i)
  }

  /** One association after the other, each served exactly; `trace` are the states of the pool in between. */
  ghost predicate Settled(msgType: byte, trace: seq<PoolState>, client: Bytes, ias: seq<Bytes>, secs: u32, clock: nat -> u64, log: seq<Outcome>) {
    && WellFormedIas(ias) && |log| <= |ias| && |trace| == |log| + 1
    && forall i :: 0 <= i < |log| ==> SettledAt(msgType, trace[i], trace[i + 1], client, ias, secs, clock, i, log[i])
  }

  ghost predicate SettledAt(msgType: byte, s: PoolState, s': PoolState, client: Bytes, ias: seq<Bytes>, secs: u32, clock: nat -> u64, i: nat, o: Outcome)
    requires WellFormedIas(ias) && i < |ias|
  {
    && Serves(msgType, s, s', KeyAt(client, ias, i), IaNaOf(ias[i]).value, secs, clock(0), clock(2 * i + 1), clock(2 * i + 2), o)
    && Evolves(s, s', {KeyAt(client, ias, i)}, clock(2 * i + 2))
  }

  ghost predicate Forward(clock: nat -> u64) {
    forall i, j :: i <= j ==> clock(i) <= clock(j)
  }

  lemma SettleOne(msgType: byte, trace: seq<PoolState>, s': PoolState, client: Bytes, ias: seq<Bytes>, secs: u32, clock: nat -> u64, log: seq<Outcome>, o: Outcome)
    requires Settled(msgType, trace, client, ias, secs, clock, log) && |log| < |ias|
    requires SettledAt(msgType, trace[|log|], s', client, ias, secs, clock, |log|, o)
    ensures Settled(msgType, trace + [s'], client, ias, secs, clock, log + [o])
  {
    hide SettledAt, WellFormedIas;
  }

  /** A message touches its own associations only. */
  lemma {:induction false} SettledEvolves(msgType: byte, trace: seq<PoolState>, client: Bytes, ias: seq<Bytes>, secs: u32, clock: nat -> u64, log: seq<Outcome>, n: nat)
    requires Settled(msgType, trace, client, ias, secs, clock, log) && n <= |log| && Forward(clock)
    ensures Evolves(trace[0], trace[n], OwnKeys(client, ias, n), clock(2 * n))
  {
    hide Serves, Evolves, WellFormedIas, IaNaOf;
    if n == 0 {
      EvolvesSelf(trace[0], OwnKeys(client, ias, 0), clock(0));
    } else {
      SettledEvolves(msgType, trace, client, ias, secs, clock, log, n - 1);
      var k := KeyAt(client, ias, n - 1);
      assert SettledAt(msgType, trace[n - 1], trace[n - 1 + 1], client, ias, secs, clock, n - 1, log[n - 1]);
      assert OwnKeys(client, ias, n) == OwnKeys(client, ias, n - 1) + {k};
      EvolvesThrough(trace[0], trace[n - 1], trace[n], OwnKeys(client, ias, n - 1), {k}, clock(2 * n - 2), clock(2 * n));
    }
  }

  lemma EvolvesSelf(s: PoolState, touched: set<IaKey>, t: u64)
    ensures Evolves(s, s, touched, t)
  {
  }

  /** After its own association, the rest of the message leaves it alone. */
  lemma {:induction false} RestEvolves(msgType: byte, trace: seq<PoolState>, client: Bytes, ias: seq<Bytes>, secs: u32, clock: nat -> u64, log: seq<Outcome>, i: nat, n: nat) returns (touched: set<IaKey>)
    requires Settled(msgType, trace, client, ias, secs, clock, log) && i < n <= |log| && Forward(clock)
    ensures Evolves(trace[i + 1], trace[n], touched, clock(2 * n)) && KeyAt(client, ias, i) !in touched
    decreases n
  {
    hide Serves, Evolves, IaNaOf;
    if n == i + 1 {
      touched := {};
      EvolvesSelf(trace[n], touched, clock(2 * n));
    } else {
      touched := RestEvolves(msgType, trace, client, ias, secs, clock, log, i, n - 1);
      var k := KeyAt(client, ias, n - 1);
      assert SettledAt(msgType, trace[n - 1], trace[n - 1 + 1], client, ias, secs, clock, n - 1, log[n - 1]);
      EvolvesThrough(trace[i + 1], trace[n - 1], trace[n], touched, {k}, clock(2 * n - 2), clock(2 * n));
      touched := touched + {k};
    }
  }

  ghost predicate Holds(s: PoolState, k: IaKey, v: Binding) {
    (k in s.leases && s.leases[k] == v) || (k in s.offers && s.offers[k] == v)
  }

  /** What the answer to association `k`, given at time `t`, says about the pool before the message and at its end. */
  ghost predicate Answers(msgType: byte, s0: PoolState, s: PoolState, k: IaKey, ia: IaNa, now: u64, t: u64, latest: u64, o: Outcome) {
    match o
    case Assigned(ip, until) =>
      && (Holds(s, k, Binding(ip, until)) || until <= latest)
      && (msgType == REQUEST ==> Lists(ia, ip) && Stands(s0, k, ip, t) && (LiveOffer(s0, k, t).Some? ==> ip == s0.offers[k].ip))
      && (msgType == RENEW ==> Lists(ia, ip) && LiveLease(s0, k, t).Some? && ip == s0.leases[k].ip)
      && (msgType == SOLICIT && LiveLease(s0, k, t).Some? ==> ip == s0.leases[k].ip)
      && (msgType == SOLICIT && LiveLease(s0, k, t).None? && LiveOffer(s0, k, t).Some? ==> ip == s0.offers[k].ip)
    case Refused(code) =>
      if msgType == SOLICIT then code == 2 && LiveLease(s0, k, t).None? && LiveOffer(s0, k, t).None?
      else
        && code == 3
        && (msgType == REQUEST ==> !(LiveOffer(s0, k, t).Some? && Lists(ia, s0.offers[k].ip)))
        && (msgType == REQUEST ==> !(LiveOffer(s0, k, now).None? && LiveLease(s0, k, t).Some? && Lists(ia, s0.leases[k].ip)))
        && (msgType != REQUEST ==> !(LiveLease(s0, k, t).Some? && Lists(ia, s0.leases[k].ip)))
    case Silent => msgType == RELEASE && k !in s.leases && LiveLease(s0, k, t).Some? && Lists(ia, s0.leases[k].ip)
  }

  /** An association not touched yet has what it had, as far as it lasts. */
  lemma SameBindings(s0: PoolState, s: PoolState, touched: set<IaKey>, t: u64, k: IaKey, t': u64)
    requires Evolves(s0, s, touched, t) && k !in touched && t <= t'
    ensures LiveLease(s, k, t') == LiveLease(s0, k, t') && LiveOffer(s, k, t') == LiveOffer(s0, k, t')
    ensures forall u: u64 :: LiveOffer(s0, k, u).None? ==> LiveOffer(s, k, u).None?
  {
  }

  lemma AnswerNew(msgType: byte, s0: PoolState, s1: PoolState, s2: PoolState, touched: set<IaKey>, t0: u64,
                  k: IaKey, ia: IaNa, secs: u32, now: u64, t1: u64, t2: u64, o: Outcome)
    requires Evolves(s0, s1, touched, t0) && k !in touched && now <= t1 && t0 <= t1 <= t2
    requires Serves(msgType, s1, s2, k, ia, secs, now, t1, t2, o) && msgType in {SOLICIT, REQUEST, RENEW, RELEASE}
    ensures Answers(msgType, s0, s2, k, ia, now, t1, t2, o)
  {
    hide Lists, Evolves, Free, LiveCount;
    SameBindings(s0, s1, touched, t0, k, t1);
  }

  lemma AnswerKept(msgType: byte, s0: PoolState, s1: PoolState, s2: PoolState, touched: set<IaKey>,
                   k: IaKey, ia: IaNa, now: u64, t: u64, t1: u64, t2: u64, o: Outcome)
    requires Answers(msgType, s0, s1, k, ia, now, t, t1, o) && Evolves(s1, s2, touched, t2) && k !in touched && t1 <= t2
    ensures Answers(msgType, s0, s2, k, ia, now, t, t2, o)
  {
    hide Lists;
  }

  /** Every answer of a settled message stands against the pool before the message and at its end. */
  lemma AnswersStand(msgType: byte, trace: seq<PoolState>, client: Bytes, ias: seq<Bytes>, secs: u32, clock: nat -> u64, log: seq<Outcome>, i: nat)
    requires Settled(msgType, trace, client, ias, secs, clock, log) && i < |log| && Forward(clock) && msgType in {SOLICIT, REQUEST, RENEW, RELEASE}
    ensures Answers(msgType, trace[0], trace[|log|], KeyAt(client, ias, i), IaNaOf(ias[i]).value, clock(0), clock(2 * i + 1), clock(2 * |log|), log[i])
  {
    hide Serves, Evolves, Answers, IaNaOf;
    var k := KeyAt(client, ias, i);
    SettledEvolves(msgType, trace, client, ias, secs, clock, log, i);
    assert SettledAt(msgType, trace[i], trace[i + 1], client, ias, secs, clock, i, log[i]);
    assert k !in OwnKeys(client, ias, i);
    AnswerNew(msgType, trace[0], trace[i], trace[i + 1], OwnKeys(client, ias, i), clock(2 * i), k, IaNaOf(ias[i]).value, secs, clock(0), clock(2 * i + 1), clock(2 * i + 2), log[i]);
    var touched := RestEvolves(msgType, trace, client, ias, secs, clock, log, i, |log|);
    AnswerKept(msgType, trace[0], trace[i + 1], trace[|log|], touched, k, IaNaOf(ias[i]).value, clock(0), clock(2 * i + 1), clock(2 * i + 2), clock(2 * |log|), log[i]);
  }

  lemma WellFormedAt(ias: seq<Bytes>, i: nat)
    requires WellFormedIas(ias) && i < |ias|
    ensures IaNaOf(ias[i]).Some?
  {
  }

  lemma RenderNone(ias: seq<Bytes>, cfg: Config)
    requires WellFormedIas(ias)
    ensures RenderAll(ias, [], cfg) == []
  {
  }

  lemma RenderNext(ias: seq<Bytes>, log: seq<Outcome>, o: Outcome, cfg: Config)
    requires WellFormedIas(ias) && |log| < |ias|
    ensures IaNaOf(ias[|log|]).Some?
    ensures RenderAll(ias, log + [o], cfg) == RenderAll(ias, log, cfg) + Render(IaNaOf(ias[|log|]).value.iaid, o, cfg)
  {
    assert (log + [o])[..|log|] == log;
  }

  method HandleAll(pool: Lease6Pool, msgType: byte, client: Bytes, ias: seq<Bytes>, cfg: Config, clock: nat -> u64)
    returns (options: Options, ghost log: seq<Outcome>, ghost trace: seq<PoolState>)
    requires pool.Valid() && Storable(client) && WellFormedIas(ias)
    requires msgType in {SOLICIT, REQUEST, RENEW, RELEASE}
    requires forall i, j :: i <= j ==> clock(i) <= clock(j)
    modifies pool, pool.leases, pool.offers
    ensures pool.Valid() && pool.leases == old(pool.leases) && pool.offers == old(pool.offers) && pool.leaseSecs == old(pool.leaseSecs)
    ensures |log| == |ias| && options == RenderAll(ias, log, cfg)
    ensures Settled(msgType, trace, client, ias, pool.leaseSecs, clock, log)
    ensures trace[0] == old(pool.State()) && trace[|ias|] == pool.State()
  {
    hide Lease6Pool.Valid, Lease6Pool.State, Evolves, Serves, WellFormedIas, RenderAll, Render, IaNaOf;
    options, log, trace := [], [], [pool.State()];
    RenderNone(ias, cfg);
    for n := 0 to |ias|
      invariant pool.Valid() && pool.leases == old(pool.leases) && pool.offers == old(pool.offers) && pool.leaseSecs == old(pool.leaseSecs)
      invariant |log| == n && options == RenderAll(ias, log, cfg)
      invariant Settled(msgType, trace, client, ias, pool.leaseSecs, clock, log)
      invariant trace[0] == old(pool.State()) && trace[n] == pool.State()
    {
      WellFormedAt(ias, n);
      var part; ghost var o;
      part, o := HandleIa(pool, msgType, client, ias[n], cfg, clock(0), clock(2 * n + 1), clock(2 * n + 2));
      SettleOne(msgType, trace, pool.State(), client, ias, pool.leaseSecs, clock, log, o);
      RenderNext(ias, log, o, cfg);
      options, log, trace := options + part, log + [o], trace + [pool.State()];
    }
  }

  /** The checks a message must pass before any association is looked at. */
  predicate Addressed(req: Message, cfg: Config) {
    && Unique(req.options, OPT_CLIENT_ID).Some? && ValidDuid(Unique(req.options, OPT_CLIENT_ID).value)
    && if req.msgType == SOLICIT then Pick(req.options, OPT_SERVER_ID) == []
       else req.msgType in {REQUEST, RENEW, RELEASE} && Unique(req.options, OPT_SERVER_ID) == Some(cfg.serverDuid)
  }

  /** The checks on the associations themselves. */
  ghost predicate Answerable(req: Message, cfg: Config) {
    && Addressed(req, cfg)
    && var room := ResponseIaCapacity(|Unique(req.options, OPT_CLIENT_ID).value|, cfg, req.msgType);
    && var ias := Pick(req.options, OPT_IA_NA);
    && room.Some? && WellFormedIas(ias) && 0 < |ias| <= room.value
  }

  /** Handles one request; `clock` gives the successive readings of the system clock. */
  method Handle(pool: Lease6Pool, req: Message, cfg: Config, clock: nat -> u64)
    returns (reply: Option<Message>, ghost log: seq<Outcome>, ghost trace: seq<PoolState>)
    requires pool.Valid() && |req.txid| == 3
    requires forall i, j :: i <= j ==> clock(i) <= clock(j)
    modifies pool, pool.leases, pool.offers
    ensures pool.Valid() && pool.leases == old(pool.leases) && pool.offers == old(pool.offers)
    ensures reply.None? ==> pool.State() == old(pool.State())
    ensures req.msgType == INFORMATION_REQUEST ==> reply == InformationReply(req, cfg) && pool.State() == old(pool.State())
    ensures req.msgType != INFORMATION_REQUEST ==> (reply.Some? <==> Answerable(req, cfg))
    ensures req.msgType != INFORMATION_REQUEST && reply.Some? ==>
      var client, ias := Unique(req.options, OPT_CLIENT_ID).value, Pick(req.options, OPT_IA_NA);
      && |log| == |ias| && Settled(req.msgType, trace, client, ias, old(pool.leaseSecs), clock, log)
      && trace[0] == old(pool.State()) && trace[|ias|] == pool.State()
      && reply.value == Message(if req.msgType == SOLICIT then ADVERTISE else REPLY, req.txid,
                                Head(client, cfg) + RenderAll(ias, log, cfg) + Tail(req.msgType, cfg))
      && |Encode(reply.value)| <= MAX_STANDARD_IPV6_UDP_PAYLOAD
  {
    hide Lease6Pool.Valid, Lease6Pool.State, Settled, Split, RenderAll, EncodeOptions;
    log, trace := [], [];
    if req.msgType == INFORMATION_REQUEST {
      return InformationReply(req, cfg), log, trace;
    }
    if !Addressed(req, cfg) {
      return None, log, trace;
    }
    var client := Unique(req.options, OPT_CLIENT_ID).value;
    var ias := Pick(req.options, OPT_IA_NA);
    var room := ResponseIaCapacity(|client|, cfg, req.msgType);
    if room.None? {
      return None, log, trace;
    }
    var count := ValidateIaNas(ias, room.value);
    if count.None? {
      return None, log, trace;
    }
    var answers;
    answers, log, trace := HandleAll(pool, req.msgType, client, ias, cfg, clock);
    var responseType := if req.msgType == SOLICIT then ADVERTISE else REPLY;
    ReplyFits(req.txid, req.msgType, responseType, client, cfg, ias, log);
    reply := Some(Message(responseType, req.txid, Head(client, cfg) + answers + Tail(req.msgType, cfg)));
  }

  /** A settled message leaves every live binding of every other client exactly as it was. */
  lemma OthersUntouched(msgType: byte, trace: seq<PoolState>, client: Bytes, ias: seq<Bytes>, secs: u32, clock: nat -> u64, log: seq<Outcome>, q: IaKey)
    requires Settled(msgType, trace, client, ias, secs, clock, log) && Forward(clock) && q.0 != client
    ensures
      var s0, s, latest := trace[0], trace[|log|], clock(2 * |log|);
      && (q in s.leases ==> q in s0.leases && s.leases[q] == s0.leases[q])
      && (q in s0.leases && s0.leases[q].expiry > latest ==> q in s.leases)
      && (q in s.offers ==> q in s0.offers && s.offers[q] == s0.offers[q])
      && (q in s0.offers && s0.offers[q].expiry > latest ==> q in s.offers)
  {
    hide IaNaOf, Serves;
    SettledEvolves(msgType, trace, client, ias, secs, clock, log, |log|);
    assert q !in OwnKeys(client, ias, |log|);
  }
}
