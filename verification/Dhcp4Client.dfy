/** From a parsed DHCPv4 message to the action it asks for, and what an acknowledgement stands on. */
module Dhcp4Client {
  import opened Basics
  import opened Dhcp4State
  import Wire = Dhcp4Message
  import Safety = Dhcp4Safety
  import Server = Dhcp4Server

  const DISCOVER: byte := 1
  const REQUEST: byte := 3
  const DECLINE: byte := 4
  const RELEASE: byte := 7
  const BROADCAST_FLAG: u16 := 0x8000

  /** An address option: absent, or exactly four octets; anything else is refused. */
  function AddressOption(m: Wire.Message, code: byte): Option<Option<u32>> {
    var raw := Wire.OptionOf(m, code);
    if raw.None? then Some(None) else if |raw.value| == 4 then Some(Some(FromBe32(raw.value))) else None
  }

  function MessageType(m: Wire.Message): Option<byte> {
    var raw := Wire.OptionOf(m, Wire.MSG_TYPE);
    if raw.Some? && |raw.value| == 1 then Some(raw.value[0]) else None
  }

  function Classify(m: Wire.Message, serverIp: u32): Option<Safety.Action> {
    var requested, server, kind := AddressOption(m, Wire.REQUESTED_IP), AddressOption(m, Wire.SERVER_ID), MessageType(m);
    if (m.flags != 0 && m.flags != BROADCAST_FLAG) || m.yiaddr != 0 || m.siaddr != 0 then None
    else if requested.None? || server.None? || kind.None? then None
    else
      var wanted, to := requested.value, server.value;
      if kind.value == DISCOVER && m.ciaddr == 0 && to.None? then Some(Safety.Discover)
      else if kind.value == REQUEST then
        if to.Some? then
          if wanted.Some? && to.value == serverIp && m.ciaddr == 0 then Some(Safety.Request(wanted.value, true)) else None
        else if wanted.Some? then
          if m.ciaddr == 0 then Some(Safety.Request(wanted.value, false)) else None
        else if m.ciaddr != 0 then Some(Safety.Request(m.ciaddr, false))
        else None
      else if kind.value == DECLINE && m.flags == 0 && m.ciaddr == 0 && to == Some(serverIp) then
        if wanted.Some? then Some(Safety.Declining(wanted.value)) else None
      else if kind.value == RELEASE && m.flags == 0 && m.ciaddr != 0 && wanted.None? && to == Some(serverIp) then
        Some(Safety.Releasing(m.ciaddr))
      else None
  }

  /** Who owns the binding: the client identifier if there is one, else the hardware address. */
  function IdentityOf(m: Wire.Message): Identity {
    if m.clientId.Some? then Opaque(m.clientId.value) else Hardware(m.chaddr)
  }

  function SenderOf(m: Wire.Message, host: Option<Host>): Safety.Sender {
    Safety.Sender(IdentityOf(m), m.chaddr, m.xid, host)
  }

  /** A message that names a server is acted on only by that server; every binding named comes from the message itself. */
  lemma ActionIsAddressed(m: Wire.Message, serverIp: u32)
    requires Classify(m, serverIp).Some?
    ensures AddressOption(m, Wire.SERVER_ID) == Some(None) || AddressOption(m, Wire.SERVER_ID) == Some(Some(serverIp))
    ensures
      match Classify(m, serverIp).value
      case Discover => AddressOption(m, Wire.SERVER_ID) == Some(None) && m.ciaddr == 0
      case Request(target, selecting) =>
        && (selecting <==> AddressOption(m, Wire.SERVER_ID) == Some(Some(serverIp)))
        && (if m.ciaddr == 0 then AddressOption(m, Wire.REQUESTED_IP) == Some(Some(target))
            else target == m.ciaddr && !selecting && AddressOption(m, Wire.REQUESTED_IP) == Some(None))
      case Declining(target) => AddressOption(m, Wire.SERVER_ID) == Some(Some(serverIp)) && AddressOption(m, Wire.REQUESTED_IP) == Some(Some(target))
      case Releasing(target) => AddressOption(m, Wire.SERVER_ID) == Some(Some(serverIp)) && target == m.ciaddr != 0
  {
    hide AddressOption, MessageType;
  }

  /** A well-formed message of the type given, with the options and address it carries. */
  predicate Carries(m: Wire.Message, kind: byte, requested: Option<u32>, server: Option<u32>, ciaddr: u32) {
    && (m.flags == 0 || m.flags == 0x8000) && m.yiaddr == 0 && m.siaddr == 0 && m.ciaddr == ciaddr
    && Wire.OptionOf(m, 53) == Some([kind]) && Names(m, 50, requested) && Names(m, 54, server)
  }

  /** The option is absent, or is exactly the four octets of the address. */
  predicate Names(m: Wire.Message, code: byte, address: Option<u32>) {
    Wire.OptionOf(m, code) == if address.Some? then Some(ToBe32(address.value)) else None
  }

  /** Which messages lead to which action (table 5 of RFC 2131); every other message is passed over. */
  lemma ClassifyLaw(m: Wire.Message, me: u32, a: Safety.Action)
    ensures Classify(m, me) == Some(a) <==>
      match a
      case Discover => exists wanted :: Carries(m, 1, wanted, None, 0)
      case Request(target, selecting) =>
        if selecting then Carries(m, 3, Some(target), Some(me), 0)
        else Carries(m, 3, Some(target), None, 0) || (target != 0 && Carries(m, 3, None, None, target))
      case Declining(target) => m.flags == 0 && Carries(m, 4, Some(target), Some(me), 0)
      case Releasing(target) => m.flags == 0 && target != 0 && Carries(m, 7, None, Some(me), target)
  {
    hide Wire.OptionOf, FromBe32, ToBe32;
    OptionIs(m, 50);
    OptionIs(m, 54);
    TypeIs(m);
    if a.Discover? && Classify(m, me) == Some(a) {
      assert Carries(m, 1, AddressOption(m, 50).value, None, 0);
    }
  }

  lemma TypeIs(m: Wire.Message)
    ensures forall kind :: MessageType(m) == Some(kind) <==> Wire.OptionOf(m, 53) == Some([kind])
  {
    var raw := Wire.OptionOf(m, 53);
    if raw.Some? && |raw.value| == 1 {
      assert raw.value == [raw.value[0]];
    }
  }

  /** Reading an address option and writing it are inverse to each other. */
  lemma OptionIs(m: Wire.Message, code: byte)
    ensures forall address: Option<u32> :: AddressOption(m, code) == Some(address) <==> Names(m, code, address)
  {
    hide Wire.OptionOf;
    var raw := Wire.OptionOf(m, code);
    forall address: Option<u32>
      ensures AddressOption(m, code) == Some(address) <==> Names(m, code, address)
    {
      if address.Some? {
        Be32RoundTrip(address.value);
      }
      if raw.Some? && |raw.value| == 4 {
        Be32Back(raw.value);
      }
    }
  }

  lemma Be32Back(b: Bytes)
    requires |b| == 4
    ensures ToBe32(FromBe32(b)) == b
  {
  }

  /** One client message against the pool. A message for somebody else leaves the pool as it is. */
  method HandleMessage(pool: Server.LeasePool, m: Wire.Message, serverIp: u32, host: Option<Host>, t1: u64, t2: u64, t3: u64)
    returns (reply: Safety.Reply, ghost picked: Option<u32>)
    requires pool.Valid()
    modifies pool
    ensures pool.Valid()
    ensures
      var action := Classify(m, serverIp);
      if action.None? then reply == Safety.NoReply && pool.State() == old(pool.State())
      else
        var id := if m.clientId.Some? then Opaque(m.clientId.value) else Hardware(m.chaddr);
        Safety.Handles(old(pool.State()), Safety.Sender(id, m.chaddr, m.xid, host), action.value, pool.leaseSecs, t1, t2, t3, picked, reply, pool.State())
  {
    hide Classify, Server.Sound, Safety.Handles;
    var action := Classify(m, serverIp);
    if action.None? {
      return Safety.NoReply, None;
    }
    reply, picked := pool.Handle(SenderOf(m, host), action.value, t1, t2, t3);
  }

  // ------------------------------------------------------------------ what replies mean

  /** An acknowledged address is the one asked for, is now leased to the client, was nobody else's, and, when selecting, had been offered under this transaction. */
  lemma AckIsBacked(s: Pool4, from: Safety.Sender, target: u32, selecting: bool, secs: u32, t1: u64, t2: u64, t3: u64, ip: u32)
    requires Safety.HandleRequest(s, from, target, selecting, secs, t1, t2, t3).0 == Safety.Ack(ip)
    ensures
      var s' := Safety.HandleRequest(s, from, target, selecting, secs, t1, t2, t3).1;
      && ip == target && from.id in s'.leases && s'.leases[from.id].ip == ip && s'.leases[from.id].expiry == LeaseExpiry(t3, secs)
      && from.id !in s'.offers
      && (from.id in s.reservations ==> s.reservations[from.id].ip == ip)
      && (from.id !in s.reservations ==> s.net.InRange(ip))
    ensures selecting ==> from.id in s.offers && s.offers[from.id].ip == ip && s.offers[from.id].xid == from.xid && s.offers[from.id].expiry > t1
  {
    hide Pool4.UsedByOther, ValidHost, LeaseHost;
  }

  /** `id` keeps what it has beyond time `t`, and gains nothing. */
  ghost predicate Keeps(s: Pool4, s': Pool4, id: Identity, t: u64) {
    && (id in s.leases && s.leases[id].expiry > t ==> id in s'.leases && s'.leases[id] == s.leases[id])
    && (id in s.offers && s.offers[id].expiry > t ==> id in s'.offers && s'.offers[id] == s.offers[id])
    && (id in s'.leases ==> id in s.leases && s'.leases[id] == s.leases[id])
    && (id in s'.offers ==> id in s.offers && s'.offers[id] == s.offers[id])
    && s'.reservations == s.reservations && s'.net == s.net && s'.declined.Keys <= s.declined.Keys
  }

  lemma CleanedKeeps(s: Pool4, id: Identity, now: u64, t: u64)
    requires now <= t
    ensures Keeps(s, s.Cleaned(now), id, t)
  {
  }

  lemma KeepsTrans(a: Pool4, b: Pool4, c: Pool4, id: Identity, t: u64)
    requires Keeps(a, b, id, t) && Keeps(b, c, id, t)
    ensures Keeps(a, c, id, t)
  {
  }

  lemma CommitKeeps(s: Pool4, who: Identity, mac: Bytes, ip: u32, host: Option<Host>, secs: u32, now: u64, id: Identity)
    requires id != who
    ensures Keeps(s, Commit(s, who, mac, ip, host, secs, now).1, id, now)
  {
    hide ValidHost, LeaseHost, Pool4.Dynamic, Pool4.Cleaned, LeaseExpiry;
    var c := s.Cleaned(now);
    CleanedKeeps(s, id, now, now);
  }

  /** Whatever the answer to a request, other clients keep the leases and offers that have not expired. */
  lemma RequestTouchesOnlySender(s: Pool4, from: Safety.Sender, target: u32, selecting: bool, secs: u32, t1: u64, t2: u64, t3: u64, id: Identity)
    requires t1 <= t2 <= t3 && id != from.id
    ensures Keeps(s, Safety.HandleRequest(s, from, target, selecting, secs, t1, t2, t3).1, id, t3)
  {
    hide Acceptable, Commit, Pool4.Cleaned;
    CleanedKeeps(s, id, t1, t3);
    var s1 := if selecting then ConsumeOffer(s, from.id, from.xid, target, t1).1 else s;
    var s2 := s1.Cleaned(t2);
    CleanedKeeps(s1, id, t2, t3);
    KeepsTrans(s, s1, s2, id, t3);
    CommitKeeps(s2, from.id, from.mac, target, from.host, secs, t3, id);
    KeepsTrans(s, s2, Commit(s2, from.id, from.mac, target, from.host, secs, t3).1, id, t3);
  }
}
