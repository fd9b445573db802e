/**
 What the DHCPv4 server answers and leaves behind, said of who has which address until when
 and of nothing else: when a request is confirmed, when an address is offered, what a client
 gives up, what the operator and the peer node can change.
 */
module Dhcp4Laws {
  import opened Basics
  import opened Dhcp4State
  import opened Dhcp4Safety
  import Sync = Dhcp4Sync

  // ------------------------------------------------------------------ who has what at time `t`

  predicate Leased(s: Pool4, id: Identity, t: u64) {
    id in s.leases && s.leases[id].expiry > t
  }

  predicate Offered(s: Pool4, id: Identity, t: u64) {
    id in s.offers && s.offers[id].expiry > t
  }

  predicate Resting(s: Pool4, ip: u32, t: u64) {
    ip in s.declined && s.declined[ip] > t
  }

  /** Addresses of the server, the gateway, the network and the broadcast. */
  predicate Service(net: Net, ip: u32) {
    ip == net.server || ip == net.router || ip == And32(net.server, net.mask) || ip == Or32(And32(net.server, net.mask), U32_MAX - net.mask)
  }

  /** Someone or something other than the client's own bindings names the address. */
  ghost predicate Contested(s: Pool4, id: Identity, ip: u32, t: u64) {
    || (exists x :: x != id && Leased(s, x, t) && s.leases[x].ip == ip)
    || (exists x :: x != id && Offered(s, x, t) && s.offers[x].ip == ip)
    || (exists x :: x != id && x in s.reservations && s.reservations[x].ip == ip)
    || Resting(s, ip, t)
    || (s.net.start <= ip <= s.net.end && Service(s.net, ip))
  }

  /** The client's reserved address, or any address of the range for a client without one. */
  predicate Entitled(s: Pool4, id: Identity, ip: u32) {
    if id in s.reservations then s.reservations[id].ip == ip else s.net.start <= ip <= s.net.end
  }

  /** Absent, or 1 to 255 bytes without spaces and control characters. */
  predicate Storable(host: Option<Host>) {
    host.None? || (1 <= |host.value| <= 255 && forall b :: b in host.value ==> !(0 <= b <= 0x20) && b != 0x7F)
  }

  /** Leases, offers and resting addresses at time `t`, leaving out the bindings named. */
  ghost function Entries(s: Pool4, t: u64, lease: set<Identity>, offer: set<Identity>): nat {
    |LiveLeases(s, t, lease)| + |LiveOffers(s, t, offer)| + |RestingNow(s, t)|
  }

  // ------------------------------------------------------------------ states compared

  /** `s'` has exactly the leases of `s` that last beyond `t`, but for client `id`. */
  ghost predicate LeasesLeft(s: Pool4, s': Pool4, t: u64, id: Identity) {
    forall x :: x != id ==> (x in s'.leases <==> Leased(s, x, t)) && (x in s'.leases ==> s'.leases[x] == s.leases[x])
  }

  ghost predicate OffersLeft(s: Pool4, s': Pool4, t: u64, id: Identity) {
    forall x :: x != id ==> (x in s'.offers <==> Offered(s, x, t)) && (x in s'.offers ==> s'.offers[x] == s.offers[x])
  }

  ghost predicate DeclinedLeft(s: Pool4, s': Pool4, t: u64) {
    forall ip :: (ip in s'.declined <==> Resting(s, ip, t)) && (ip in s'.declined ==> s'.declined[ip] == s.declined[ip])
  }

  predicate SameSetup(s: Pool4, s': Pool4) {
    s'.net == s.net && s'.reservations == s.reservations
  }

  /** Everything but the bindings of `id` is what lasts beyond `t`. */
  ghost predicate Others(s: Pool4, s': Pool4, t: u64, id: Identity) {
    SameSetup(s, s') && LeasesLeft(s, s', t, id) && OffersLeft(s, s', t, id) && DeclinedLeft(s, s', t)
  }

  predicate OwnLeaseLeft(s: Pool4, s': Pool4, t: u64, id: Identity) {
    (id in s'.leases <==> Leased(s, id, t)) && (id in s'.leases ==> s'.leases[id] == s.leases[id])
  }

  predicate OwnOfferLeft(s: Pool4, s': Pool4, t: u64, id: Identity) {
    (id in s'.offers <==> Offered(s, id, t)) && (id in s'.offers ==> s'.offers[id] == s.offers[id])
  }

  /** Everything is what lasts beyond `t`, except that the client's offer may be spent. */
  ghost predicate Rest(s: Pool4, s': Pool4, t: u64, id: Identity, spent: bool) {
    Others(s, s', t, id) && OwnLeaseLeft(s, s', t, id) && if spent then id !in s'.offers else OwnOfferLeft(s, s', t, id)
  }

  /** Nothing is new, and what lasts beyond `t` is still there, except that the client's offer may be spent. */
  ghost predicate Lingers(s: Pool4, s': Pool4, t: u64, id: Identity, spent: bool) {
    && SameSetup(s, s')
    && (forall x :: x in s'.leases ==> x in s.leases && s'.leases[x] == s.leases[x]) && (forall x :: Leased(s, x, t) ==> x in s'.leases)
    && (forall x :: x in s'.offers ==> x in s.offers && s'.offers[x] == s.offers[x])
    && (forall x :: Offered(s, x, t) && (x != id || !spent) ==> x in s'.offers) && (spent ==> id !in s'.offers)
    && (forall ip :: ip in s'.declined ==> ip in s.declined && s'.declined[ip] == s.declined[ip]) && (forall ip :: Resting(s, ip, t) ==> ip in s'.declined)
  }

  // ------------------------------------------------------------------ cleaning and counting

  lemma CleanedRest(s: Pool4, t: u64, id: Identity)
    ensures Rest(s, s.Cleaned(t), t, id, false)
  {
  }

  lemma RestCleaned(s: Pool4, s': Pool4, t: u64, id: Identity, spent: bool, u: u64)
    requires Rest(s, s', t, id, spent)
    ensures Rest(s, s'.Cleaned(u), Max(t, u), id, spent)
  {
  }

  lemma RestSpent(s: Pool4, s': Pool4, t: u64, id: Identity)
    requires Rest(s, s', t, id, false)
    ensures Rest(s, s'.(offers := s'.offers - {id}), t, id, true)
  {
  }

  lemma RestLingers(s: Pool4, s': Pool4, t: u64, id: Identity, spent: bool, u: u64)
    requires Rest(s, s', t, id, spent) && t <= u
    ensures Lingers(s, s', u, id, spent)
  {
    assert forall x :: Leased(s, x, u) ==> Leased(s, x, t);
    assert forall x :: Offered(s, x, u) ==> Offered(s, x, t);
    assert forall ip :: Resting(s, ip, u) ==> Resting(s, ip, t);
  }

  lemma SelfLingers(s: Pool4, u: u64, id: Identity)
    ensures Lingers(s, s, u, id, false)
  {
  }

  ghost function LiveLeases(s: Pool4, t: u64, but: set<Identity>): set<Identity> {
    set x | x in s.leases && Leased(s, x, t) && x !in but
  }

  ghost function LiveOffers(s: Pool4, t: u64, but: set<Identity>): set<Identity> {
    set x | x in s.offers && Offered(s, x, t) && x !in but
  }

  ghost function RestingNow(s: Pool4, t: u64): set<u32> {
    set ip | ip in s.declined && Resting(s, ip, t)
  }

  lemma RestKeys(s: Pool4, s': Pool4, t: u64, id: Identity, spent: bool)
    requires Rest(s, s', t, id, spent)
    ensures s'.leases.Keys == LiveLeases(s, t, {}) && s'.declined.Keys == RestingNow(s, t)
    ensures LiveLeases(s, t, {id}) == LiveLeases(s, t, {}) - {id}
    ensures s'.offers.Keys - {id} == LiveOffers(s, t, {id}) && (!spent ==> s'.offers.Keys == LiveOffers(s, t, {}))
  {
    forall x
      ensures x in s'.leases.Keys <==> x in LiveLeases(s, t, {})
      ensures x in s'.offers.Keys - {id} <==> x in LiveOffers(s, t, {id})
      ensures !spent ==> (x in s'.offers.Keys <==> x in LiveOffers(s, t, {}))
    {
      assert x != id ==> (x in s'.leases <==> Leased(s, x, t)) && (x in s'.offers <==> Offered(s, x, t));
    }
  }

  /** What the pool counts against its limit. */
  lemma RestCount(s: Pool4, s': Pool4, t: u64, id: Identity, spent: bool)
    requires Rest(s, s', t, id, spent)
    ensures s'.Dynamic() - Count(id in s'.offers) == Entries(s, t, {}, {id})
    ensures !spent ==> s'.Dynamic() == Entries(s, t, {}, {})
    ensures !spent ==> s'.Dynamic() - Count(id in s'.leases) - Count(id in s'.offers) == Entries(s, t, {id}, {id})
  {
    hide Rest, LiveLeases, LiveOffers, RestingNow;
    RestKeys(s, s', t, id, spent);
    Without(s'.leases.Keys, id);
    Without(s'.offers.Keys, id);
    assert |s'.leases| == |s'.leases.Keys| && |s'.offers| == |s'.offers.Keys| && |s'.declined| == |s'.declined.Keys|;
  }

  lemma Without(all: set<Identity>, id: Identity)
    ensures |all - {id}| == |all| - Count(id in all)
  {
    assert id !in all ==> all - {id} == all;
  }

  lemma HostIsStorable(host: Option<Host>)
    ensures ValidHost(host) <==> Storable(host)
  {
    if host.Some? {
      var h := host.value;
      assert forall i :: 0 <= i < |h| ==> h[i] in h;
    }
  }

  // ------------------------------------------------------------------ competing claims

  /** The scan finds another claim exactly when somebody else's binding, a rest or a service names the address. */
  lemma UsedIff(c: Pool4, id: Identity, ip: u32)
    ensures c.UsedByOther(id, ip) <==> !FreeFor(c, id, ip) || (c.net.start <= ip <= c.net.end && Service(c.net, ip))
  {
    hide Pool4.Claims, FreeFor;
    ServiceIs(c.net, ip);
    if !c.UsedByOther(id, ip) {
      NotUsedByOther(c, id, ip);
    } else {
      var claim :| claim in c.Claims(ip) - c.Own(id);
      ClaimsAre(c, ip, claim);
      OtherClaim(c, id, ip, claim);
    }
  }

  lemma OtherClaim(c: Pool4, id: Identity, ip: u32, claim: Claim)
    requires Holds(c, ip, claim) && claim !in c.Own(id)
    ensures !FreeFor(c, id, ip) || (c.net.InRange(ip) && ip in c.net.Services())
  {
    hide Net.Services;
  }

  lemma ServiceIs(net: Net, ip: u32)
    ensures ip in net.Services() <==> Service(net, ip)
  {
    hide And32, Or32;
    var l := net.Services();
    assert l[0] == net.server && l[1] == net.router && l[2] == net.Network() && l[3] == net.Broadcast();
  }

  lemma ContestedIff(s: Pool4, c: Pool4, t: u64, id: Identity, spent: bool, ip: u32)
    requires Rest(s, c, t, id, spent)
    ensures Acceptable(c, id, ip) <==> Entitled(s, id, ip) && !Contested(s, id, ip, t)
  {
    hide Pool4.UsedByOther, Service;
    UsedIff(c, id, ip);
    FreeIff(s, c, t, id, ip);
  }

  lemma FreeIff(s: Pool4, c: Pool4, t: u64, id: Identity, ip: u32)
    requires Others(s, c, t, id)
    ensures FreeFor(c, id, ip) && !(s.net.start <= ip <= s.net.end && Service(s.net, ip)) <==> !Contested(s, id, ip, t)
  {
    hide Service;
    assert forall x :: x != id ==> (x in c.leases <==> Leased(s, x, t));
    assert forall x :: x != id ==> (x in c.offers <==> Offered(s, x, t));
  }

  // ------------------------------------------------------------------ requests

  /** The client has been offered this address in this transaction, and the offer stands. */
  predicate Matched(s: Pool4, from: Sender, target: u32, t: u64) {
    Offered(s, from.id, t) && s.offers[from.id].ip == target && s.offers[from.id].xid == from.xid
  }

  /** The latest of the times read so far. */
  function Second(selecting: bool, t1: u64, t2: u64): u64 {
    if selecting then Max(t1, t2) else t2
  }

  function Third(selecting: bool, t1: u64, t2: u64, t3: u64): u64 {
    Max(Second(selecting, t1, t2), t3)
  }

  /** When a request is to be confirmed. */
  ghost predicate Confirmable(s: Pool4, from: Sender, target: u32, selecting: bool, t1: u64, t2: u64, t3: u64) {
    && (selecting ==> Matched(s, from, target, t1))
    && Entitled(s, from.id, target) && !Contested(s, from.id, target, Second(selecting, t1, t2))
    && Storable(from.host)
    && var t := Third(selecting, t1, t2, t3); Leased(s, from.id, t) || Entries(s, t, {}, {from.id}) < 100_000
  }

  /** The reserved name, else the one sent, else that of the lease the client had. */
  function RecordedHost(s: Pool4, from: Sender, t: u64): Option<Host> {
    if from.id in s.reservations && s.reservations[from.id].host.Some? then s.reservations[from.id].host
    else if from.host.Some? then from.host
    else if Leased(s, from.id, t) then s.leases[from.id].host else None
  }

  /** When a lease granted at `t` ends; all ones means never. */
  function LeaseEnd(t: u64, secs: u32): u64 {
    if secs == 0xFFFF_FFFF then 0xFFFF_FFFF_FFFF_FFFF else Min(t + secs, 0xFFFF_FFFF_FFFF_FFFF)
  }

  /** The client has the lease, its offer is spent, and the rest is what has not expired. */
  ghost predicate Confirmed(s: Pool4, s': Pool4, from: Sender, target: u32, secs: u32, t2: u64, t3: u64, now: u64) {
    && Others(s, s', t3, from.id) && from.id !in s'.offers
    && from.id in s'.leases && s'.leases[from.id] == Lease(from.mac, target, LeaseEnd(now, secs), RecordedHost(s, from, t2))
  }

  /** A request is confirmed exactly when it can be; any other is refused and costs the client at most the offer it asked for. */
  lemma RequestLaw(s: Pool4, from: Sender, target: u32, selecting: bool, secs: u32, t1: u64, t2: u64, t3: u64)
    ensures
      var (reply, s') := HandleRequest(s, from, target, selecting, secs, t1, t2, t3);
      var u2, u3 := Second(selecting, t1, t2), Third(selecting, t1, t2, t3);
      if Confirmable(s, from, target, selecting, t1, t2, t3) then reply == Ack(target) && Confirmed(s, s', from, target, secs, u2, u3, t3)
      else reply == Nak && Lingers(s, s', u3, from.id, selecting && Matched(s, from, target, t1))
  {
    hide Pool4.Cleaned, Rest, Lingers, Contested, Acceptable, Commit, Confirmed, Storable, Entries;
    var id, u2, u3 := from.id, Second(selecting, t1, t2), Third(selecting, t1, t2, t3);
    var s1 := if selecting then ConsumeOffer(s, id, from.xid, target, t1).1 else s;
    var spent := selecting && Matched(s, from, target, t1);
    AfterOffer(s, from, target, t1);
    SelfLingers(s, u3, id);
    CleanedRest(s, t2, id);
    if selecting {
      RestLingers(s, s1, t1, id, spent, u3);
      RestCleaned(s, s1, t1, id, spent, t2);
    }
    SetupStays(s, s1, t1, id, spent, selecting);
    if (selecting ==> spent) && !(id in s.reservations && s.reservations[id].ip != target) {
      AfterScan(s, s1.Cleaned(t2), from, target, spent, secs, u2, t3);
    }
  }

  /** Looking for the offer keeps everything that has not expired, and spends the offer if it is the one. */
  lemma AfterOffer(s: Pool4, from: Sender, target: u32, t1: u64)
    ensures
      var (offered, s1) := ConsumeOffer(s, from.id, from.xid, target, t1);
      offered == Matched(s, from, target, t1) && Rest(s, s1, t1, from.id, offered)
  {
    hide Rest;
    CleanedRest(s, t1, from.id);
    OwnAfter(s, s.Cleaned(t1), t1, from.id, false);
    RestSpent(s, s.Cleaned(t1), t1, from.id);
  }

  lemma OwnAfter(s: Pool4, s': Pool4, t: u64, id: Identity, spent: bool)
    requires Rest(s, s', t, id, spent)
    ensures SameSetup(s, s') && OwnLeaseLeft(s, s', t, id) && (!spent ==> OwnOfferLeft(s, s', t, id))
  {
  }

  lemma SetupStays(s: Pool4, s1: Pool4, t1: u64, id: Identity, spent: bool, cleaned: bool)
    requires if cleaned then Rest(s, s1, t1, id, spent) else s1 == s
    ensures SameSetup(s, s1)
  {
  }

  /** From the scan for competing claims on; `s2` is what the scan left. */
  lemma AfterScan(s: Pool4, s2: Pool4, from: Sender, target: u32, spent: bool, secs: u32, u2: u64, t3: u64)
    requires Rest(s, s2, u2, from.id, spent)
    ensures
      var (ok, s3) := Commit(s2, from.id, from.mac, target, from.host, secs, t3);
      var u3 := Max(u2, t3);
      var good := Entitled(s, from.id, target) && !Contested(s, from.id, target, u2);
      && (Acceptable(s2, from.id, target) <==> good)
      && Lingers(s, s2, u3, from.id, spent)
      && (ok <==> Storable(from.host) && (Leased(s, from.id, u3) || Entries(s, u3, {}, {from.id}) < 100_000))
      && (if ok then Confirmed(s, s3, from, target, secs, u2, u3, t3) else Lingers(s, s3, u3, from.id, spent))
  {
    hide Pool4.Cleaned, Pool4.Dynamic, Rest, Lingers, Contested, Acceptable, Confirmed, Storable, Entries, ValidHost;
    var id, u3 := from.id, Max(u2, t3);
    ContestedIff(s, s2, u2, id, spent, target);
    RestLingers(s, s2, u2, id, spent, u3);
    RestCleaned(s, s2, u2, id, spent, t3);
    HostIsStorable(from.host);
    var c := s2.Cleaned(t3);
    RestLingers(s, c, u3, id, spent, u3);
    RestCount(s, c, u3, id, spent);
    OwnAfter(s, c, u3, id, spent);
    OwnAfter(s, s2, u2, id, spent);
    if ValidHost(from.host) {
      var lease := Lease(from.mac, target, LeaseExpiry(t3, secs), LeaseHost(s2, id, from.host));
      PutConfirms(s, c, from, target, secs, spent, u2, u3, t3, lease);
    }
  }

  lemma PutConfirms(s: Pool4, c: Pool4, from: Sender, target: u32, secs: u32, spent: bool, u2: u64, t: u64, now: u64, lease: Lease)
    requires Rest(s, c, t, from.id, spent) && lease == Lease(from.mac, target, LeaseEnd(now, secs), RecordedHost(s, from, u2))
    ensures Confirmed(s, c.(leases := c.leases[from.id := lease], offers := c.offers - {from.id}), from, target, secs, u2, t, now)
  {
  }

  // ------------------------------------------------------------------ offers

  /** Addresses that may be offered: the reserved one, else the one offered or leased already, else any free one while there is room. */
  ghost predicate Suits(s: Pool4, id: Identity, t: u64, ip: u32) {
    if id in s.reservations then ip == s.reservations[id].ip
    else if Offered(s, id, t) then ip == s.offers[id].ip
    else if Leased(s, id, t) then ip == s.leases[id].ip
    else Entries(s, t, {}, {}) < 100_000 && s.net.start <= ip <= s.net.end && !Contested(s, id, ip, t)
  }

  /** The latest time read when the offer is recorded; a reserved address is not looked for. */
  function OfferTime(s: Pool4, id: Identity, t1: u64, t2: u64): u64 {
    if id in s.reservations then t2 else Max(t1, t2)
  }

  /** There is room for the offer when it is recorded. */
  ghost predicate Recordable(s: Pool4, id: Identity, t: u64) {
    Offered(s, id, t) || Entries(s, t, {}, {}) < 100_000
  }

  /** A client that asks is offered an address that suits, recorded for a minute, unless there is none or no room. */
  lemma DiscoverLaw(s: Pool4, from: Sender, secs: u32, t1: u64, t2: u64, t3: u64, picked: Option<u32>, reply: Reply, s': Pool4)
    requires Handles(s, from, Discover, secs, t1, t2, t3, picked, reply, s')
    ensures
      var id, u := from.id, OfferTime(s, from.id, t1, t2);
      match reply
      case Offers4(ip) =>
        && Suits(s, id, t1, ip) && Others(s, s', u, id) && OwnLeaseLeft(s, s', u, id)
        && id in s'.offers && s'.offers[id] == Offer(ip, from.xid, Min(t2 + 60, 0xFFFF_FFFF_FFFF_FFFF))
      case NoReply => Lingers(s, s', u, id, false) && ((forall ip: u32 :: !Suits(s, id, t1, ip)) || !Recordable(s, id, u))
      case _ => false
    ensures reply.Offers4? ==> Recordable(s, from.id, OfferTime(s, from.id, t1, t2))
  {
    hide Pool4.Cleaned, Pool4.Claims, Rest, Lingers, Contested, Entries, Suits, Recordable, Allocates, HoldOffer;
    var id, u := from.id, OfferTime(s, from.id, t1, t2);
    var m := if id in s.reservations then s else s.Cleaned(t1);
    SelfLingers(s, u, id);
    CleanedRest(s, t1, id);
    CleanedRest(s, t2, id);
    if id !in s.reservations {
      RestLingers(s, m, t1, id, false, u);
      RestCleaned(s, m, t1, id, false, t2);
    }
    AllocatedSuits(s, id, t1, picked, m);
    if picked.Some? {
      HeldIs(s, m, id, from.xid, picked.value, t2, u);
    }
  }

  lemma HeldIs(s: Pool4, m: Pool4, id: Identity, xid: u32, ip: u32, t2: u64, u: u64)
    requires Rest(s, m.Cleaned(t2), u, id, false)
    ensures
      var (ok, s') := HoldOffer(m, id, xid, ip, t2);
      && (ok <==> Recordable(s, id, u))
      && (if ok then Others(s, s', u, id) && OwnLeaseLeft(s, s', u, id) && id in s'.offers && s'.offers[id] == Offer(ip, xid, Min(t2 + 60, 0xFFFF_FFFF_FFFF_FFFF))
          else Lingers(s, s', u, id, false))
  {
    hide Pool4.Cleaned, Lingers, Entries, Pool4.Dynamic;
    RestCount(s, m.Cleaned(t2), u, id, false);
    RestLingers(s, m.Cleaned(t2), u, id, false, u);
  }

  /** What the search yields suits, and it yields something whenever anything does. */
  lemma AllocatedSuits(s: Pool4, id: Identity, t: u64, picked: Option<u32>, m: Pool4)
    requires Allocates(s, id, t, picked, m)
    ensures picked.Some? ==> Suits(s, id, t, picked.value)
    ensures picked.None? ==> forall ip: u32 :: !Suits(s, id, t, ip)
  {
    hide Pool4.Cleaned, Pool4.Claims, Rest, Contested, Entries;
    if id !in s.reservations {
      CleanedRest(s, t, id);
      OwnAfter(s, m, t, id, false);
      RestCount(s, m, t, id, false);
      if !Offered(s, id, t) && !Leased(s, id, t) {
        forall ip: u32
          ensures s.net.start <= ip <= s.net.end ==> (m.Claims(ip) == {} <==> !Contested(s, id, ip, t))
        {
          ContestedIff(s, m, t, id, false, ip);
          NothingOwn(m, id, ip);
        }
      }
    }
  }

  lemma NothingOwn(c: Pool4, id: Identity, ip: u32)
    requires id !in c.leases && id !in c.offers && id !in c.reservations
    ensures c.Claims(ip) == {} <==> !c.UsedByOther(id, ip)
  {
    hide Pool4.Claims;
    ClaimsAre(c, ip, ByLease(id));
    ClaimsAre(c, ip, ByOffer(id));
    ClaimsAre(c, ip, ByReservation(id));
    assert c.Claims(ip) - c.Own(id) == c.Claims(ip);
  }

  // ------------------------------------------------------------------ what a client gives up

  predicate Has(s: Pool4, id: Identity, ip: u32, t: u64) {
    (Offered(s, id, t) && s.offers[id].ip == ip) || (Leased(s, id, t) && s.leases[id].ip == ip)
  }

  /** `s'` has exactly the resting addresses of `s`, and `ip` until the time given. */
  ghost predicate RestsUntil(s: Pool4, s': Pool4, t: u64, ip: u32, until: u64) {
    && ip in s'.declined && s'.declined[ip] == until
    && forall other :: other != ip ==> (other in s'.declined <==> Resting(s, other, t)) && (other in s'.declined ==> s'.declined[other] == s.declined[other])
  }

  /** The client has nothing left; the others have what has not expired. */
  ghost predicate GaveUp(s: Pool4, s': Pool4, t: u64, id: Identity) {
    SameSetup(s, s') && LeasesLeft(s, s', t, id) && OffersLeft(s, s', t, id) && id !in s'.leases && id !in s'.offers
  }

  lemma ForgottenGaveUp(s: Pool4, c: Pool4, t: u64, id: Identity, declined: map<u32, u64>)
    requires Rest(s, c, t, id, false)
    ensures GaveUp(s, Forgotten(c, id).(declined := declined), t, id)
  {
  }

  /** An own address of the range rests for ten minutes after its owner declined it, and the owner has nothing left; only a full pool leaves things as they are. */
  lemma DeclineLaw(s: Pool4, id: Identity, ip: u32, t: u64)
    ensures
      var s' := Decline(s, id, ip, t);
      var own, room := Has(s, id, ip, t), Resting(s, ip, t) || Entries(s, t, {id}, {id}) < 100_000;
      && (if own && !room then Rest(s, s', t, id, false) else GaveUp(s, s', t, id))
      && (if own && room && s.net.start <= ip <= s.net.end then RestsUntil(s, s', t, ip, Min(t + 600, 0xFFFF_FFFF_FFFF_FFFF)) else DeclinedLeft(s, s', t))
  {
    hide Pool4.Cleaned, Pool4.Dynamic, Entries, LeasesLeft, OffersLeft, GaveUp;
    CleanedRest(s, t, id);
    var c := s.Cleaned(t);
    RestCount(s, c, t, id, false);
    var until := SaturatingAdd64(t, DECLINE_SECS);
    ForgottenGaveUp(s, c, t, id, c.declined[ip := until]);
    ForgottenGaveUp(s, c, t, id, c.declined);
    var d := Forgotten(c, id);
    assert d.(declined := d.declined) == d;
  }

  /** A released lease is gone; nothing else changes, and nothing at all for another address. */
  lemma ReleaseLaw(s: Pool4, id: Identity, ip: u32)
    ensures
      var s' := Release(s, id, ip);
      && SameSetup(s, s') && s'.offers == s.offers && s'.declined == s.declined
      && (forall x :: x != id ==> (x in s'.leases <==> x in s.leases) && (x in s.leases ==> s'.leases[x] == s.leases[x]))
      && (id in s'.leases <==> id in s.leases && s.leases[id].ip != ip) && (id in s'.leases ==> s'.leases[id] == s.leases[id])
  {
  }

  // ------------------------------------------------------------------ the operator and the peer node

  /** An address of the network that serves nothing, is nobody else's by reservation, with a name that can be stored and room in the table. */
  ghost predicate MayReserve(s: Pool4, id: Identity, ip: u32, host: Option<Host>) {
    && Storable(host) && And32(ip, s.net.mask) == And32(s.net.server, s.net.mask) && !Service(s.net, ip)
    && (forall x :: x != id && x in s.reservations ==> s.reservations[x].ip != ip)
    && (id in s.reservations || |s.reservations| < 100_000)
  }

  /** A reservation is made exactly when it may be; it ends the live leases of others at the address, and nothing else. */
  lemma ReserveLaw(s: Pool4, id: Identity, ip: u32, host: Option<Host>, t: u64)
    ensures
      var (ok, s') := AddReservation(s, id, ip, host, t);
      && (ok <==> MayReserve(s, id, ip, host)) && (!ok ==> s' == s)
      && s'.net == s.net && s'.offers == s.offers && s'.declined == s.declined
      && (ok ==>
            && s'.reservations == s.reservations[id := Reservation(ip, host)]
            && (forall x :: x in s'.leases ==> x in s.leases && s'.leases[x] == s.leases[x])
            && (forall x :: x in s.leases ==> (x in s'.leases <==> !(x != id && Leased(s, x, t) && s.leases[x].ip == ip))))
  {
    hide ValidHost, Storable, And32, Net.Services, Service;
    HostIsStorable(host);
    ServiceIs(s.net, ip);
  }

  lemma UnreserveLaw(s: Pool4, id: Identity)
    ensures
      var (had, s') := RemoveReservation(s, id);
      && (had <==> id in s.reservations) && s'.net == s.net && s'.leases == s.leases && s'.offers == s.offers && s'.declined == s.declined
      && id !in s'.reservations && s'.reservations == s.reservations - {id}
  {
  }

  /** When a lease of the peer node is taken. */
  ghost predicate MayTake(s: Pool4, id: Identity, l: Lease, t: u64) {
    && Storable(l.host) && l.expiry > t && Entitled(s, id, l.ip) && !Contested(s, id, l.ip, t)
    && !(Leased(s, id, t) && s.leases[id].ip == l.ip && s.leases[id].expiry >= l.expiry)
    && (Leased(s, id, t) || Entries(s, t, {}, {id}) < 100_000)
  }

  /** A lease of the peer node is taken as it is, in place of the client's own bindings, exactly when it may be. */
  lemma TakeLaw(s: Pool4, id: Identity, l: Lease, t: u64)
    ensures
      var (ok, s') := Insert(s, id, l, t);
      && (ok <==> MayTake(s, id, l, t))
      && (if ok then Others(s, s', t, id) && id !in s'.offers && id in s'.leases && s'.leases[id] == l else Lingers(s, s', t, id, false))
  {
    hide Pool4.Cleaned, Pool4.Dynamic, Lingers, Contested, Acceptable, Storable, Entries, ValidHost;
    HostIsStorable(l.host);
    SelfLingers(s, t, id);
    CleanedRest(s, t, id);
    var c := s.Cleaned(t);
    RestLingers(s, c, t, id, false, t);
    ContestedIff(s, c, t, id, false, l.ip);
    RestCount(s, c, t, id, false);
  }

  // ------------------------------------------------------------------ the check of a synchronised batch

  /** The pool has as good a lease already. */
  predicate Known(c: Pool4, id: Identity, l: Lease) {
    id in c.leases && c.leases[id].ip == l.ip && c.leases[id].expiry >= l.expiry
  }

  /** The clients of those among the first `n` leases for which `p` holds. */
  ghost function Among(batch: Sync.Batch, n: nat, p: (Identity, Lease) -> bool): set<Identity>
    requires n <= |batch|
  {
    set i | 0 <= i < n && p(batch[i].0, batch[i].1) :: batch[i].0
  }

  lemma AmongNext(batch: Sync.Batch, n: nat, p: (Identity, Lease) -> bool)
    requires n < |batch| && Sync.ClientsApart(batch)
    ensures |Among(batch, n + 1, p)| == |Among(batch, n, p)| + Count(p(batch[n].0, batch[n].1))
  {
    var id := batch[n].0;
    assert id !in Among(batch, n, p);
    assert Among(batch, n + 1, p) == Among(batch, n, p) + (if p(id, batch[n].1) then {id} else {});
  }

  /** Clients among the first `n` that are new to the pool. */
  ghost function Newcomers(c: Pool4, batch: Sync.Batch, n: nat): set<Identity>
    requires n <= |batch|
  {
    Among(batch, n, (id, l) => id !in c.leases && id !in c.offers)
  }

  /** Clients among the first `n` whose offer goes because their lease is replaced. */
  ghost function Movers(c: Pool4, batch: Sync.Batch, n: nat): set<Identity>
    requires n <= |batch|
  {
    Among(batch, n, (id, l) => id in c.leases && id in c.offers && !Known(c, id, l))
  }

  ghost function Expected(c: Pool4, batch: Sync.Batch, n: nat): int
    requires n <= |batch|
  {
    c.Dynamic() + |Newcomers(c, batch, n)| - |Movers(c, batch, n)|
  }

  /** The `n`-th lease is live, may be the client's in the pool as it is, and finds room. */
  ghost predicate Welcome(c: Pool4, batch: Sync.Batch, n: nat, now: u64)
    requires n < |batch|
  {
    var (id, l) := batch[n];
    && l.expiry > now && Entitled(c, id, l.ip) && !Contested(c, id, l.ip, now)
    && (id in c.leases || id in c.offers || Expected(c, batch, n) < 100_000)
  }

  /** A batch that names each client once passes the check exactly when every lease of it is welcome. */
  lemma {:induction false} CheckLaw(c: Pool4, batch: Sync.Batch, n: nat, now: u64)
    requires n <= |batch| && Sync.ClientsApart(batch) && c.Cleaned(now) == c
    ensures Sync.Project(c, batch, n, now).Some? <==> forall i :: 0 <= i < n ==> Welcome(c, batch, i, now)
    ensures Sync.Project(c, batch, n, now).Some? ==> Sync.Project(c, batch, n, now).value == Expected(c, batch, n)
  {
    hide Pool4.Dynamic, Pool4.Cleaned, Newcomers, Movers, Acceptable, Entitled, Contested, Sync.ClientsApart, Welcome;
    if n == 0 {
      Nobody(c, batch);
    } else {
      CheckLaw(c, batch, n - 1, now);
      CleanedRest(c, now, batch[n - 1].0);
      ContestedIff(c, c, now, batch[n - 1].0, false, batch[n - 1].1.ip);
      OneMore(c, batch, n - 1);
      EnoughLeft(c, batch, n - 1);
      CheckOne(c, batch, n - 1, now);
    }
  }

  lemma CheckOne(c: Pool4, batch: Sync.Batch, n: nat, now: u64)
    requires n < |batch| && Expected(c, batch, n) >= Count(batch[n].0 in c.leases)
    requires Acceptable(c, batch[n].0, batch[n].1.ip) <==> Entitled(c, batch[n].0, batch[n].1.ip) && !Contested(c, batch[n].0, batch[n].1.ip, now)
    ensures Expected(c, batch, n) >= 0 ==>
      (Sync.ProjectOne(c, batch[n].0, batch[n].1, now, Expected(c, batch, n)).Some? <==> Welcome(c, batch, n, now))
  {
    hide Expected, Acceptable, Entitled, Contested;
  }

  lemma Nobody(c: Pool4, batch: Sync.Batch)
    ensures Newcomers(c, batch, 0) == {} && Movers(c, batch, 0) == {}
  {
  }

  lemma OneMore(c: Pool4, batch: Sync.Batch, n: nat)
    requires n < |batch| && Sync.ClientsApart(batch)
    ensures
      var (id, l) := batch[n];
      && |Newcomers(c, batch, n + 1)| == |Newcomers(c, batch, n)| + Count(id !in c.leases && id !in c.offers)
      && |Movers(c, batch, n + 1)| == |Movers(c, batch, n)| + Count(id in c.leases && id in c.offers && !Known(c, id, l))
  {
    hide Among;
    AmongNext(batch, n, (id, l) => id !in c.leases && id !in c.offers);
    AmongNext(batch, n, (id, l) => id in c.leases && id in c.offers && !Known(c, id, l));
  }

  lemma EnoughLeft(c: Pool4, batch: Sync.Batch, n: nat)
    requires n < |batch|
    ensures Expected(c, batch, n) >= Count(batch[n].0 in c.leases)
  {
    SubsetSize(Movers(c, batch, n), c.offers.Keys);
    assert |c.offers.Keys| == |c.offers|;
    if batch[n].0 in c.leases {
      SubsetSize({batch[n].0}, c.leases.Keys);
      assert |c.leases.Keys| == |c.leases|;
    }
  }

  // ------------------------------------------------------------------ restored and reconfigured pools

  /** An address of the network that serves nothing. */
  predicate Host(net: Net, ip: u32) {
    And32(ip, net.mask) == And32(net.server, net.mask) && !Service(net, ip)
  }

  /** A lease the configuration has room for: live, at the client's reserved address or in the range, and not reserved for another. */
  ghost predicate Welcomed(net: Net, reservations: Reservations, id: Identity, l: Lease, t: u64) {
    && l.expiry > t
    && (if id in reservations then reservations[id].ip == l.ip else net.start <= l.ip <= net.end && !Service(net, l.ip))
    && forall x :: x in reservations && reservations[x].ip == l.ip ==> x == id
  }

  ghost predicate SoleReservation(s: Pool4, id: Identity)
    requires id in s.reservations
  {
    forall x :: x in s.reservations && s.reservations[x].ip == s.reservations[id].ip ==> x == id
  }

  ghost predicate SoleLease(s: Pool4, id: Identity)
    requires id in s.leases
  {
    forall x :: x in s.leases && s.leases[x].ip == s.leases[id].ip ==> x == id
  }

  /** What is adopted: every reservation and lease that fits and whose address no other wants stays as it was, and nothing that does not fit. */
  lemma AdoptLaw(s: Pool4, net: Net, t: u64, s': Pool4)
    requires Revalidated(s, net, t, s')
    ensures s'.net == net && s'.offers == map[] && s'.declined == s.declined
    ensures forall id :: id in s'.reservations ==> id in s.reservations && s'.reservations[id] == s.reservations[id] && Host(net, s'.reservations[id].ip)
    ensures forall id :: id in s.reservations && Host(net, s.reservations[id].ip) && SoleReservation(s, id) ==> id in s'.reservations
    ensures forall id :: id in s'.leases ==> id in s.leases && s'.leases[id] == s.leases[id] && Welcomed(net, s'.reservations, id, s'.leases[id], t)
    ensures forall id :: id in s.leases && Welcomed(net, s'.reservations, id, s.leases[id], t) && SoleLease(s, id) ==> id in s'.leases
  {
    hide Net.Services, And32, Or32, Service;
    forall ip: u32
      ensures ip in net.Services() <==> Service(net, ip)
    {
      ServiceIs(net, ip);
    }
    assert forall ip: u32 :: net.Reservable(ip) <==> Host(net, ip);
    assert forall id, l: Lease :: Tolerated(net, s'.reservations, id, l, t) <==> Welcomed(net, s'.reservations, id, l, t);
  }
}
