/**
 Safety of DHCPv4 address assignment over whole runs (section 4.3 of RFC 2131): whatever clients,
 the peer node and the operator do, the address of a live lease has no other claimant.
 */
module Dhcp4Safety {
  import opened Basics
  import opened Dhcp4State

  type Leases = map<Identity, Lease>
  type Offers = map<Identity, Offer>
  type Reservations = map<Identity, Reservation>

  /** What every reachable state satisfies once the clock has reached `t`. */
  ghost predicate Safe(s: Pool4, t: u64) {
    && LeasesApart(s.leases) && OffersApart(s.leases, s.offers) && DeclinedApart(s.leases, s.declined)
    && ReservationsApart(s.leases, s.reservations, t)
    && ServiceFree(s.leases, s.net) && ReservationsSound(s.reservations, s.net) && Bounded(s)
  }

  /** No two leases share an address. */
  ghost predicate LeasesApart(leases: Leases) {
    forall x, y :: x in leases && y in leases && x != y ==> leases[x].ip != leases[y].ip
  }

  /** No client is offered what another has leased. */
  ghost predicate OffersApart(leases: Leases, offers: Offers) {
    forall x, y :: x in leases && y in offers && x != y ==> leases[x].ip != offers[y].ip
  }

  ghost predicate DeclinedApart(leases: Leases, declined: map<u32, u64>) {
    forall x :: x in leases ==> leases[x].ip !in declined
  }

  /** A lease of an address reserved for another client has expired. */
  ghost predicate ReservationsApart(leases: Leases, reservations: Reservations, t: u64) {
    forall x, y :: x in leases && y in reservations && x != y && leases[x].ip == reservations[y].ip ==> leases[x].expiry <= t
  }

  ghost predicate ServiceFree(leases: Leases, net: Net) {
    forall x :: x in leases ==> leases[x].ip !in net.Services()
  }

  ghost predicate ReservationsSound(reservations: Reservations, net: Net) {
    && (forall y :: y in reservations ==> reservations[y].ip !in net.Services())
    && (forall x, y :: x in reservations && y in reservations && x != y ==> reservations[x].ip != reservations[y].ip)
  }

  ghost predicate Bounded(s: Pool4) {
    s.Dynamic() <= MAX_STATE_ENTRIES && |s.reservations| <= MAX_STATE_ENTRIES
  }

  /** The address of lease `x` is claimed by nothing but `x` itself. */
  ghost predicate Exclusive(s: Pool4, x: Identity)
    requires x in s.leases
  {
    && s.Claims(s.leases[x].ip) <= s.Own(x)
    && s.leases[x].ip !in s.net.Services()
  }

  lemma OwnClaim(s: Pool4, t: u64, x: Identity, c: Claim)
    requires Safe(s, t) && x in s.leases && s.leases[x].expiry > t && Holds(s, s.leases[x].ip, c)
    ensures c == ByLease(x) || c == ByOffer(x) || c == ByReservation(x)
  {
    hide Net.Services, Bounded;
  }

  /** Safety as promised: every live lease is exclusive. */
  lemma SafeIsExclusive(s: Pool4, t: u64, x: Identity)
    requires Safe(s, t) && x in s.leases && s.leases[x].expiry > t
    ensures Exclusive(s, x)
  {
    hide Net.Services, Pool4.Claims, Holds, Bounded, LeasesApart, OffersApart, ReservationsApart, ReservationsSound;
    forall c | c in s.Claims(s.leases[x].ip)
      ensures c in s.Own(x)
    {
      ClaimsAre(s, s.leases[x].ip, c);
      OwnClaim(s, t, x, c);
    }
  }

  // ------------------------------------------------------------------ changes of one part

  /** Fewer leases, offers and declined addresses are safe. */
  lemma ShrunkSafe(s: Pool4, t: u64, leases: Leases, offers: Offers, declined: map<u32, u64>)
    requires Safe(s, t)
    requires forall x :: x in leases ==> x in s.leases && leases[x] == s.leases[x]
    requires forall x :: x in offers ==> x in s.offers && offers[x] == s.offers[x]
    requires declined.Keys <= s.declined.Keys
    ensures Safe(s.(leases := leases, offers := offers, declined := declined), t)
  {
    hide Net.Services, ReservationsSound;
    FilterSize(s.leases, leases);
    FilterSize(s.offers, offers);
    FilterSize(s.declined, declined);
  }

  lemma LaterSafe(s: Pool4, t: u64, now: u64)
    requires Safe(s, t) && t <= now
    ensures Safe(s, now)
  {
    hide Net.Services, Bounded, LeasesApart, OffersApart, DeclinedApart, ServiceFree, ReservationsSound;
  }

  lemma OfferSafe(s: Pool4, t: u64, id: Identity, o: Offer)
    requires Safe(s, t)
    requires forall x :: x in s.leases && x != id ==> s.leases[x].ip != o.ip
    requires id in s.offers || s.Dynamic() < MAX_STATE_ENTRIES
    ensures Safe(s.(offers := s.offers[id := o]), t)
  {
    hide LeasesApart, DeclinedApart, ReservationsApart, ServiceFree, ReservationsSound;
  }

  lemma DeclinedSafe(s: Pool4, t: u64, ip: u32, until: u64)
    requires Safe(s, t)
    requires forall x :: x in s.leases ==> s.leases[x].ip != ip
    requires ip in s.declined || s.Dynamic() < MAX_STATE_ENTRIES
    ensures Safe(s.(declined := s.declined[ip := until]), t)
  {
    hide LeasesApart, OffersApart, ReservationsApart, ServiceFree, ReservationsSound;
  }

  lemma ReservedSafe(s: Pool4, t: u64, id: Identity, r: Reservation)
    requires Safe(s, t) && r.ip !in s.net.Services()
    requires forall x :: x in s.reservations && x != id ==> s.reservations[x].ip != r.ip
    requires forall x :: x in s.leases && x != id && s.leases[x].ip == r.ip ==> s.leases[x].expiry <= t
    requires id in s.reservations || |s.reservations| < MAX_STATE_ENTRIES
    ensures Safe(s.(reservations := s.reservations[id := r]), t)
  {
    hide Net.Services, LeasesApart, OffersApart, DeclinedApart, ServiceFree;
  }

  lemma UnreservedSafe(s: Pool4, t: u64, id: Identity)
    requires Safe(s, t)
    ensures Safe(s.(reservations := s.reservations - {id}), t)
  {
    hide Net.Services, LeasesApart, OffersApart, DeclinedApart, ServiceFree;
    RemovedSize(s.reservations, id);
  }

  /** No other client's lease, offer or reservation, and no decline, names `ip`. */
  ghost predicate FreeFor(s: Pool4, id: Identity, ip: u32) {
    && (forall x :: x in s.leases && x != id ==> s.leases[x].ip != ip)
    && (forall x :: x in s.offers && x != id ==> s.offers[x].ip != ip)
    && (forall x :: x in s.reservations && x != id ==> s.reservations[x].ip != ip)
    && ip !in s.declined
  }

  lemma LeasedSafe(s: Pool4, t: u64, id: Identity, l: Lease)
    requires Safe(s, t) && l.ip !in s.net.Services() && FreeFor(s, id, l.ip)
    requires id in s.leases || s.Dynamic() < MAX_STATE_ENTRIES
    ensures Safe(s.(leases := s.leases[id := l]), t)
  {
    hide Net.Services, ReservationsSound;
  }

  // ------------------------------------------------------------------ operations

  /** Cleaning at a later reading keeps safety and leaves only live leases. */
  lemma CleanedSafe(s: Pool4, t: u64, now: u64)
    requires Safe(s, t) && t <= now
    ensures Safe(s.Cleaned(now), now)
    ensures forall x :: x in s.Cleaned(now).leases ==> s.Cleaned(now).leases[x].expiry > now
  {
    hide Net.Services, Safe;
    LaterSafe(s, t, now);
    var c := s.Cleaned(now);
    ShrunkSafe(s, now, c.leases, c.offers, c.declined);
  }

  lemma HoldOfferSafe(s: Pool4, t: u64, id: Identity, xid: u32, ip: u32, now: u64)
    requires Safe(s, t) && t <= now
    requires forall x :: x in s.Cleaned(now).leases && x != id ==> s.leases[x].ip != ip
    ensures Safe(HoldOffer(s, id, xid, ip, now).1, now)
  {
    hide Net.Services, Safe;
    CleanedSafe(s, t, now);
    var c := s.Cleaned(now);
    if id in c.offers || c.Dynamic() < MAX_STATE_ENTRIES {
      OfferSafe(c, now, id, Offer(ip, xid, SaturatingAdd64(now, OFFER_SECS)));
    }
  }

  lemma ConsumeOfferSafe(s: Pool4, t: u64, id: Identity, xid: u32, ip: u32, now: u64)
    requires Safe(s, t) && t <= now
    ensures Safe(ConsumeOffer(s, id, xid, ip, now).1, now)
  {
    hide Net.Services, Safe;
    CleanedSafe(s, t, now);
    var c := s.Cleaned(now);
    ShrunkSafe(c, now, c.leases, c.offers - {id}, c.declined);
  }

  lemma OwnedApart(c: Pool4, now: u64, id: Identity, ip: u32)
    requires Safe(c, now) && Owns(c, id, ip)
    ensures forall x :: x in c.leases && x != id ==> c.leases[x].ip != ip
  {
    hide Net.Services, DeclinedApart, ReservationsApart, ReservationsSound, ServiceFree;
  }

  lemma DeclineSafe(s: Pool4, t: u64, id: Identity, ip: u32, now: u64)
    requires Safe(s, t) && t <= now
    ensures Safe(Decline(s, id, ip, now), now)
  {
    hide Net.Services, Safe, Owns, Pool4.Cleaned;
    CleanedSafe(s, t, now);
    var c := s.Cleaned(now);
    var d := Forgotten(c, id);
    ShrunkSafe(c, now, d.leases, d.offers, c.declined);
    RemovedSize(c.leases, id);
    RemovedSize(c.offers, id);
    if Owns(c, id, ip) && (ip in c.declined || d.Dynamic() < MAX_STATE_ENTRIES) {
      OwnedApart(c, now, id, ip);
      DeclinedSafe(d, now, ip, SaturatingAdd64(now, DECLINE_SECS));
    }
  }

  lemma AddReservationSafe(s: Pool4, t: u64, id: Identity, ip: u32, host: Option<Host>, now: u64)
    requires Safe(s, t) && t <= now
    ensures Safe(AddReservation(s, id, ip, host, now).1, now)
  {
    hide Net.Services, Safe;
    LaterSafe(s, t, now);
    var (ok, s') := AddReservation(s, id, ip, host, now);
    if ok {
      ShrunkSafe(s, now, s'.leases, s.offers, s.declined);
      assert s.net.Reservable(ip) && ip !in s.net.Services();
      ReservedSafe(s.(leases := s'.leases, offers := s.offers, declined := s.declined), now, id, Reservation(ip, host));
    }
  }

  lemma RemoveReservationSafe(s: Pool4, t: u64, id: Identity)
    requires Safe(s, t)
    ensures Safe(RemoveReservation(s, id).1, t)
  {
    UnreservedSafe(s, t, id);
  }

  lemma ReleaseSafe(s: Pool4, t: u64, id: Identity, ip: u32)
    requires Safe(s, t)
    ensures Safe(Release(s, id, ip), t)
  {
    hide Net.Services, Safe;
    ShrunkSafe(s, t, s.leases - {id}, s.offers, s.declined);
  }

  /** The full scan found no claim of anyone else. */
  lemma OnlyOwn(c: Pool4, id: Identity, ip: u32, claim: Claim)
    requires !c.UsedByOther(id, ip) && Holds(c, ip, claim)
    ensures claim == ByLease(id) || claim == ByOffer(id) || claim == ByReservation(id)
  {
    hide Pool4.Claims, Holds;
    ClaimsAre(c, ip, claim);
    assert claim in c.Claims(ip) - c.Own(id) || claim in c.Own(id);
  }

  /** Without another claimant the address is free of other clients' leases, offers and reservations, and not declined. */
  lemma NotUsedByOther(c: Pool4, id: Identity, ip: u32)
    requires !c.UsedByOther(id, ip)
    ensures FreeFor(c, id, ip)
    ensures c.net.InRange(ip) ==> ip !in c.net.Services()
  {
    hide Pool4.UsedByOther, Net.Services;
    forall claim | Holds(c, ip, claim)
      ensures claim == ByLease(id) || claim == ByOffer(id) || claim == ByReservation(id)
    {
      OnlyOwn(c, id, ip, claim);
    }
    assert forall x :: Holds(c, ip, ByLease(x)) <==> x in c.leases && c.leases[x].ip == ip;
    assert forall x :: Holds(c, ip, ByOffer(x)) <==> x in c.offers && c.offers[x].ip == ip;
    assert forall x :: Holds(c, ip, ByReservation(x)) <==> x in c.reservations && c.reservations[x].ip == ip;
    assert Holds(c, ip, ByDecline) <==> ip in c.declined;
    assert forall k: nat | k < |c.net.Services()| ::
      Holds(c, ip, ByService(k)) <==> c.net.InRange(ip) && c.net.Services()[k] == ip;
  }

  lemma WithoutOffer(c: Pool4, id: Identity, ip: u32, now: u64)
    requires Safe(c, now) && FreeFor(c, id, ip)
    ensures Safe(c.(offers := c.offers - {id}), now) && FreeFor(c.(offers := c.offers - {id}), id, ip)
    ensures c.(offers := c.offers - {id}).Dynamic() == c.Dynamic() - Count(id in c.offers)
  {
    hide Safe;
    RemovedSize(c.offers, id);
    ShrunkSafe(c, now, c.leases, c.offers - {id}, c.declined);
  }

  /** A lease nobody else has a claim against keeps safety. */
  lemma PutLeaseSafe(c: Pool4, id: Identity, lease: Lease, now: u64)
    requires Safe(c, now) && !c.UsedByOther(id, lease.ip)
    requires lease.ip !in c.net.Services()
    ensures Safe(PutLease(c, id, lease).1, now)
  {
    hide Net.Services, Pool4.UsedByOther, Pool4.Dynamic, Safe, FreeFor;
    NotUsedByOther(c, id, lease.ip);
    WithoutOffer(c, id, lease.ip, now);
    if PutLease(c, id, lease).0 {
      LeasedSafe(c.(offers := c.offers - {id}), now, id, lease);
    }
  }

  lemma AcceptableServiceFree(c: Pool4, t: u64, id: Identity, ip: u32)
    requires Safe(c, t) && Acceptable(c, id, ip)
    ensures ip !in c.net.Services()
  {
    hide Net.Services, Pool4.UsedByOther;
    NotUsedByOther(c, id, ip);
  }

  /** Claims only disappear when state expires. */
  lemma CleanedAcceptable(s: Pool4, id: Identity, ip: u32, now: u64)
    requires Acceptable(s, id, ip)
    ensures Acceptable(s.Cleaned(now), id, ip)
  {
    hide Net.Services;
    var c := s.Cleaned(now);
    forall claim | claim in c.Claims(ip)
      ensures claim in s.Claims(ip)
    {
      ClaimsAre(c, ip, claim);
      ClaimsAre(s, ip, claim);
    }
  }

  lemma CommitSafe(s: Pool4, t: u64, id: Identity, mac: Bytes, ip: u32, host: Option<Host>, secs: u32, now: u64)
    requires Safe(s, t) && t <= now && Acceptable(s, id, ip)
    ensures Safe(Commit(s, id, mac, ip, host, secs, now).1, now)
  {
    hide Net.Services, Safe, Pool4.UsedByOther, PutLease;
    LaterSafe(s, t, now);
    CleanedSafe(s, t, now);
    CleanedAcceptable(s, id, ip, now);
    if ValidHost(host) {
      AcceptableServiceFree(s, t, id, ip);
      PutLeaseSafe(s.Cleaned(now), id, Lease(mac, ip, LeaseExpiry(now, secs), LeaseHost(s, id, host)), now);
    }
  }

  lemma InsertSafe(s: Pool4, t: u64, id: Identity, lease: Lease, now: u64)
    requires Safe(s, t) && t <= now
    ensures Safe(Insert(s, id, lease, now).1, now)
  {
    hide Net.Services, Safe, Pool4.UsedByOther, PutLease;
    LaterSafe(s, t, now);
    CleanedSafe(s, t, now);
    var c := s.Cleaned(now);
    if Acceptable(c, id, lease.ip) {
      AcceptableServiceFree(c, now, id, lease.ip);
      PutLeaseSafe(c, id, lease, now);
    }
  }

  lemma KeptReservationsSound(all: Reservations, net: Net, kept: Reservations)
    requires ReservationsKept(all, net, kept)
    ensures ReservationsSound(kept, net) && |kept| <= |all|
  {
    hide Net.Services;
    FilterSize(all, kept);
    assert forall y :: y in kept ==> net.Reservable(kept[y].ip);
  }

  lemma KeptLeasesApart(all: Leases, net: Net, reservations: Reservations, now: u64, kept: Leases)
    requires LeasesKept(all, net, reservations, now, kept) && ReservationsSound(reservations, net)
    ensures LeasesApart(kept) && ServiceFree(kept, net) && ReservationsApart(kept, reservations, now) && |kept| <= |all|
  {
    hide Net.Services;
    FilterSize(all, kept);
    assert forall x :: x in kept ==> Tolerated(net, reservations, x, kept[x], now);
  }

  /** Whatever was stored, a revalidated state is safe. */
  lemma RevalidatedSafe(s: Pool4, net: Net, now: u64, s': Pool4)
    requires Revalidated(s, net, now, s') && DeclinedApart(s.leases, s.declined) && Bounded(s)
    ensures Safe(s', now)
  {
    hide Net.Services, ReservationsKept, ReservationsSound, ServiceFree, LeasesApart, ReservationsApart;
    KeptReservationsSound(s.reservations, net, s'.reservations);
    KeptLeasesApart(s.leases, net, s'.reservations, now, s'.leases);
  }

  // ------------------------------------------------------------------ client messages

  /** What a well-formed client message asks for. */
  datatype Action = Discover | Request(target: u32, selecting: bool) | Declining(target: u32) | Releasing(target: u32)

  datatype Reply = Offers4(ip: u32) | Ack(ip: u32) | Nak | NoReply

  /** Who sends a message, and what it carries besides the action. */
  datatype Sender = Sender(id: Identity, mac: Bytes, xid: u32, host: Option<Host>)

  /** A request is confirmed only for the reserved address, or for an in-range one, that nobody else claims. */
  function HandleRequest(s: Pool4, from: Sender, target: u32, selecting: bool, secs: u32, t1: u64, t2: u64, t3: u64): (Reply, Pool4) {
    var (offered, s1) := if selecting then ConsumeOffer(s, from.id, from.xid, target, t1) else (true, s);
    if !offered then (Nak, s1)
    else if from.id in s1.reservations && s1.reservations[from.id].ip != target then (Nak, s1)
    else
      var s2 := s1.Cleaned(t2);
      if !Acceptable(s2, from.id, target) then (Nak, s2)
      else
        var (ok, s3) := Commit(s2, from.id, from.mac, target, from.host, secs, t3);
        (if ok then Ack(target) else Nak, s3)
  }

  /** One client message; `picked` is the address the search came up with. */
  ghost predicate Handles(s: Pool4, from: Sender, a: Action, secs: u32, t1: u64, t2: u64, t3: u64, picked: Option<u32>, reply: Reply, s': Pool4) {
    match a
    case Discover =>
      var m := if from.id in s.reservations then s else s.Cleaned(t1);
      && Allocates(s, from.id, t1, picked, m)
      && (reply, s') == (if picked.None? then (NoReply, m) else
                           var (ok, h) := HoldOffer(m, from.id, from.xid, picked.value, t2);
                           (if ok then Offers4(picked.value) else NoReply, h))
    case Request(target, selecting) => (reply, s') == HandleRequest(s, from, target, selecting, secs, t1, t2, t3)
    case Declining(target) => reply == NoReply && s' == Decline(s, from.id, target, t1)
    case Releasing(target) => reply == NoReply && s' == Release(s, from.id, target)
  }

  lemma HandleRequestSafe(s: Pool4, t: u64, from: Sender, target: u32, selecting: bool, secs: u32, t1: u64, t2: u64, t3: u64)
    requires Safe(s, t) && t <= t1 <= t2 <= t3
    ensures Safe(HandleRequest(s, from, target, selecting, secs, t1, t2, t3).1, t3)
  {
    hide Safe, Acceptable, Commit, ConsumeOffer, Pool4.Cleaned;
    ConsumeOfferSafe(s, t, from.id, from.xid, target, t1);
    LaterSafe(s, t, t1);
    var (_, s1) := if selecting then ConsumeOffer(s, from.id, from.xid, target, t1) else (true, s);
    CleanedSafe(s1, t1, t2);
    LaterSafe(s1, t1, t3);
    LaterSafe(s1.Cleaned(t2), t2, t3);
    if Acceptable(s1.Cleaned(t2), from.id, target) {
      CommitSafe(s1.Cleaned(t2), t2, from.id, from.mac, target, from.host, secs, t3);
    }
  }

  /** The address an allocation yields is not leased to anyone else. */
  lemma AllocatedApart(s: Pool4, t: u64, id: Identity, t1: u64, t2: u64, ip: u32, m: Pool4)
    requires Safe(s, t) && t <= t1 <= t2 && Allocates(s, id, t1, Some(ip), m)
    ensures forall x :: x in m.Cleaned(t2).leases && x != id ==> m.leases[x].ip != ip
  {
    hide Net.Services, Bounded, DeclinedApart, ReservationsSound, ServiceFree, Pool4.Claims;
    forall x | x in m.Cleaned(t2).leases && x != id
      ensures m.leases[x].ip != ip
    {
      ClaimsAre(m, ip, ByLease(x));
    }
  }

  lemma HandlesSafe(s: Pool4, t: u64, from: Sender, a: Action, secs: u32, t1: u64, t2: u64, t3: u64, picked: Option<u32>, reply: Reply, s': Pool4)
    requires Safe(s, t) && t <= t1 <= t2 <= t3 && Handles(s, from, a, secs, t1, t2, t3, picked, reply, s')
    ensures Safe(s', t3)
  {
    hide Safe, HandleRequest, HoldOffer, Decline, Release, Allocates, Pool4.Cleaned;
    match a {
      case Discover =>
        var m := if from.id in s.reservations then s else s.Cleaned(t1);
        CleanedSafe(s, t, t1);
        LaterSafe(s, t, t1);
        LaterSafe(m, t1, t3);
        if picked.Some? {
          AllocatedApart(s, t, from.id, t1, t2, picked.value, m);
          HoldOfferSafe(m, t1, from.id, from.xid, picked.value, t2);
          LaterSafe(HoldOffer(m, from.id, from.xid, picked.value, t2).1, t2, t3);
        }
      case Request(target, selecting) => HandleRequestSafe(s, t, from, target, selecting, secs, t1, t2, t3);
      case Declining(target) =>
        DeclineSafe(s, t, from.id, target, t1);
        LaterSafe(s', t1, t3);
      case Releasing(target) =>
        ReleaseSafe(s, t, from.id, target);
        LaterSafe(s', t, t3);
    }
  }

  // ------------------------------------------------------------------ whole runs

  /** Everything that changes a pool after its creation. */
  datatype Event =
    | Client(from: Sender, action: Action, secs: u32, t1: u64, t2: u64, t3: u64, picked: Option<u32>, reply: Reply)
    | Synced(id: Identity, lease: Lease, at: u64)
    | Reserve(id: Identity, ip: u32, host: Option<Host>, at: u64)
    | Unreserve(id: Identity)
    | Reconfigure(net: Net, stored: Reservations, at: u64)

  /** The event moves the pool from `s` to `s'` and the clock from `t` to `t'`. */
  ghost predicate Step(s: Pool4, t: u64, e: Event, s': Pool4, t': u64) {
    match e
    case Client(from, a, secs, t1, t2, t3, picked, reply) =>
      t <= t1 <= t2 <= t3 == t' && Handles(s, from, a, secs, t1, t2, t3, picked, reply, s')
    case Synced(id, lease, at) => t <= at == t' && s' == Insert(s, id, lease, at).1
    case Reserve(id, ip, host, at) => t <= at == t' && s' == AddReservation(s, id, ip, host, at).1
    case Unreserve(id) => t == t' && s' == RemoveReservation(s, id).1
    case Reconfigure(net, stored, at) =>
      t <= at == t' && |stored| <= MAX_STATE_ENTRIES && Revalidated(s.(reservations := stored), net, at, s')
  }

  lemma StepSafe(s: Pool4, t: u64, e: Event, s': Pool4, t': u64)
    requires Safe(s, t) && Step(s, t, e, s', t')
    ensures Safe(s', t')
  {
    hide Handles, Insert, AddReservation, RemoveReservation, Revalidated;
    match e {
      case Client(from, a, secs, t1, t2, t3, picked, reply) => HandlesSafe(s, t, from, a, secs, t1, t2, t3, picked, reply, s');
      case Synced(id, lease, at) => InsertSafe(s, t, id, lease, at);
      case Reserve(id, ip, host, at) => AddReservationSafe(s, t, id, ip, host, at);
      case Unreserve(id) => RemoveReservationSafe(s, t, id);
      case Reconfigure(net, stored, at) => RevalidatedSafe(s.(reservations := stored), net, at, s');
    }
  }

  /** A moment of a run: the pool and the clock. */
  datatype Moment = Moment(pool: Pool4, clock: u64)

  /** `run` starts from whatever was stored, revalidated, and every moment follows from the one before. */
  ghost predicate IsRun(run: seq<Moment>, events: seq<Event>, stored: Pool4, net: Net) {
    && |run| == |events| + 1
    && Bounded(stored) && stored.declined == map[] && Revalidated(stored, net, run[0].clock, run[0].pool)
    && forall i :: 0 <= i < |events| ==> Step(run[i].pool, run[i].clock, events[i], run[i + 1].pool, run[i + 1].clock)
  }

  lemma {:induction false} RunSafe(run: seq<Moment>, events: seq<Event>, stored: Pool4, net: Net, n: nat)
    requires IsRun(run, events, stored, net) && n < |run|
    ensures Safe(run[n].pool, run[n].clock)
  {
    hide Safe, Step, Revalidated;
    if n == 0 {
      RevalidatedSafe(stored, net, run[0].clock, run[0].pool);
    } else {
      RunSafe(run, events, stored, net, n - 1);
      assert Step(run[n - 1].pool, run[n - 1].clock, events[n - 1], run[n].pool, run[n].clock);
      StepSafe(run[n - 1].pool, run[n - 1].clock, events[n - 1], run[n].pool, run[n].clock);
    }
  }

  /** In every state of every run, the address of every live lease has no other claimant of any kind. */
  lemma LiveLeasesAreExclusive(run: seq<Moment>, events: seq<Event>, stored: Pool4, net: Net, n: nat, x: Identity)
    requires IsRun(run, events, stored, net) && n < |run|
    requires x in run[n].pool.leases && run[n].pool.leases[x].expiry > run[n].clock
    ensures Exclusive(run[n].pool, x)
  {
    RunSafe(run, events, stored, net, n);
    SafeIsExclusive(run[n].pool, run[n].clock, x);
  }
}
