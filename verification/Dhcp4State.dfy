/**
 The DHCPv4 pool as plain maps: leases, offers, declined addresses and reservations, who
 claims an address, and the effect of every pool operation on them.
 */
module Dhcp4State {
  import opened Basics

  const MAX_STATE_ENTRIES := 100_000
  const OFFER_SECS: u64 := 60
  const DECLINE_SECS: u64 := 600

  /** Owner of a binding: the client's opaque identifier, or its hardware address. */
  datatype Identity = Hardware(mac: Bytes) | Opaque(id: Bytes)

  type Host = seq<byte>

  /** A name that survives the whitespace-separated lease file. */
  predicate ValidHostname(h: Host) {
    0 < |h| <= 255 && forall i :: 0 <= i < |h| ==> 0x20 < h[i] && h[i] != 0x7F
  }

  predicate ValidHost(h: Option<Host>) {
    h.Some? ==> ValidHostname(h.value)
  }

  datatype Lease = Lease(mac: Bytes, ip: u32, expiry: u64, host: Option<Host>)
  datatype Offer = Offer(ip: u32, xid: u32, expiry: u64)
  datatype Reservation = Reservation(ip: u32, host: Option<Host>)

  // ------------------------------------------------------------------ the network

  function And32(a: u32, b: u32): u32 {
    ((a as bv32) & (b as bv32)) as int
  }

  function Or32(a: u32, b: u32): u32 {
    ((a as bv32) | (b as bv32)) as int
  }

  /** Range and addresses of the served network. */
  datatype Net = Net(start: u32, end: u32, server: u32, router: u32, mask: u32) {

    function Network(): u32 {
      And32(server, mask)
    }

    function Broadcast(): u32 {
      Or32(Network(), U32_MAX - mask)
    }

    /** Addresses the server itself, the gateway and the network need. */
    function Services(): seq<u32> {
      [server, router, Network(), Broadcast()]
    }

    predicate InRange(ip: u32) {
      start <= ip <= end
    }

    /** Whether an address may be reserved for a client. */
    predicate Reservable(ip: u32) {
      And32(ip, mask) == Network() && ip !in Services()
    }
  }

  // ------------------------------------------------------------------ claims

  /** One reason an address is not free. */
  datatype Claim = ByLease(id: Identity) | ByOffer(id: Identity) | ByDecline | ByReservation(id: Identity) | ByService(k: nat)

  datatype Pool4 = Pool4(net: Net, leases: map<Identity, Lease>, offers: map<Identity, Offer>,
                         declined: map<u32, u64>, reservations: map<Identity, Reservation>) {

    function LeaseClaims(ip: u32): set<Claim> {
      set id | id in leases && leases[id].ip == ip :: ByLease(id)
    }

    function OfferClaims(ip: u32): set<Claim> {
      set id | id in offers && offers[id].ip == ip :: ByOffer(id)
    }

    function ReservationClaims(ip: u32): set<Claim> {
      set id | id in reservations && reservations[id].ip == ip :: ByReservation(id)
    }

    function ServiceClaims(ip: u32): set<Claim> {
      if net.InRange(ip) then set k: nat | k < |net.Services()| && net.Services()[k] == ip :: ByService(k) else {}
    }

    /** Everything that refers to `ip`. */
    function Claims(ip: u32): set<Claim> {
      LeaseClaims(ip) + OfferClaims(ip) + (if ip in declined then {ByDecline} else {}) + ReservationClaims(ip) + ServiceClaims(ip)
    }

    /** What `id` itself may have at an address. */
    function Own(id: Identity): set<Claim> {
      {ByLease(id), ByOffer(id), ByReservation(id)}
    }

    /** Somebody or something other than `id` refers to `ip`: the full scan. */
    predicate UsedByOther(id: Identity, ip: u32) {
      Claims(ip) - Own(id) != {}
    }

    /** Entries that share the budget for remotely caused state. */
    function Dynamic(): nat {
      |leases| + |offers| + |declined|
    }

    /** Without everything that has expired. */
    function Cleaned(now: u64): Pool4 {
      this.(leases := map id | id in leases && leases[id].expiry > now :: leases[id],
            offers := map id | id in offers && offers[id].expiry > now :: offers[id],
            declined := map ip | ip in declined && declined[ip] > now :: declined[ip])
    }

    ghost predicate ExpiresFrom(bound: u64) {
      && (forall id :: id in leases ==> bound <= leases[id].expiry)
      && (forall id :: id in offers ==> bound <= offers[id].expiry)
      && (forall ip :: ip in declined ==> bound <= declined[ip])
    }
  }

  /** Whether claim `c` on `ip` is in force. */
  predicate Holds(s: Pool4, ip: u32, c: Claim) {
    match c
    case ByLease(id) => id in s.leases && s.leases[id].ip == ip
    case ByOffer(id) => id in s.offers && s.offers[id].ip == ip
    case ByDecline => ip in s.declined
    case ByReservation(id) => id in s.reservations && s.reservations[id].ip == ip
    case ByService(k) => s.net.InRange(ip) && k < |s.net.Services()| && s.net.Services()[k] == ip
  }

  lemma ClaimsAre(s: Pool4, ip: u32, c: Claim)
    ensures c in s.Claims(ip) <==> Holds(s, ip, c)
  {
    hide Net.Services;
  }

  function LeaseExpiry(now: u64, lease: u32): u64 {
    if lease == U32_MAX then U64_MAX else SaturatingAdd64(now, lease)
  }

  // ------------------------------------------------------------------ operations on the plain state

  function HoldOffer(s: Pool4, id: Identity, xid: u32, ip: u32, now: u64): (r: (bool, Pool4)) {
    var c := s.Cleaned(now);
    if id !in c.offers && c.Dynamic() >= MAX_STATE_ENTRIES then (false, c)
    else (true, c.(offers := c.offers[id := Offer(ip, xid, SaturatingAdd64(now, OFFER_SECS))]))
  }

  function ConsumeOffer(s: Pool4, id: Identity, xid: u32, ip: u32, now: u64): (bool, Pool4) {
    var c := s.Cleaned(now);
    if id in c.offers && c.offers[id].ip == ip && c.offers[id].xid == xid then (true, c.(offers := c.offers - {id}))
    else (false, c)
  }

  /** `id` has `ip` offered or leased. */
  predicate Owns(s: Pool4, id: Identity, ip: u32) {
    (id in s.offers && s.offers[id].ip == ip) || (id in s.leases && s.leases[id].ip == ip)
  }

  /** Neither binding of `id` is left. */
  function Forgotten(c: Pool4, id: Identity): Pool4 {
    c.(leases := c.leases - {id}, offers := c.offers - {id})
  }

  /** An address its owner declined rests for a while, unless the budget is used up. */
  function DeclineOwned(c: Pool4, id: Identity, ip: u32, now: u64): Pool4 {
    if ip !in c.declined && c.Dynamic() - Count(id in c.leases) - Count(id in c.offers) >= MAX_STATE_ENTRIES then c
    else if c.net.InRange(ip) then
      var d := Forgotten(c, id);
      d.(declined := d.declined[ip := SaturatingAdd64(now, DECLINE_SECS)])
    else Forgotten(c, id)
  }

  /** A client reports an address as taken: it loses its own bindings whether or not it owned that address. */
  function Decline(s: Pool4, id: Identity, ip: u32, now: u64): Pool4 {
    var c := s.Cleaned(now);
    if Owns(c, id, ip) then DeclineOwned(c, id, ip, now) else Forgotten(c, id)
  }

  /** The address a client gets; reservations first, then its own offer or lease, then any free address. */
  ghost predicate Allocates(s: Pool4, id: Identity, now: u64, r: Option<u32>, s': Pool4) {
    if id in s.reservations then r == Some(s.reservations[id].ip) && s' == s
    else
      && s' == s.Cleaned(now)
      && if id in s'.offers then r == Some(s'.offers[id].ip)
         else if id in s'.leases then r == Some(s'.leases[id].ip)
         else if s'.Dynamic() >= MAX_STATE_ENTRIES then r == None
         else match r
           case Some(ip) => s'.net.InRange(ip) && s'.Claims(ip) == {}
           case None => forall ip: u32 :: s'.net.InRange(ip) ==> s'.Claims(ip) != {}
  }

  predicate ReservedByOther(s: Pool4, ip: u32, id: Identity) {
    exists x :: x in s.reservations && x != id && s.reservations[x].ip == ip
  }

  /** Reserving evicts other clients' live leases of the address, but not their offers. */
  function AddReservation(s: Pool4, id: Identity, ip: u32, host: Option<Host>, now: u64): (bool, Pool4) {
    if !ValidHost(host) || !s.net.Reservable(ip) || ReservedByOther(s, ip, id)
       || (id !in s.reservations && |s.reservations| >= MAX_STATE_ENTRIES) then (false, s)
    else (true, s.(leases := map x | x in s.leases && !(s.leases[x].ip == ip && s.leases[x].expiry > now && x != id) :: s.leases[x],
                   reservations := s.reservations[id := Reservation(ip, host)]))
  }

  function RemoveReservation(s: Pool4, id: Identity): (bool, Pool4) {
    (id in s.reservations, s.(reservations := s.reservations - {id}))
  }

  function LeaseHost(s: Pool4, id: Identity, host: Option<Host>): Option<Host> {
    if id in s.reservations && s.reservations[id].host.Some? then s.reservations[id].host
    else if host.Some? then host
    else if id in s.leases then s.leases[id].host else None
  }

  /** A lease replaces the client's offer and its previous lease, within the budget. */
  function PutLease(c: Pool4, id: Identity, lease: Lease): (bool, Pool4) {
    if id !in c.leases && c.Dynamic() - Count(id in c.offers) >= MAX_STATE_ENTRIES then (false, c)
    else (true, c.(leases := c.leases[id := lease], offers := c.offers - {id}))
  }

  function Commit(s: Pool4, id: Identity, mac: Bytes, ip: u32, host: Option<Host>, leaseSecs: u32, now: u64): (bool, Pool4) {
    if !ValidHost(host) then (false, s)
    else PutLease(s.Cleaned(now), id, Lease(mac, ip, LeaseExpiry(now, leaseSecs), LeaseHost(s, id, host)))
  }

  function Release(s: Pool4, id: Identity, ip: u32): Pool4 {
    if id in s.leases && s.leases[id].ip == ip then s.(leases := s.leases - {id}) else s
  }

  /** Whether a synchronised lease may belong to `id`. */
  predicate Acceptable(c: Pool4, id: Identity, ip: u32) {
    && (if id in c.reservations then c.reservations[id].ip == ip else c.net.InRange(ip))
    && !c.UsedByOther(id, ip)
  }

  /** The pool already has this lease, at least as fresh. */
  predicate AlreadyHas(c: Pool4, id: Identity, ip: u32, expiry: u64) {
    id in c.leases && c.leases[id].ip == ip && c.leases[id].expiry >= expiry
  }

  /** A lease received from the peer node. */
  function Insert(s: Pool4, id: Identity, lease: Lease, now: u64): (bool, Pool4) {
    if !ValidHost(lease.host) then (false, s)
    else
      var c := s.Cleaned(now);
      if lease.expiry <= now || !Acceptable(c, id, lease.ip) || AlreadyHas(c, id, lease.ip, lease.expiry) then (false, c)
      else PutLease(c, id, lease)
  }

  // ------------------------------------------------------------------ restored and reconfigured state

  /** Which leases a configuration tolerates, before duplicates are looked at. */
  predicate Tolerated(net: Net, reservations: map<Identity, Reservation>, id: Identity, lease: Lease, now: u64) {
    && lease.expiry > now
    && (if id in reservations then reservations[id].ip == lease.ip else net.InRange(lease.ip) && lease.ip !in net.Services())
    && (forall x :: x in reservations && reservations[x].ip == lease.ip ==> x == id)
  }

  /** `kept` are the reservable ones of `all`, one per address; iteration order decides which of several stays. */
  ghost predicate ReservationsKept(all: map<Identity, Reservation>, net: Net, kept: map<Identity, Reservation>) {
    && (forall id :: id in kept ==> id in all && kept[id] == all[id] && net.Reservable(kept[id].ip))
    && (forall x, y :: x in kept && y in kept && x != y ==> kept[x].ip != kept[y].ip)
    && (forall id :: id in all && id !in kept && net.Reservable(all[id].ip) ==> exists x :: x in kept && kept[x].ip == all[id].ip)
  }

  /** `kept` are the tolerated leases of `all`, one per address. */
  ghost predicate LeasesKept(all: map<Identity, Lease>, net: Net, reservations: map<Identity, Reservation>, now: u64, kept: map<Identity, Lease>) {
    && (forall id :: id in kept ==> id in all && kept[id] == all[id] && Tolerated(net, reservations, id, kept[id], now))
    && (forall x, y :: x in kept && y in kept && x != y ==> kept[x].ip != kept[y].ip)
    && (forall id :: id in all && id !in kept && Tolerated(net, reservations, id, all[id], now) ==> exists x :: x in kept && kept[x].ip == all[id].ip)
  }

  /** The state `s` adopted under a configuration: offers go, the rest is filtered, declined addresses stay. */
  ghost predicate Revalidated(s: Pool4, net: Net, now: u64, s': Pool4) {
    && s'.net == net && s'.offers == map[] && s'.declined == s.declined
    && ReservationsKept(s.reservations, net, s'.reservations)
    && LeasesKept(s.leases, net, s'.reservations, now, s'.leases)
  }
}
