/** The DHCPv4 lease pool object and the client state machine that drives it. */
module Dhcp4Server {
  import opened Basics
  import opened Dhcp4State
  import opened Dhcp4Pool
  import Safety = Dhcp4Safety
  import Sync = Dhcp4Sync
  import RotatingSearch

  // ------------------------------------------------------------------ the runtime fields agree with the plain state

  /** Exact reference counts, state within its budgets, and no expiry before `bound`. */
  ghost predicate Sound(use: Index, s: Pool4, bound: u64) {
    Indexed(use, s) && Bounded(s) && s.ExpiresFrom(bound)
  }

  /** Looks for a client or an address named twice, and for names that cannot be stored. */
  method AdmitBatch(batch: Sync.Batch) returns (ok: bool)
    ensures ok <==> Sync.Admitted(batch)
  {
    hide ValidHost, Sync.Named, Sync.Addressed, Sync.Distinct;
    if |batch| > Sync.MAX_SYNCED_LEASES {
      return false;
    }
    var clients: set<Identity>, addresses: set<u32> := {}, {};
    Sync.NoneYet(batch);
    for n := 0 to |batch|
      invariant forall id :: id in clients <==> Sync.Named(batch, n, id)
      invariant forall ip: u32 :: ip in addresses <==> Sync.Addressed(batch, n, ip)
      invariant Sync.Distinct(batch, n)
      invariant forall i :: 0 <= i < n ==> ValidHost(batch[i].1.host)
    {
      var id, l := batch[n].0, batch[n].1;
      Sync.NamedNext(batch, n);
      Sync.DistinctNext(batch, n);
      if !ValidHost(l.host) || id in clients || l.ip in addresses {
        return false;
      }
      clients, addresses := clients + {id}, addresses + {l.ip};
    }
    Sync.DistinctNext(batch, |batch|);
    return true;
  }

  lemma SyncLands(use: Index, s: Pool4, bound: u64, before: Pool4, batch: Sync.Batch, times: seq<u64>, now: u64)
    requires Sound(use, s, bound) && s == before.Cleaned(now) && Sync.Admitted(batch) && |times| == |batch| && Sync.Project(s, batch, |batch|, now).Some?
    ensures Sync.Forward(now, times) ==>
      ((forall i :: 0 <= i < |batch| ==> Sync.LandsAt(s, batch, times, i))
       <==> forall i :: 0 <= i < |batch| ==> Sync.Lasts(s, batch[i].0, batch[i].1, times[i]))
  {
    hide Indexed, Pool4.Cleaned, Sync.Project, Sync.LandsAt, Sync.Lasts, Sync.Forward;
    Sync.CleanedTwice(before, now, now);
    if Sync.Forward(now, times) {
      Sync.MovingExact(s, batch, times, now);
    }
  }

  lemma SetLeaseSound(use: Index, s: Pool4, bound: u64, id: Identity, l: Lease)
    requires Sound(use, s, bound) && (id in s.leases || s.Dynamic() < MAX_STATE_ENTRIES)
    ensures Sound(Moved(use, LeaseAddress(s, id), l.ip), s.(leases := s.leases[id := l]), Min(bound, l.expiry))
  {
    hide Indexed;
    SetLeaseIndexed(use, s, id, l);
  }

  lemma SetOfferSound(use: Index, s: Pool4, bound: u64, id: Identity, o: Offer)
    requires Sound(use, s, bound) && (id in s.offers || s.Dynamic() < MAX_STATE_ENTRIES)
    ensures Sound(Moved(use, OfferAddress(s, id), o.ip), s.(offers := s.offers[id := o]), Min(bound, o.expiry))
  {
    hide Indexed;
    SetOfferIndexed(use, s, id, o);
  }

  lemma SetReservationSound(use: Index, s: Pool4, bound: u64, id: Identity, r: Reservation)
    requires Sound(use, s, bound) && (id in s.reservations || |s.reservations| < MAX_STATE_ENTRIES)
    ensures Sound(Moved(use, ReservedAddress(s, id), r.ip), s.(reservations := s.reservations[id := r]), bound)
  {
    hide Indexed;
    SetReservationIndexed(use, s, id, r);
  }

  lemma SetDeclinedSound(use: Index, s: Pool4, bound: u64, ip: u32, until: u64)
    requires Sound(use, s, bound) && (ip in s.declined || s.Dynamic() < MAX_STATE_ENTRIES)
    ensures Sound(if ip in s.declined then use else Occupy(use, ip), s.(declined := s.declined[ip := until]), Min(bound, until))
  {
    hide Indexed;
    SetDeclinedIndexed(use, s, ip, until);
  }

  lemma DropLeaseSound(use: Index, s: Pool4, bound: u64, id: Identity)
    requires Sound(use, s, bound) && id in s.leases
    ensures Sound(Vacate(use, s.leases[id].ip), s.(leases := s.leases - {id}), bound)
  {
    hide Indexed;
    DropLeaseIndexed(use, s, id);
    SmallerBounded(s, s.(leases := s.leases - {id}));
  }

  lemma DropOfferSound(use: Index, s: Pool4, bound: u64, id: Identity)
    requires Sound(use, s, bound) && id in s.offers
    ensures Sound(Vacate(use, s.offers[id].ip), s.(offers := s.offers - {id}), bound)
  {
    hide Indexed;
    DropOfferIndexed(use, s, id);
    SmallerBounded(s, s.(offers := s.offers - {id}));
  }

  lemma DropReservationSound(use: Index, s: Pool4, bound: u64, id: Identity)
    requires Sound(use, s, bound) && id in s.reservations
    ensures Sound(Vacate(use, s.reservations[id].ip), s.(reservations := s.reservations - {id}), bound)
  {
    hide Indexed;
    DropReservationIndexed(use, s, id);
    SmallerBounded(s, s.(reservations := s.reservations - {id}));
  }

  lemma DropDeclinedSound(use: Index, s: Pool4, bound: u64, ip: u32)
    requires Sound(use, s, bound) && ip in s.declined
    ensures Sound(Vacate(use, ip), s.(declined := s.declined - {ip}), bound)
  {
    hide Indexed;
    DropDeclinedIndexed(use, s, ip);
    SmallerBounded(s, s.(declined := s.declined - {ip}));
  }

  /** Before the bound nothing has expired. */
  lemma NothingToClean(use: Index, s: Pool4, bound: u64, now: u64)
    requires Sound(use, s, bound) && now < bound
    ensures s.Cleaned(now) == s
  {
    hide Indexed, Bounded;
    assert s.Cleaned(now).leases == s.leases && s.Cleaned(now).offers == s.offers && s.Cleaned(now).declined == s.declined;
  }

  lemma KeptSmaller(net: Net, leases: map<Identity, Lease>, keptReservations: map<Identity, Reservation>,
                    keptLeases: map<Identity, Lease>, now: u64, reserved: map<Identity, Reservation>)
    requires ReservationsKept(reserved, net, keptReservations) && LeasesKept(leases, net, keptReservations, now, keptLeases)
    ensures keptReservations.Keys <= reserved.Keys && keptLeases.Keys <= leases.Keys
  {
  }

  /** Keeps reservable reservations, one per address. */
  method KeepReservations(net: Net, all: map<Identity, Reservation>) returns (kept: map<Identity, Reservation>)
    ensures ReservationsKept(all, net, kept)
  {
    hide Net.Reservable;
    kept := map[];
    var todo, seen := all.Keys, {};
    while todo != {}
      invariant todo <= all.Keys && kept.Keys !! todo
      invariant forall ip :: ip in seen <==> exists id :: id in kept && kept[id].ip == ip
      invariant forall id :: id in kept ==> id in all && kept[id] == all[id] && net.Reservable(kept[id].ip)
      invariant forall x, y :: x in kept && y in kept && x != y ==> kept[x].ip != kept[y].ip
      invariant forall id :: id in all && id !in todo && id !in kept && net.Reservable(all[id].ip) ==> all[id].ip in seen
      decreases todo
    {
      var id :| id in todo;
      todo := todo - {id};
      var ip := all[id].ip;
      if net.Reservable(ip) && ip !in seen {
        ghost var before := kept;
        kept, seen := kept[id := all[id]], seen + {ip};
        assert kept[id].ip == ip && forall x :: x in before ==> x in kept && kept[x] == before[x];
      }
    }
  }

  /** Keeps tolerated leases, one per address. */
  method KeepLeases(net: Net, reservations: map<Identity, Reservation>, all: map<Identity, Lease>, now: u64)
    returns (kept: map<Identity, Lease>)
    ensures LeasesKept(all, net, reservations, now, kept)
  {
    hide Tolerated;
    kept := map[];
    var todo, seen := all.Keys, {};
    while todo != {}
      invariant todo <= all.Keys && kept.Keys !! todo
      invariant forall ip :: ip in seen <==> exists id :: id in kept && kept[id].ip == ip
      invariant forall id :: id in kept ==> id in all && kept[id] == all[id] && Tolerated(net, reservations, id, kept[id], now)
      invariant forall x, y :: x in kept && y in kept && x != y ==> kept[x].ip != kept[y].ip
      invariant forall id :: id in all && id !in todo && id !in kept && Tolerated(net, reservations, id, all[id], now) ==> all[id].ip in seen
      decreases todo
    {
      var id :| id in todo;
      todo := todo - {id};
      if Tolerated(net, reservations, id, all[id], now) && all[id].ip !in seen {
        ghost var before := kept;
        kept, seen := kept[id := all[id]], seen + {all[id].ip};
        assert kept[id].ip == all[id].ip && forall x :: x in before ==> x in kept && kept[x] == before[x];
      }
    }
  }

  method EarliestOf(s: Pool4) returns (e: u64)
    ensures s.ExpiresFrom(e)
  {
    e := U64_MAX;
    var ids := s.leases.Keys;
    while ids != {}
      invariant ids <= s.leases.Keys && forall id :: id in s.leases && id !in ids ==> e <= s.leases[id].expiry
      decreases ids
    {
      var id :| id in ids;
      ids, e := ids - {id}, Min(e, s.leases[id].expiry);
    }
    ids := s.offers.Keys;
    while ids != {}
      invariant ids <= s.offers.Keys && forall id :: id in s.leases ==> e <= s.leases[id].expiry
      invariant forall id :: id in s.offers && id !in ids ==> e <= s.offers[id].expiry
      decreases ids
    {
      var id :| id in ids;
      ids, e := ids - {id}, Min(e, s.offers[id].expiry);
    }
    var ips := s.declined.Keys;
    while ips != {}
      invariant ips <= s.declined.Keys && forall id :: id in s.leases ==> e <= s.leases[id].expiry
      invariant forall id :: id in s.offers ==> e <= s.offers[id].expiry
      invariant forall ip :: ip in s.declined && ip !in ips ==> e <= s.declined[ip]
      decreases ips
    {
      var ip :| ip in ips;
      ips, e := ips - {ip}, Min(e, s.declined[ip]);
    }
  }

  /** Filtering the tables one after another is filtering them at once. */
  lemma CleanedTwice(s: Pool4, now: u64)
    ensures s.(leases := s.Cleaned(now).leases).Cleaned(now).offers == s.Cleaned(now).offers
    ensures s.(leases := s.Cleaned(now).leases, offers := s.Cleaned(now).offers).Cleaned(now).declined == s.Cleaned(now).declined
    ensures s.(leases := s.Cleaned(now).leases, offers := s.Cleaned(now).offers, declined := s.Cleaned(now).declined) == s.Cleaned(now)
  {
  }

  lemma CleanedLive(s: Pool4, now: u64)
    ensures forall id :: id in s.Cleaned(now).leases ==> s.Cleaned(now).leases[id].expiry > now
  {
  }

  /** Searching the index is searching the claims. */
  lemma SearchMeans(use: Index, s: Pool4, found: Option<int>)
    requires Indexed(use, s) && RotatingSearch.Finds(s.net.start, s.net.end, use.Keys, found)
    ensures found.Some? ==> 0 <= found.value <= U32_MAX && s.net.InRange(found.value) && s.Claims(found.value) == {}
    ensures found.None? ==> forall ip: u32 :: s.net.InRange(ip) ==> s.Claims(ip) != {}
  {
    hide Pool4.Claims;
    match found
    case Some(ip) => assert IndexedAt(use, s, ip);
    case None =>
      forall ip: u32 | s.net.InRange(ip)
        ensures s.Claims(ip) != {}
      {
        assert ip in use.Keys && IndexedAt(use, s, ip);
      }
  }

  class LeasePool {
    var net: Net
    var leaseSecs: u32
    var leases: map<Identity, Lease>
    var offers: map<Identity, Offer>
    var declined: map<u32, u64>
    var reservations: map<Identity, Reservation>
    var addressUse: Index
    var cursor: u32
    var nextExpiry: u64

    ghost function State(): Pool4
      reads this
    {
      Pool4(net, leases, offers, declined, reservations)
    }

    ghost predicate Valid()
      reads this
    {
      Sound(addressUse, State(), nextExpiry)
    }

    /** Adopts stored leases and reservations under a configuration. */
    constructor (net: Net, leaseSecs: u32, stored: map<Identity, Lease>, reserved: map<Identity, Reservation>, now: u64)
      requires |stored| <= MAX_STATE_ENTRIES && |reserved| <= MAX_STATE_ENTRIES
      ensures Valid()
      ensures Revalidated(Pool4(net, stored, map[], map[], reserved), net, now, State())
    {
      var keptReservations := KeepReservations(net, reserved);
      var keptLeases := KeepLeases(net, keptReservations, stored, now);
      var s := Pool4(net, keptLeases, map[], map[], keptReservations);
      SmallerBounded(Pool4(net, stored, map[], map[], reserved), s);
      var index := CountAll(s);
      var earliest := EarliestOf(s);
      this.net, this.leaseSecs, this.leases, this.offers, this.declined := net, leaseSecs, keptLeases, map[], map[];
      reservations, addressUse, cursor, nextExpiry := keptReservations, index, net.start, earliest;
    }

    /** Adopts a new configuration and reservation table; leases that still fit and declined addresses stay. */
    method Reconfigure(net': Net, leaseSecs': u32, reserved: map<Identity, Reservation>, now: u64)
      requires Valid() && |reserved| <= MAX_STATE_ENTRIES
      modifies this
      ensures Valid() && leaseSecs == leaseSecs'
      ensures Revalidated(old(State()).(reservations := reserved), net', now, State())
    {
      hide Indexed, ReservationsKept, LeasesKept, Pool4.ExpiresFrom;
      var keptReservations := KeepReservations(net', reserved);
      var keptLeases := KeepLeases(net', keptReservations, leases, now);
      var s := Pool4(net', keptLeases, map[], declined, keptReservations);
      KeptSmaller(net', leases, keptReservations, keptLeases, now, reserved);
      SmallerBounded(State().(reservations := reserved), s);
      var index := CountAll(s);
      var earliest := EarliestOf(s);
      net, leaseSecs, leases, offers := net', leaseSecs', keptLeases, map[];
      reservations, addressUse, cursor, nextExpiry := keptReservations, index, net'.start, earliest;
    }

    // ---------------------------------------------------------------- single-entry updates

    method DropLease(id: Identity)
      requires Valid()
      modifies this`leases, this`addressUse
      ensures Valid() && leases == old(leases) - {id}
    {
      hide Sound;
      if id in leases {
        DropLeaseSound(addressUse, State(), nextExpiry, id);
        addressUse := Vacate(addressUse, leases[id].ip);
      }
      leases := leases - {id};
      assert id !in old(leases) ==> leases == old(leases);
    }

    method DropOffer(id: Identity)
      requires Valid()
      modifies this`offers, this`addressUse
      ensures Valid() && offers == old(offers) - {id}
    {
      hide Sound;
      if id in offers {
        DropOfferSound(addressUse, State(), nextExpiry, id);
        addressUse := Vacate(addressUse, offers[id].ip);
      }
      offers := offers - {id};
      assert id !in old(offers) ==> offers == old(offers);
    }

    method SetLease(id: Identity, l: Lease)
      requires Valid() && (id in leases || State().Dynamic() < MAX_STATE_ENTRIES)
      modifies this`leases, this`addressUse, this`nextExpiry
      ensures Valid() && leases == old(leases)[id := l]
    {
      hide Sound;
      SetLeaseSound(addressUse, State(), nextExpiry, id, l);
      addressUse := Moved(addressUse, if id in leases then Some(leases[id].ip) else None, l.ip);
      leases := leases[id := l];
      nextExpiry := Min(nextExpiry, l.expiry);
    }

    method SetOffer(id: Identity, o: Offer)
      requires Valid() && (id in offers || State().Dynamic() < MAX_STATE_ENTRIES)
      modifies this`offers, this`addressUse, this`nextExpiry
      ensures Valid() && offers == old(offers)[id := o]
    {
      hide Sound;
      SetOfferSound(addressUse, State(), nextExpiry, id, o);
      addressUse := Moved(addressUse, if id in offers then Some(offers[id].ip) else None, o.ip);
      offers := offers[id := o];
      nextExpiry := Min(nextExpiry, o.expiry);
    }

    method SetDeclined(ip: u32, until: u64)
      requires Valid() && (ip in declined || State().Dynamic() < MAX_STATE_ENTRIES)
      modifies this`declined, this`addressUse, this`nextExpiry
      ensures Valid() && declined == old(declined)[ip := until]
    {
      hide Sound;
      SetDeclinedSound(addressUse, State(), nextExpiry, ip, until);
      addressUse := if ip in declined then addressUse else Occupy(addressUse, ip);
      declined := declined[ip := until];
      nextExpiry := Min(nextExpiry, until);
    }

    // ---------------------------------------------------------------- expiry

    method ExpireLeases(now: u64) returns (next: u64)
      requires Valid()
      modifies this`leases, this`addressUse
      ensures Valid() && State() == old(State()).(leases := old(State()).Cleaned(now).leases)
      ensures forall id :: id in leases ==> next <= leases[id].expiry
    {
      hide Sound;
      next := U64_MAX;
      var todo := leases.Keys;
      while todo != {}
        invariant Valid() && todo <= leases.Keys
        invariant forall id :: id in leases ==> id in old(leases) && leases[id] == old(leases)[id]
        invariant forall id :: id in old(leases) && id !in leases ==> old(leases)[id].expiry <= now
        invariant forall id :: id in leases && id !in todo ==> now < leases[id].expiry && next <= leases[id].expiry
        decreases todo
      {
        var id :| id in todo;
        todo := todo - {id};
        if leases[id].expiry <= now {
          DropLease(id);
        } else {
          next := Min(next, leases[id].expiry);
        }
      }
      assert leases == old(State()).Cleaned(now).leases;
    }

    method ExpireOffers(now: u64) returns (next: u64)
      requires Valid()
      modifies this`offers, this`addressUse
      ensures Valid() && State() == old(State()).(offers := old(State()).Cleaned(now).offers)
      ensures forall id :: id in offers ==> next <= offers[id].expiry
    {
      hide Sound;
      next := U64_MAX;
      var todo := offers.Keys;
      while todo != {}
        invariant Valid() && todo <= offers.Keys
        invariant forall id :: id in offers ==> id in old(offers) && offers[id] == old(offers)[id]
        invariant forall id :: id in old(offers) && id !in offers ==> old(offers)[id].expiry <= now
        invariant forall id :: id in offers && id !in todo ==> now < offers[id].expiry && next <= offers[id].expiry
        decreases todo
      {
        var id :| id in todo;
        todo := todo - {id};
        if offers[id].expiry <= now {
          DropOffer(id);
        } else {
          next := Min(next, offers[id].expiry);
        }
      }
      assert offers == old(State()).Cleaned(now).offers;
    }

    method ExpireDeclined(now: u64) returns (next: u64)
      requires Valid()
      modifies this`declined, this`addressUse
      ensures Valid() && State() == old(State()).(declined := old(State()).Cleaned(now).declined)
      ensures forall ip :: ip in declined ==> next <= declined[ip]
    {
      hide Sound;
      next := U64_MAX;
      var todo := declined.Keys;
      while todo != {}
        invariant Valid() && todo <= declined.Keys
        invariant forall ip :: ip in declined ==> ip in old(declined) && declined[ip] == old(declined)[ip]
        invariant forall ip :: ip in old(declined) && ip !in declined ==> old(declined)[ip] <= now
        invariant forall ip :: ip in declined && ip !in todo ==> now < declined[ip] && next <= declined[ip]
        decreases todo
      {
        var ip :| ip in todo;
        todo := todo - {ip};
        if declined[ip] <= now {
          DropDeclinedSound(addressUse, State(), nextExpiry, ip);
          addressUse, declined := Vacate(addressUse, ip), declined - {ip};
        } else {
          next := Min(next, declined[ip]);
        }
      }
      assert declined == old(State()).Cleaned(now).declined;
    }

    /** Returns at once before the earliest expiry; otherwise drops everything that has expired. */
    method CleanupExpired(now: u64)
      requires Valid()
      modifies this`leases, this`offers, this`declined, this`addressUse, this`nextExpiry
      ensures Valid() && State() == old(State()).Cleaned(now)
    {
      hide Indexed, Bounded, Pool4.Cleaned;
      if now < nextExpiry {
        NothingToClean(addressUse, State(), nextExpiry, now);
        return;
      }
      var l := ExpireLeases(now);
      CleanedTwice(old(State()), now);
      var o := ExpireOffers(now);
      var d := ExpireDeclined(now);
      nextExpiry := Min(l, Min(o, d));
    }

    // ---------------------------------------------------------------- queries

    /** The constant-time test for a claim of anybody else. */
    method AddressUsedByOther(id: Identity, ip: u32, now: u64) returns (used: bool)
      requires Valid()
      modifies this`leases, this`offers, this`declined, this`addressUse, this`nextExpiry
      ensures Valid() && State() == old(State()).Cleaned(now)
      ensures used <==> State().UsedByOther(id, ip)
    {
      hide Pool4.UsedByOther, Pool4.Cleaned;
      CleanupExpired(now);
      used := UsedByOtherInner(id, ip);
    }

    method UsedByOtherInner(id: Identity, ip: u32) returns (used: bool)
      requires Valid()
      ensures used <==> State().UsedByOther(id, ip)
    {
      hide Indexed, Pool4.UsedByOther;
      FastTestIsScan(addressUse, State(), id, ip);
      var own := Count(id in leases && leases[id].ip == ip) + Count(id in offers && offers[id].ip == ip)
        + Count(id in reservations && reservations[id].ip == ip);
      used := Uses(addressUse, ip) > own;
    }

    /** Rotating search over the index; finds a claim-free address whenever the range has one. */
    method PickAvailable() returns (picked: Option<u32>)
      requires Valid()
      modifies this`cursor
      ensures Valid()
      ensures picked.Some? ==> net.InRange(picked.value) && State().Claims(picked.value) == {}
      ensures picked.None? ==> forall ip: u32 :: net.InRange(ip) ==> State().Claims(ip) != {}
    {
      hide Pool4.Claims, Bounded, Indexed, RotatingSearch.Finds;
      var found, next := RotatingSearch.PickBounded(net.start, net.end, cursor, addressUse.Keys);
      SearchMeans(addressUse, State(), found);
      picked := if found.Some? then Some(found.value) else None;
      cursor := next;
    }

    // ---------------------------------------------------------------- operations

    method HoldOffer(id: Identity, xid: u32, ip: u32, now: u64) returns (ok: bool)
      requires Valid()
      modifies this`leases, this`offers, this`declined, this`addressUse, this`nextExpiry
      ensures Valid() && (ok, State()) == Dhcp4State.HoldOffer(old(State()), id, xid, ip, now)
    {
      hide Sound, Pool4.Cleaned;
      CleanupExpired(now);
      if id !in offers && |leases| + |offers| + |declined| >= MAX_STATE_ENTRIES {
        return false;
      }
      SetOffer(id, Offer(ip, xid, SaturatingAdd64(now, OFFER_SECS)));
      return true;
    }

    method ConsumeOffer(id: Identity, xid: u32, ip: u32, now: u64) returns (valid: bool)
      requires Valid()
      modifies this`leases, this`offers, this`declined, this`addressUse, this`nextExpiry
      ensures Valid() && (valid, State()) == Dhcp4State.ConsumeOffer(old(State()), id, xid, ip, now)
    {
      hide Sound;
      CleanupExpired(now);
      valid := id in offers && offers[id].ip == ip && offers[id].xid == xid && offers[id].expiry > now;
      if valid {
        DropOffer(id);
      }
    }

    /** Drops both bindings of a client. */
    method Forget(id: Identity)
      requires Valid()
      modifies this`leases, this`offers, this`addressUse
      ensures Valid() && State() == Forgotten(old(State()), id)
      ensures State().Dynamic() == old(State().Dynamic() - Count(id in leases) - Count(id in offers))
    {
      hide Sound;
      RemovedSize(leases, id);
      RemovedSize(offers, id);
      DropLease(id);
      DropOffer(id);
    }

    method DeclineOwn(id: Identity, ip: u32, now: u64)
      requires Valid()
      modifies this`leases, this`offers, this`declined, this`addressUse, this`nextExpiry
      ensures Valid() && State() == DeclineOwned(old(State()), id, ip, now)
    {
      hide Sound, Net.InRange;
      if ip !in declined {
        var removing := Count(id in leases) + Count(id in offers);
        if |leases| + |offers| + |declined| - removing >= MAX_STATE_ENTRIES {
          return;
        }
      }
      Forget(id);
      if net.InRange(ip) {
        SetDeclined(ip, SaturatingAdd64(now, DECLINE_SECS));
      }
    }

    method Decline(id: Identity, ip: u32, now: u64)
      requires Valid()
      modifies this`leases, this`offers, this`declined, this`addressUse, this`nextExpiry
      ensures Valid() && State() == Dhcp4State.Decline(old(State()), id, ip, now)
    {
      hide Sound, Pool4.Cleaned, DeclineOwned;
      CleanedLive(State(), now);
      CleanupExpired(now);
      var owns := (id in offers && offers[id].ip == ip) || (id in leases && leases[id].ip == ip && leases[id].expiry > now);
      if owns {
        DeclineOwn(id, ip, now);
      } else {
        Forget(id);
      }
    }

    method Allocate(id: Identity, now: u64) returns (r: Option<u32>)
      requires Valid()
      modifies this`leases, this`offers, this`declined, this`addressUse, this`nextExpiry, this`cursor
      ensures Valid() && Allocates(old(State()), id, now, r, State())
    {
      hide Sound, Pool4.Claims, Net.InRange;
      if id in reservations {
        return Some(reservations[id].ip);
      }
      CleanupExpired(now);
      if id in offers && offers[id].expiry > now {
        return Some(offers[id].ip);
      }
      if id in leases && leases[id].expiry > now {
        return Some(leases[id].ip);
      }
      if |leases| + |offers| + |declined| >= MAX_STATE_ENTRIES {
        return None;
      }
      r := PickAvailable();
    }

    /** Drops other clients' live leases of an address about to be reserved. */
    method Evict(id: Identity, ip: u32, now: u64)
      requires Valid()
      modifies this`leases, this`addressUse
      ensures Valid()
      ensures leases == map x | x in old(leases) && !(old(leases)[x].ip == ip && old(leases)[x].expiry > now && x != id) :: old(leases)[x]
    {
      hide Sound;
      var todo := leases.Keys;
      while todo != {}
        invariant Valid() && todo <= leases.Keys
        invariant forall x :: x in leases ==> x in old(leases) && leases[x] == old(leases)[x]
        invariant forall x :: x in old(leases) && x !in leases ==> old(leases)[x].ip == ip && old(leases)[x].expiry > now && x != id
        invariant forall x :: x in leases && x !in todo ==> !(leases[x].ip == ip && leases[x].expiry > now && x != id)
        decreases todo
      {
        var x :| x in todo;
        todo := todo - {x};
        if leases[x].ip == ip && leases[x].expiry > now && x != id {
          DropLease(x);
        }
      }
    }

    method AddReservation(id: Identity, ip: u32, host: Option<Host>, now: u64) returns (ok: bool)
      requires Valid()
      modifies this`leases, this`addressUse, this`reservations
      ensures Valid() && (ok, State()) == Dhcp4State.AddReservation(old(State()), id, ip, host, now)
    {
      hide Sound, ValidHost, Net.Reservable;
      if !ValidHost(host) || !net.Reservable(ip) {
        return false;
      }
      if exists x :: x in reservations && x != id && reservations[x].ip == ip {
        return false;
      }
      if id !in reservations && |reservations| >= MAX_STATE_ENTRIES {
        return false;
      }
      Evict(id, ip, now);
      SetReservationSound(addressUse, State(), nextExpiry, id, Reservation(ip, host));
      addressUse := Moved(addressUse, if id in reservations then Some(reservations[id].ip) else None, ip);
      reservations := reservations[id := Reservation(ip, host)];
      return true;
    }

    method RemoveReservation(id: Identity) returns (removed: bool)
      requires Valid()
      modifies this`addressUse, this`reservations
      ensures Valid() && (removed, State()) == Dhcp4State.RemoveReservation(old(State()), id)
    {
      hide Sound;
      removed := id in reservations;
      if removed {
        DropReservationSound(addressUse, State(), nextExpiry, id);
        addressUse := Vacate(addressUse, reservations[id].ip);
      }
      reservations := reservations - {id};
      assert id !in old(reservations) ==> reservations == old(reservations);
    }

    /** Replaces the client's offer and previous lease by a lease, within the budget. */
    method Record(id: Identity, lease: Lease) returns (ok: bool)
      requires Valid()
      modifies this`leases, this`offers, this`addressUse, this`nextExpiry
      ensures Valid() && (ok, State()) == PutLease(old(State()), id, lease)
    {
      hide Sound;
      if id !in leases && |leases| + |offers| + |declined| - Count(id in offers) >= MAX_STATE_ENTRIES {
        return false;
      }
      RemovedSize(offers, id);
      DropOffer(id);
      SetLease(id, lease);
      return true;
    }

    method Commit(id: Identity, mac: Bytes, ip: u32, host: Option<Host>, now: u64) returns (ok: bool)
      requires Valid()
      modifies this`leases, this`offers, this`declined, this`addressUse, this`nextExpiry
      ensures Valid() && (ok, State()) == Dhcp4State.Commit(old(State()), id, mac, ip, host, leaseSecs, now)
    {
      hide Sound, ValidHost, PutLease;
      if !ValidHost(host) {
        return false;
      }
      var name := if id in reservations && reservations[id].host.Some? then reservations[id].host
                  else if host.Some? then host
                  else if id in leases then leases[id].host else None;
      CleanupExpired(now);
      ok := Record(id, Lease(mac, ip, LeaseExpiry(now, leaseSecs), name));
    }

    method CheckSynced(id: Identity, ip: u32) returns (ok: bool)
      requires Valid()
      ensures ok <==> Acceptable(State(), id, ip)
    {
      hide Sound, Pool4.UsedByOther;
      if id in reservations {
        if reservations[id].ip != ip {
          return false;
        }
      } else if !net.InRange(ip) {
        return false;
      }
      var used := UsedByOtherInner(id, ip);
      ok := !used;
    }

    method Insert(id: Identity, lease: Lease, now: u64) returns (ok: bool)
      requires Valid()
      modifies this`leases, this`offers, this`declined, this`addressUse, this`nextExpiry
      ensures Valid() && (ok, State()) == Dhcp4State.Insert(old(State()), id, lease, now)
    {
      hide Sound, ValidHost, PutLease, Acceptable;
      if !ValidHost(lease.host) {
        return false;
      }
      CleanupExpired(now);
      if lease.expiry <= now {
        return false;
      }
      var acceptable := CheckSynced(id, lease.ip);
      if !acceptable {
        return false;
      }
      if id in leases && leases[id].expiry >= lease.expiry && leases[id].ip == lease.ip {
        return false;
      }
      ok := Record(id, lease);
    }

    /** Checks a batch from the peer node before any of it is applied; the pool only loses what has expired. */
    method ValidateSyncedBatch(batch: Sync.Batch, now: u64) returns (ok: bool)
      requires Valid()
      modifies this`leases, this`offers, this`declined, this`addressUse, this`nextExpiry
      ensures Valid() && State() == old(State()).Cleaned(now)
      ensures ok <==> Sync.Project(State(), batch, |batch|, now).Some?
    {
      hide Sound, Pool4.Cleaned, Sync.Project;
      CleanupExpired(now);
      ok := ProjectBatch(batch, now);
    }

    method ProjectBatch(batch: Sync.Batch, now: u64) returns (ok: bool)
      requires Valid()
      ensures ok <==> Sync.Project(State(), batch, |batch|, now).Some?
    {
      hide Sound, Acceptable, Pool4.Cleaned;
      var projected := |leases| + |offers| + |declined|;
      for n := 0 to |batch|
        invariant Sync.Project(State(), batch, n, now) == Some(projected)
      {
        var id, l := batch[n].0, batch[n].1;
        var acceptable := CheckSynced(id, l.ip);
        if l.expiry <= now || !acceptable {
          Sync.RefusedForGood(State(), batch, n + 1, |batch|, now);
          return false;
        }
        if id in leases && leases[id].ip == l.ip && leases[id].expiry >= l.expiry {
          continue;
        }
        if id in leases {
          projected := if projected >= Count(id in offers) then projected - Count(id in offers) else 0;
        } else if id !in offers {
          if projected >= MAX_STATE_ENTRIES {
            Sync.RefusedForGood(State(), batch, n + 1, |batch|, now);
            return false;
          }
          projected := projected + 1;
        }
      }
      return true;
    }

    /**
     Takes a batch from the peer node, or refuses all of it; `now` is the time of the check and `times` those of the
     insertions. What it takes lands completely exactly when every lease lasts until its insertion.
     */
    method ApplyLeaseSync(batch: Sync.Batch, now: u64, times: seq<u64>) returns (changed: Option<nat>)
      requires Valid() && |times| == |batch|
      modifies this`leases, this`offers, this`declined, this`addressUse, this`nextExpiry
      ensures Valid()
      ensures batch == [] ==> changed == Some(0) && State() == old(State())
      ensures changed.None? ==> State() == old(State()) || State() == old(State()).Cleaned(now)
      ensures batch != [] ==>
        var c := old(State()).Cleaned(now);
        && (changed.Some? <==> Sync.Admitted(batch) && Sync.Project(c, batch, |batch|, now).Some?)
        && (changed.Some? ==> State() == Sync.AppliedAt(c, batch, times, |batch|) && changed.value == Sync.Changes(c, batch, times, |batch|))
        && (changed.Some? && Sync.Forward(now, times) ==>
              ((forall i :: 0 <= i < |batch| ==> Sync.LandsAt(c, batch, times, i))
               <==> forall i :: 0 <= i < |batch| ==> Sync.Lasts(c, batch[i].0, batch[i].1, times[i])))
    {
      hide Sound, Pool4.Cleaned, Sync.Project, Sync.Admitted, Sync.LandsAt, Sync.Lasts, Sync.AppliedAt, Sync.Changes, Sync.Forward, Dhcp4State.Insert;
      if batch == [] {
        return Some(0);
      }
      var admitted := AdmitBatch(batch);
      if !admitted {
        return None;
      }
      var ok := ValidateSyncedBatch(batch, now);
      if !ok {
        return None;
      }
      SyncLands(addressUse, State(), nextExpiry, old(State()), batch, times, now);
      var count := InsertBatch(batch, times);
      return Some(count);
    }

    /** The insertions, in order. */
    method InsertBatch(batch: Sync.Batch, times: seq<u64>) returns (count: nat)
      requires Valid() && |times| == |batch|
      modifies this`leases, this`offers, this`declined, this`addressUse, this`nextExpiry
      ensures Valid() && State() == Sync.AppliedAt(old(State()), batch, times, |batch|) && count == Sync.Changes(old(State()), batch, times, |batch|)
    {
      hide Sound, Pool4.Cleaned, Dhcp4State.Insert;
      count := 0;
      for n := 0 to |batch|
        invariant Valid() && State() == Sync.AppliedAt(old(State()), batch, times, n) && count == Sync.Changes(old(State()), batch, times, n)
      {
        var inserted := Insert(batch[n].0, batch[n].1, times[n]);
        if inserted {
          count := count + 1;
        }
      }
    }

    method Release(id: Identity, ip: u32)
      requires Valid()
      modifies this`leases, this`addressUse
      ensures Valid() && State() == Dhcp4State.Release(old(State()), id, ip)
    {
      hide Sound;
      if id in leases && leases[id].ip == ip {
        DropLease(id);
      }
    }

    // ---------------------------------------------------------------- client messages

    method HandleRequest(from: Safety.Sender, target: u32, selecting: bool, t1: u64, t2: u64, t3: u64) returns (reply: Safety.Reply)
      requires Valid()
      modifies this`leases, this`offers, this`declined, this`addressUse, this`nextExpiry
      ensures Valid()
      ensures (reply, State()) == Safety.HandleRequest(old(State()), from, target, selecting, leaseSecs, t1, t2, t3)
    {
      hide Sound, Dhcp4State.Commit, Dhcp4State.ConsumeOffer, Pool4.Cleaned, Pool4.UsedByOther;
      if selecting {
        var offered := ConsumeOffer(from.id, from.xid, target, t1);
        if !offered {
          return Safety.Nak;
        }
      }
      if from.id in reservations {
        if reservations[from.id].ip != target {
          return Safety.Nak;
        }
        var used := AddressUsedByOther(from.id, target, t2);
        if used {
          return Safety.Nak;
        }
        var ok := Commit(from.id, from.mac, target, from.host, t3);
        return if ok then Safety.Ack(target) else Safety.Nak;
      }
      var used := AddressUsedByOther(from.id, target, t2);
      if !net.InRange(target) || used {
        return Safety.Nak;
      }
      var ok := Commit(from.id, from.mac, target, from.host, t3);
      return if ok then Safety.Ack(target) else Safety.Nak;
    }

    method Handle(from: Safety.Sender, action: Safety.Action, t1: u64, t2: u64, t3: u64)
      returns (reply: Safety.Reply, ghost picked: Option<u32>)
      requires Valid()
      modifies this`leases, this`offers, this`declined, this`addressUse, this`nextExpiry, this`cursor
      ensures Valid()
      ensures Safety.Handles(old(State()), from, action, leaseSecs, t1, t2, t3, picked, reply, State())
    {
      hide Sound, Safety.HandleRequest, Dhcp4State.HoldOffer, Dhcp4State.Decline, Dhcp4State.Release, Pool4.Claims;
      picked := None;
      match action {
        case Discover =>
          var ip := Allocate(from.id, t1);
          picked := ip;
          if ip.None? {
            return Safety.NoReply, picked;
          }
          var ok := HoldOffer(from.id, from.xid, ip.value, t2);
          return if ok then Safety.Offers4(ip.value) else Safety.NoReply, picked;
        case Request(target, selecting) =>
          reply := HandleRequest(from, target, selecting, t1, t2, t3);
        case Declining(target) =>
          Decline(from.id, target, t1);
          return Safety.NoReply, picked;
        case Releasing(target) =>
          Release(from.id, target);
          return Safety.NoReply, picked;
      }
    }
  }
}
