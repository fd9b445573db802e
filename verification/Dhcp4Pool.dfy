/**
 The DHCPv4 pool as it runs: the plain maps plus a reference count per address, a lower bound on
 the next expiry and a rotating cursor. Every operation has exactly its effect on the plain state.
 */
module Dhcp4Pool {
  import opened Basics
  import opened Dhcp4State
  import Safety = Dhcp4Safety
  import RotatingSearch

  // ------------------------------------------------------------------ the reference counts

  type Index = map<u32, u32>

  function Uses(use: Index, ip: u32): u32 {
    if ip in use then use[ip] else 0
  }

  /** The count of every address is the number of claims on it, and only claimed addresses have one. */
  ghost predicate Indexed(use: Index, s: Pool4) {
    forall ip: u32 :: IndexedAt(use, s, ip)
  }

  ghost predicate IndexedAt(use: Index, s: Pool4, ip: u32) {
    Uses(use, ip) == |s.Claims(ip)| && (ip in use <==> s.Claims(ip) != {})
  }

  /** Saturating increment. */
  function Occupy(use: Index, ip: u32): Index {
    use[ip := if Uses(use, ip) < U32_MAX then Uses(use, ip) + 1 else U32_MAX]
  }

  /** Decrement; the last reference removes the entry. */
  function Vacate(use: Index, ip: u32): Index {
    if Uses(use, ip) <= 1 then use - {ip} else use[ip := use[ip] - 1]
  }

  ghost predicate Bounded(s: Pool4) {
    Safety.Bounded(s)
  }

  lemma ClaimKindSize<K, V>(m: map<K, V>, claims: set<Claim>, f: K -> Claim)
    requires forall x, y :: x in m && y in m && f(x) == f(y) ==> x == y
    requires claims <= Image(m.Keys, f)
    ensures |claims| <= |m|
  {
    ImageSize(m.Keys, f);
    SubsetSize(claims, Image(m.Keys, f));
    assert |m| == |m.Keys|;
  }

  lemma ServiceClaimsSize(s: Pool4, ip: u32)
    ensures |s.ServiceClaims(ip)| <= 4
  {
    hide Net.Network, Net.Broadcast;
    SubsetSize(s.ServiceClaims(ip), {ByService(0), ByService(1), ByService(2), ByService(3)});
  }

  /** No address has enough claims for its count to saturate. */
  lemma ClaimsBound(s: Pool4, ip: u32)
    requires Bounded(s)
    ensures |s.Claims(ip)| <= 2 * MAX_STATE_ENTRIES + 5
  {
    hide Net.Services;
    ClaimKindSize(s.leases, s.LeaseClaims(ip), id => ByLease(id));
    ClaimKindSize(s.offers, s.OfferClaims(ip), id => ByOffer(id));
    ClaimKindSize(s.reservations, s.ReservationClaims(ip), id => ByReservation(id));
    ServiceClaimsSize(s, ip);
    var l, o, d := s.LeaseClaims(ip), s.OfferClaims(ip), if ip in s.declined then {ByDecline} else {};
    var r, v := s.ReservationClaims(ip), s.ServiceClaims(ip);
    assert |l + o| <= |l| + |o| && |l + o + d| <= |l + o| + |d| && |l + o + d + r| <= |l + o + d| + |r|;
    assert |l + o + d + r + v| <= |l + o + d + r| + |v|;
  }

  lemma ClaimsAreAll(s: Pool4, ip: u32)
    ensures forall c :: c in s.Claims(ip) <==> Holds(s, ip, c)
  {
    hide Pool4.Claims, Holds;
    forall c: Claim
      ensures c in s.Claims(ip) <==> Holds(s, ip, c)
    {
      ClaimsAre(s, ip, c);
    }
  }

  /** `s'` has exactly one claim more than `s`. */
  ghost predicate Gains(s: Pool4, s': Pool4, ip: u32, c: Claim) {
    && !Holds(s, ip, c)
    && forall a, d :: Holds(s', a, d) <==> Holds(s, a, d) || (a == ip && d == c)
  }

  lemma GainsAt(s: Pool4, s': Pool4, ip: u32, c: Claim, a: u32)
    requires Gains(s, s', ip, c)
    ensures s'.Claims(a) == s.Claims(a) + (if a == ip then {c} else {})
    ensures c !in s.Claims(ip)
  {
    hide Pool4.Claims, Holds;
    ClaimsAreAll(s, a);
    ClaimsAreAll(s', a);
    ClaimsAreAll(s, ip);
  }

  lemma OccupyIndexed(use: Index, s: Pool4, s': Pool4, ip: u32, c: Claim)
    requires Indexed(use, s) && Gains(s, s', ip, c) && Bounded(s)
    ensures Indexed(Occupy(use, ip), s')
  {
    hide Pool4.Claims, Gains;
    forall a: u32
      ensures IndexedAt(Occupy(use, ip), s', a)
    {
      assert IndexedAt(use, s, a);
      ClaimsBound(s, a);
      GainsAt(s, s', ip, c, a);
    }
  }

  lemma VacateIndexed(use: Index, s: Pool4, s': Pool4, ip: u32, c: Claim)
    requires Indexed(use, s) && Gains(s', s, ip, c)
    ensures Indexed(Vacate(use, ip), s')
  {
    hide Pool4.Claims, Gains;
    forall a: u32
      ensures IndexedAt(Vacate(use, ip), s', a)
    {
      assert IndexedAt(use, s, a);
      GainsAt(s', s, ip, c, a);
    }
  }

  // ------------------------------------------------------------------ the constant-time test

  function OwnReferences(s: Pool4, id: Identity, ip: u32): nat {
    Count(id in s.leases && s.leases[id].ip == ip) + Count(id in s.offers && s.offers[id].ip == ip)
      + Count(id in s.reservations && s.reservations[id].ip == ip)
  }

  lemma OwnReferencesCount(s: Pool4, id: Identity, ip: u32)
    ensures |s.Claims(ip) * s.Own(id)| == OwnReferences(s, id, ip)
  {
    hide Pool4.Claims, Holds;
    ClaimsAreAll(s, ip);
    CountThree(s.Claims(ip), ByLease(id), ByOffer(id), ByReservation(id));
    OwnHolds(s, id, ip);
  }

  lemma CountOne<T>(s: set<T>, x: T)
    ensures |s * {x}| == Count(x in s)
  {
    assert s * {x} == if x in s then {x} else {};
  }

  lemma CountThree<T>(s: set<T>, x: T, y: T, z: T)
    requires x != y && y != z && x != z
    ensures |s * {x, y, z}| == Count(x in s) + Count(y in s) + Count(z in s)
  {
    CountOne(s, x);
    CountOne(s, y);
    CountOne(s, z);
    assert s * {x, y, z} == s * {x} + s * {y} + s * {z};
    assert |s * {x} + s * {y}| == |s * {x}| + |s * {y}|;
  }

  lemma OwnHolds(s: Pool4, id: Identity, ip: u32)
    ensures OwnReferences(s, id, ip)
         == Count(Holds(s, ip, ByLease(id))) + Count(Holds(s, ip, ByOffer(id))) + Count(Holds(s, ip, ByReservation(id)))
  {
  }

  /** Comparing two counts decides what the full scan over every table decides. */
  lemma FastTestIsScan(use: Index, s: Pool4, id: Identity, ip: u32)
    requires Indexed(use, s)
    ensures Uses(use, ip) > OwnReferences(s, id, ip) <==> s.UsedByOther(id, ip)
  {
    hide Pool4.Claims, Pool4.Own;
    assert IndexedAt(use, s, ip);
    OwnReferencesCount(s, id, ip);
    var claims, own := s.Claims(ip), s.Own(id);
    assert claims == (claims * own) + (claims - own);
    assert |claims| == |claims * own| + |claims - own|;
  }

  // ------------------------------------------------------------------ index updates, table by table

  lemma SameClaims(use: Index, s: Pool4, s': Pool4)
    requires Indexed(use, s)
    requires forall a, d :: Holds(s', a, d) <==> Holds(s, a, d)
    ensures Indexed(use, s')
  {
    hide Pool4.Claims, Holds;
    forall a: u32
      ensures IndexedAt(use, s', a)
    {
      assert IndexedAt(use, s, a);
      ClaimsAreAll(s, a);
      ClaimsAreAll(s', a);
      assert s'.Claims(a) == s.Claims(a);
    }
  }

  /** Index after a table entry moved from `before` (if it existed) to `ip`. */
  function Moved(use: Index, before: Option<u32>, ip: u32): Index {
    match before
    case Some(from) => if from != ip then Occupy(Vacate(use, from), ip) else use
    case None => Occupy(use, ip)
  }

  function LeaseAddress(s: Pool4, id: Identity): Option<u32> {
    if id in s.leases then Some(s.leases[id].ip) else None
  }

  function OfferAddress(s: Pool4, id: Identity): Option<u32> {
    if id in s.offers then Some(s.offers[id].ip) else None
  }

  function ReservedAddress(s: Pool4, id: Identity): Option<u32> {
    if id in s.reservations then Some(s.reservations[id].ip) else None
  }

  /** Two changes of one entry: the old claim goes, the new one comes. */
  lemma MovedIndexed(use: Index, s: Pool4, mid: Pool4, s': Pool4, before: Option<u32>, ip: u32, c: Claim)
    requires Indexed(use, s) && Bounded(s) && Bounded(mid)
    requires before.Some? ==> Gains(mid, s, before.value, c)
    requires before.None? ==> mid == s
    requires Gains(mid, s', ip, c)
    ensures Indexed(Moved(use, before, ip), s')
  {
    hide Indexed, Bounded, Holds;
    if before.None? {
      OccupyIndexed(use, s, s', ip, c);
    } else if before.value != ip {
      VacateIndexed(use, s, mid, before.value, c);
      OccupyIndexed(Vacate(use, before.value), mid, s', ip, c);
    } else {
      SameClaims(use, s, s');
    }
  }

  lemma LeaseGains(s: Pool4, id: Identity, l: Lease)
    requires id !in s.leases
    ensures Gains(s, s.(leases := s.leases[id := l]), l.ip, ByLease(id))
  {
    hide Net.Services;
  }

  lemma OfferGains(s: Pool4, id: Identity, o: Offer)
    requires id !in s.offers
    ensures Gains(s, s.(offers := s.offers[id := o]), o.ip, ByOffer(id))
  {
    hide Net.Services;
  }

  lemma ReservationGains(s: Pool4, id: Identity, r: Reservation)
    requires id !in s.reservations
    ensures Gains(s, s.(reservations := s.reservations[id := r]), r.ip, ByReservation(id))
  {
    hide Net.Services;
  }

  lemma DeclineGains(s: Pool4, ip: u32, until: u64)
    requires ip !in s.declined
    ensures Gains(s, s.(declined := s.declined[ip := until]), ip, ByDecline)
  {
    hide Net.Services;
  }

  lemma Restore<K, V>(m: map<K, V>, k: K)
    requires k in m
    ensures (m - {k})[k := m[k]] == m
  {
  }

  lemma Overwrite<K, V>(m: map<K, V>, k: K, v: V)
    ensures (m - {k})[k := v] == m[k := v]
  {
  }

  lemma SmallerBounded(s: Pool4, s': Pool4)
    requires Bounded(s) && s'.leases.Keys <= s.leases.Keys && s'.offers.Keys <= s.offers.Keys
    requires s'.declined.Keys <= s.declined.Keys && s'.reservations.Keys <= s.reservations.Keys
    ensures Bounded(s')
  {
    FilterSize(s.leases, s'.leases);
    FilterSize(s.offers, s'.offers);
    FilterSize(s.declined, s'.declined);
    FilterSize(s.reservations, s'.reservations);
  }

  lemma SetLeaseIndexed(use: Index, s: Pool4, id: Identity, l: Lease)
    requires Indexed(use, s) && Bounded(s)
    ensures Indexed(Moved(use, LeaseAddress(s, id), l.ip), s.(leases := s.leases[id := l]))
  {
    hide Indexed, Bounded, Gains, Moved;
    var mid := s.(leases := s.leases - {id});
    SmallerBounded(s, mid);
    LeaseGains(mid, id, l);
    Overwrite(s.leases, id, l);
    if id in s.leases {
      LeaseGains(mid, id, s.leases[id]);
      Restore(s.leases, id);
    } else {
      assert s.leases - {id} == s.leases;
    }
    MovedIndexed(use, s, mid, s.(leases := s.leases[id := l]), LeaseAddress(s, id), l.ip, ByLease(id));
  }

  lemma SetOfferIndexed(use: Index, s: Pool4, id: Identity, o: Offer)
    requires Indexed(use, s) && Bounded(s)
    ensures Indexed(Moved(use, OfferAddress(s, id), o.ip), s.(offers := s.offers[id := o]))
  {
    hide Indexed, Bounded, Gains, Moved;
    var mid := s.(offers := s.offers - {id});
    SmallerBounded(s, mid);
    OfferGains(mid, id, o);
    Overwrite(s.offers, id, o);
    if id in s.offers {
      OfferGains(mid, id, s.offers[id]);
      Restore(s.offers, id);
    } else {
      assert s.offers - {id} == s.offers;
    }
    MovedIndexed(use, s, mid, s.(offers := s.offers[id := o]), OfferAddress(s, id), o.ip, ByOffer(id));
  }

  lemma SetReservationIndexed(use: Index, s: Pool4, id: Identity, r: Reservation)
    requires Indexed(use, s) && Bounded(s)
    ensures Indexed(Moved(use, ReservedAddress(s, id), r.ip), s.(reservations := s.reservations[id := r]))
  {
    hide Indexed, Bounded, Gains, Moved;
    var mid := s.(reservations := s.reservations - {id});
    SmallerBounded(s, mid);
    ReservationGains(mid, id, r);
    Overwrite(s.reservations, id, r);
    if id in s.reservations {
      ReservationGains(mid, id, s.reservations[id]);
      Restore(s.reservations, id);
    } else {
      assert s.reservations - {id} == s.reservations;
    }
    MovedIndexed(use, s, mid, s.(reservations := s.reservations[id := r]), ReservedAddress(s, id), r.ip, ByReservation(id));
  }

  lemma DropLeaseIndexed(use: Index, s: Pool4, id: Identity)
    requires Indexed(use, s) && id in s.leases
    ensures Indexed(Vacate(use, s.leases[id].ip), s.(leases := s.leases - {id}))
  {
    hide Indexed, Gains;
    LeaseGains(s.(leases := s.leases - {id}), id, s.leases[id]);
    Restore(s.leases, id);
    VacateIndexed(use, s, s.(leases := s.leases - {id}), s.leases[id].ip, ByLease(id));
  }

  lemma DropOfferIndexed(use: Index, s: Pool4, id: Identity)
    requires Indexed(use, s) && id in s.offers
    ensures Indexed(Vacate(use, s.offers[id].ip), s.(offers := s.offers - {id}))
  {
    hide Indexed, Gains;
    OfferGains(s.(offers := s.offers - {id}), id, s.offers[id]);
    Restore(s.offers, id);
    VacateIndexed(use, s, s.(offers := s.offers - {id}), s.offers[id].ip, ByOffer(id));
  }

  lemma DropReservationIndexed(use: Index, s: Pool4, id: Identity)
    requires Indexed(use, s) && id in s.reservations
    ensures Indexed(Vacate(use, s.reservations[id].ip), s.(reservations := s.reservations - {id}))
  {
    hide Indexed, Gains;
    ReservationGains(s.(reservations := s.reservations - {id}), id, s.reservations[id]);
    Restore(s.reservations, id);
    VacateIndexed(use, s, s.(reservations := s.reservations - {id}), s.reservations[id].ip, ByReservation(id));
  }

  lemma DropDeclinedIndexed(use: Index, s: Pool4, ip: u32)
    requires Indexed(use, s) && ip in s.declined
    ensures Indexed(Vacate(use, ip), s.(declined := s.declined - {ip}))
  {
    hide Indexed, Gains;
    DeclineGains(s.(declined := s.declined - {ip}), ip, s.declined[ip]);
    Restore(s.declined, ip);
    VacateIndexed(use, s, s.(declined := s.declined - {ip}), ip, ByDecline);
  }

  lemma SetDeclinedIndexed(use: Index, s: Pool4, ip: u32, until: u64)
    requires Indexed(use, s) && Bounded(s)
    ensures Indexed(if ip in s.declined then use else Occupy(use, ip), s.(declined := s.declined[ip := until]))
  {
    hide Indexed, Bounded, Net.Services;
    if ip in s.declined {
      SameClaims(use, s, s.(declined := s.declined[ip := until]));
    } else {
      DeclineGains(s, ip, until);
      OccupyIndexed(use, s, s.(declined := s.declined[ip := until]), ip, ByDecline);
    }
  }

  // ------------------------------------------------------------------ counting from scratch

  /** Claims recorded so far, as (address, claim) pairs. */
  type Refs = set<(u32, Claim)>

  ghost function At(refs: Refs, ip: u32): set<Claim> {
    set p | p in refs && p.0 == ip :: p.1
  }

  ghost predicate CountedAt(use: Index, refs: Refs, ip: u32) {
    Uses(use, ip) == |At(refs, ip)| && (ip in use <==> At(refs, ip) != {})
  }

  ghost predicate Counted(use: Index, refs: Refs) {
    forall ip: u32 :: CountedAt(use, refs, ip)
  }

  lemma AtGrows(refs: Refs, ip: u32, c: Claim, a: u32)
    requires (ip, c) !in refs
    ensures At(refs + {(ip, c)}, a) == At(refs, a) + (if a == ip then {c} else {})
    ensures c !in At(refs, ip)
  {
  }

  lemma AtSize(refs: Refs, ip: u32)
    ensures |At(refs, ip)| <= |refs|
  {
    var f := (c: Claim) => (ip, c);
    ImageSize(At(refs, ip), f);
    SubsetSize(Image(At(refs, ip), f), refs);
  }

  lemma OccupyCounted(use: Index, refs: Refs, ip: u32, c: Claim)
    requires Counted(use, refs) && (ip, c) !in refs && |refs| < U32_MAX
    ensures Counted(Occupy(use, ip), refs + {(ip, c)})
  {
    hide At;
    forall a: u32
      ensures CountedAt(Occupy(use, ip), refs + {(ip, c)}, a)
    {
      assert CountedAt(use, refs, a);
      AtGrows(refs, ip, c, a);
      AtSize(refs, a);
    }
  }

  /** Once every claim of the state was counted, the counts index the state. */
  lemma CountedIsIndexed(use: Index, refs: Refs, s: Pool4)
    requires Counted(use, refs) && forall ip: u32, c :: (ip, c) in refs <==> Holds(s, ip, c)
    ensures Indexed(use, s)
  {
    hide Pool4.Claims, Holds;
    forall ip: u32
      ensures IndexedAt(use, s, ip)
    {
      assert CountedAt(use, refs, ip);
      ClaimsAreAll(s, ip);
      forall c
        ensures c in At(refs, ip) <==> c in s.Claims(ip)
      {
        assert c in At(refs, ip) <==> (ip, c) in refs;
      }
      assert At(refs, ip) == s.Claims(ip);
    }
  }

  method CountServices(net: Net) returns (use: Index, ghost refs: Refs)
    ensures Counted(use, refs) && |refs| <= 4
    ensures forall ip, c :: (ip, c) in refs <==>
      c.ByService? && c.k < |net.Services()| && net.Services()[c.k] == ip && net.InRange(ip)
  {
    hide Net.Network, Net.Broadcast, Counted;
    use, refs := map[], {};
    CountNothing();
    for k := 0 to |net.Services()|
      invariant Counted(use, refs) && |refs| <= k
      invariant forall ip, c :: (ip, c) in refs <==>
        c.ByService? && c.k < k && net.Services()[c.k] == ip && net.InRange(ip)
    {
      var ip := net.Services()[k];
      if net.InRange(ip) {
        OccupyCounted(use, refs, ip, ByService(k));
        use, refs := Occupy(use, ip), refs + {(ip, ByService(k))};
      }
    }
  }

  lemma CountNothing()
    ensures Counted(map[], {})
  {
    forall ip: u32
      ensures CountedAt(map[], {}, ip)
    {
      assert At({}, ip) == {};
    }
  }

  /** Adds one claim per entry of a table. */
  method CountTable<K(==)>(addresses: map<K, u32>, claim: K -> Claim, use0: Index, ghost refs0: Refs)
    returns (use: Index, ghost refs: Refs)
    requires Counted(use0, refs0) && |refs0| + |addresses| < U32_MAX
    requires forall x, y :: x in addresses && y in addresses && addresses[x] == addresses[y] && claim(x) == claim(y) ==> x == y
    requires forall x, p :: x in addresses && p in refs0 ==> p.1 != claim(x)
    ensures Counted(use, refs) && |refs| <= |refs0| + |addresses|
    ensures forall ip, c :: (ip, c) in refs <==> (ip, c) in refs0 || exists x :: x in addresses && addresses[x] == ip && claim(x) == c
  {
    hide Counted, Occupy;
    use, refs := use0, refs0;
    var todo := addresses.Keys;
    assert |addresses| == |addresses.Keys|;
    while todo != {}
      invariant todo <= addresses.Keys && Counted(use, refs)
      invariant |refs| + |todo| <= |refs0| + |addresses.Keys|
      invariant forall ip, c :: (ip, c) in refs <==>
        (ip, c) in refs0 || exists x :: x in addresses && x !in todo && addresses[x] == ip && claim(x) == c
      decreases todo
    {
      var x :| x in todo;
      assert (addresses[x], claim(x)) !in refs;
      OccupyCounted(use, refs, addresses[x], claim(x));
      use, refs, todo := Occupy(use, addresses[x]), refs + {(addresses[x], claim(x))}, todo - {x};
    }
  }

  function LeaseIps(m: map<Identity, Lease>): map<Identity, u32> {
    map id | id in m :: m[id].ip
  }

  function OfferIps(m: map<Identity, Offer>): map<Identity, u32> {
    map id | id in m :: m[id].ip
  }

  function ReservationIps(m: map<Identity, Reservation>): map<Identity, u32> {
    map id | id in m :: m[id].ip
  }

  function DeclinedIps(m: map<u32, u64>): map<u32, u32> {
    map ip | ip in m :: ip
  }

  lemma SameSize<K, V, W>(m: map<K, V>, m': map<K, W>)
    requires m.Keys == m'.Keys
    ensures |m| == |m'|
  {
    assert |m| == |m.Keys| && |m'| == |m'.Keys|;
  }

  /** Counts every claim of the state from scratch. */
  method CountAll(s: Pool4) returns (use: Index)
    requires Bounded(s)
    ensures Indexed(use, s)
  {
    hide Counted, Indexed, Net.Services, Net.InRange;
    ghost var refs;
    use, refs := CountServices(s.net);
    SameSize(s.leases, LeaseIps(s.leases));
    SameSize(s.offers, OfferIps(s.offers));
    SameSize(s.reservations, ReservationIps(s.reservations));
    SameSize(s.declined, DeclinedIps(s.declined));
    use, refs := CountTable(LeaseIps(s.leases), id => ByLease(id), use, refs);
    use, refs := CountTable(OfferIps(s.offers), id => ByOffer(id), use, refs);
    use, refs := CountTable(DeclinedIps(s.declined), ip => ByDecline, use, refs);
    use, refs := CountTable(ReservationIps(s.reservations), id => ByReservation(id), use, refs);
    CountedIsIndexed(use, refs, s);
  }
}
