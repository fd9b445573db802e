/**
 The DHCPv6 lease pool: confirmed leases and outstanding offers, an index of occupied
 addresses, a lower bound on the next expiry, and a rotating allocation cursor.
 */
module Lease6 {
  import opened Basics
  import opened IaStore
  import RotatingSearch

  const MAX_LEASES := 100_000
  const OFFER_SECS: u64 := 60

  type Bindings = map<IaKey, Binding>

  ghost predicate Within(m: Bindings, start: u128, end: u128) {
    forall q :: q in m ==> start <= m[q].ip <= end
  }

  /** No two associations share an address. */
  ghost predicate Injective(m: Bindings) {
    forall q, r :: q in m && r in m && m[q].ip == m[r].ip ==> q == r
  }

  /** What the pool stands for: its range and the two plain maps. */
  datatype PoolState = PoolState(start: u128, end: u128, leases: Bindings, offers: Bindings) {

    /** Without everything that has expired. */
    function Cleaned(now: u64): PoolState {
      this.(leases := Unexpired(leases, now), offers := Unexpired(offers, now))
    }

    function Entries(): nat {
      |leases| + |offers|
    }

    function Occupied(): set<u128> {
      Addresses(leases) + Addresses(offers)
    }

    /** Every address is in range and is held once: by one lease or by one offer of one association. */
    ghost predicate Exclusive() {
      && Within(leases, start, end) && Within(offers, start, end)
      && Injective(leases) && Injective(offers)
      && Addresses(leases) !! Addresses(offers)
    }

    /** `bound` is no later than any expiry. */
    ghost predicate ExpiresFrom(bound: u64) {
      && (forall q :: q in leases ==> bound <= leases[q].expiry)
      && (forall q :: q in offers ==> bound <= offers[q].expiry)
    }

    ghost predicate Inv() {
      Exclusive() && Entries() <= MAX_LEASES
    }
  }

  function LeaseExpiry(now: u64, lease: u32): (expiry: u64)
    ensures now <= expiry
  {
    if lease == U32_MAX then U64_MAX else SaturatingAdd64(now, lease)
  }

  // ------------------------------------------------------------------ steps on the plain state

  lemma UnexpiredKeeps(m: Bindings, now: u64)
    requires Injective(m)
    ensures |Unexpired(m, now)| <= |m| && Injective(Unexpired(m, now))
    ensures Addresses(Unexpired(m, now)) == Addresses(m) - Dropped(m, Unexpired(m, now))
  {
    var m' := Unexpired(m, now);
    SubsetSize(m'.Keys, m.Keys);
    assert |m| == |m.Keys| && |m'| == |m'.Keys|;
    forall ip
      ensures ip in Addresses(m') <==> ip in Addresses(m) && ip !in Dropped(m, m')
    {
      if ip in Addresses(m') {
        var q :| q in m' && m'[q].ip == ip;
        assert q in m && m[q].ip == ip;
      }
    }
  }

  /** Cleaning keeps the invariant, and dropping the freed addresses keeps an exact index exact. */
  lemma CleanedKeeps(s: PoolState, now: u64)
    requires s.Inv()
    ensures s.Cleaned(now).Inv()
    ensures s.Occupied() - Dropped(s.leases, Unexpired(s.leases, now)) - Dropped(s.offers, Unexpired(s.offers, now))
         == s.Cleaned(now).Occupied()
  {
    UnexpiredKeeps(s.leases, now);
    UnexpiredKeeps(s.offers, now);
    DroppedWithin(s.leases, now);
    DroppedWithin(s.offers, now);
  }

  /** Cleaning an association keeps it exactly while it is live. */
  lemma CleanedAt(s: PoolState, k: IaKey, now: u64)
    ensures k in s.Cleaned(now).leases <==> k in s.leases && s.leases[k].expiry > now
    ensures k in s.Cleaned(now).leases ==> s.Cleaned(now).leases[k] == s.leases[k]
    ensures k in s.Cleaned(now).offers <==> k in s.offers && s.offers[k].expiry > now
    ensures k in s.Cleaned(now).offers ==> s.Cleaned(now).offers[k] == s.offers[k]
  {
  }

  lemma DroppedWithin(m: Bindings, now: u64)
    ensures Dropped(m, Unexpired(m, now)) <= Addresses(m)
  {
  }

  /** Nothing has expired before the bound, so skipping the cleanup loses nothing. */
  lemma NothingToClean(s: PoolState, bound: u64, now: u64)
    requires s.ExpiresFrom(bound) && now < bound
    ensures s.Cleaned(now) == s
  {
    assert Unexpired(s.leases, now) == s.leases;
    assert Unexpired(s.offers, now) == s.offers;
  }

  /** Setting one association: its old address goes, the new one comes. */
  lemma SetAddresses(m: Bindings, k: IaKey, v: Binding)
    requires Injective(m)
    ensures Addresses(m[k := v]) == (if k in m then Addresses(m) - {m[k].ip} else Addresses(m)) + {v.ip}
  {
    forall ip
      ensures ip in Addresses(m[k := v]) <==> ip == v.ip || (ip in Addresses(m) && !(k in m && m[k].ip == ip))
    {
      if ip in Addresses(m) && !(k in m && m[k].ip == ip) {
        var q :| q in m && m[q].ip == ip;
        assert q in m[k := v] && m[k := v][q].ip == ip;
      }
      if ip == v.ip {
        assert k in m[k := v];
      }
    }
  }

  lemma SetInjective(m: Bindings, k: IaKey, v: Binding)
    requires Injective(m) && (v.ip in Addresses(m) ==> k in m && m[k].ip == v.ip)
    ensures Injective(m[k := v])
  {
    assert forall q :: q in m ==> m[q].ip in Addresses(m);
  }

  lemma DeleteAddresses(m: Bindings, k: IaKey)
    requires Injective(m) && k in m
    ensures Injective(m - {k}) && Addresses(m - {k}) == Addresses(m) - {m[k].ip}
  {
    forall ip
      ensures ip in Addresses(m - {k}) <==> ip in Addresses(m) - {m[k].ip}
    {
      if ip in Addresses(m) - {m[k].ip} {
        var q :| q in m && m[q].ip == ip;
        assert q in m - {k};
      }
    }
  }

  /** The state in which association `k` was offered `ip`. */
  function Offered(s: PoolState, k: IaKey, v: Binding): PoolState {
    s.(offers := s.offers[k := v])
  }

  lemma OfferedKeeps(s: PoolState, k: IaKey, v: Binding)
    requires s.Inv() && s.start <= v.ip <= s.end
    requires v.ip in s.Occupied() ==> k in s.offers && s.offers[k].ip == v.ip
    requires k in s.offers || s.Entries() < MAX_LEASES
    ensures Offered(s, k, v).Inv()
    ensures Offered(s, k, v).Occupied() == (if k in s.offers then s.Occupied() - {s.offers[k].ip} else s.Occupied()) + {v.ip}
  {
    SetAddresses(s.offers, k, v);
    SetInjective(s.offers, k, v);
    assert k in s.offers ==> s.offers[k].ip in Addresses(s.offers);
  }

  lemma OfferedExpires(s: PoolState, k: IaKey, v: Binding, bound: u64)
    requires s.ExpiresFrom(bound)
    ensures Offered(s, k, v).ExpiresFrom(Min(bound, v.expiry))
  {
  }

  /** The state in which association `k` holds a confirmed lease and no offer. */
  function Committed(s: PoolState, k: IaKey, v: Binding): PoolState {
    s.(leases := s.leases[k := v], offers := s.offers - {k})
  }

  /** The state in which association `k` has no offer. */
  function Withdrawn(s: PoolState, k: IaKey): PoolState {
    s.(offers := s.offers - {k})
  }

  lemma WithdrawnKeeps(s: PoolState, k: IaKey, bound: u64)
    requires s.Inv() && s.ExpiresFrom(bound)
    ensures Withdrawn(s, k).Inv() && Withdrawn(s, k).ExpiresFrom(bound)
    ensures Withdrawn(s, k).Entries() == s.Entries() - (if k in s.offers then 1 else 0)
    ensures Withdrawn(s, k).Occupied() == if k in s.offers then s.Occupied() - {s.offers[k].ip} else s.Occupied()
  {
    if k in s.offers {
      DeleteAddresses(s.offers, k);
      RemovedSize(s.offers, k);
      assert s.offers[k].ip in Addresses(s.offers);
    } else {
      assert s.offers - {k} == s.offers;
    }
  }

  /** The state in which association `k` holds a confirmed lease. */
  function Leased(s: PoolState, k: IaKey, v: Binding): PoolState {
    s.(leases := s.leases[k := v])
  }

  lemma LeasedKeeps(s: PoolState, k: IaKey, v: Binding)
    requires s.Inv() && s.start <= v.ip <= s.end
    requires v.ip in s.Occupied() ==> k in s.leases && s.leases[k].ip == v.ip
    requires k in s.leases || s.Entries() < MAX_LEASES
    ensures Leased(s, k, v).Inv()
    ensures Leased(s, k, v).Occupied() == (if k in s.leases then s.Occupied() - {s.leases[k].ip} else s.Occupied()) + {v.ip}
  {
    SetAddresses(s.leases, k, v);
    SetInjective(s.leases, k, v);
    assert k in s.leases ==> s.leases[k].ip in Addresses(s.leases);
  }

  lemma LeasedExpires(s: PoolState, k: IaKey, v: Binding, bound: u64)
    requires s.ExpiresFrom(bound)
    ensures Leased(s, k, v).ExpiresFrom(Min(bound, v.expiry))
  {
  }

  /** Withdrawing the own offer makes its address free for the own lease. */
  lemma WithdrawnRoom(s: PoolState, k: IaKey, ip: u128)
    requires s.Inv() && CanCommit(s, k, ip, false)
    ensures ip in Withdrawn(s, k).Occupied() ==> HasLease(s, k, ip)
    ensures k in s.leases || Withdrawn(s, k).Entries() < MAX_LEASES
    ensures k !in s.offers ==> Withdrawn(s, k) == s
  {
    hide PoolState.Inv, PoolState.Occupied, PoolState.ExpiresFrom;
    InvSize(s);
    AnyBound(s);
    WithdrawnKeeps(s, k, 0);
    assert k !in s.offers ==> s.offers - {k} == s.offers;
  }

  lemma AnyBound(s: PoolState)
    ensures s.ExpiresFrom(0)
  {
  }

  /** The state without the lease of `k`. */
  function Released(s: PoolState, k: IaKey): PoolState {
    s.(leases := s.leases - {k})
  }

  lemma ReleasedKeeps(s: PoolState, k: IaKey, bound: u64)
    requires s.Inv() && k in s.leases && s.ExpiresFrom(bound)
    ensures Released(s, k).ExpiresFrom(bound)
    ensures Released(s, k).Inv() && Released(s, k).Occupied() == s.Occupied() - {s.leases[k].ip}
  {
    RemovedSize(s.leases, k);
    DeleteAddresses(s.leases, k);
    assert s.leases[k].ip in Addresses(s.leases);
  }

  // ------------------------------------------------------------------ what each operation answers

  /** A live lease or offer is handed out again; otherwise any free address, if the cap allows one. */
  ghost predicate Allocates(s: PoolState, k: IaKey, r: Option<u128>) {
    if k in s.leases then r == Some(s.leases[k].ip)
    else if k in s.offers then r == Some(s.offers[k].ip)
    else if s.Entries() >= MAX_LEASES then r == None
    else RotatingSearch.Finds(s.start, s.end, s.Occupied(), r)
  }

  /** `ip` is free or already offered to `k`, and there is room. */
  predicate CanOffer(s: PoolState, k: IaKey, ip: u128) {
    && (ip in s.Occupied() ==> k in s.offers && s.offers[k].ip == ip)
    && (k in s.offers || s.Entries() < MAX_LEASES)
  }

  predicate HasLease(s: PoolState, k: IaKey, ip: u128) {
    k in s.leases && s.leases[k].ip == ip
  }

  predicate HasOffer(s: PoolState, k: IaKey, ip: u128) {
    k in s.offers && s.offers[k].ip == ip
  }

  predicate CanCommit(s: PoolState, k: IaKey, ip: u128, requireOffer: bool) {
    && s.start <= ip <= s.end
    && (requireOffer || ip in s.Occupied() ==> HasLease(s, k, ip) || HasOffer(s, k, ip))
    && (k in s.leases || k in s.offers || s.Entries() < MAX_LEASES)
  }

  lemma RevalidatedInv(m0: Bindings, m: Bindings, now: u64, start: u128, end: u128, used: set<u128>, earliest: u64)
    requires Revalidated(m0, m, now, start, end, {}, used) && |m0| <= MAX_LEASES && IsEarliest(m, earliest)
    ensures
      var s := PoolState(start, end, m, map[]);
      s.Inv() && used == s.Occupied() && s.ExpiresFrom(earliest)
  {
    SubsetSize(m.Keys, m0.Keys);
    assert |m| == |m.Keys| && |m0| == |m0.Keys|;
    var none: Bindings := map[];
    assert Addresses(none) == {};
  }

  lemma InvSize(s: PoolState)
    requires s.Inv()
    ensures |s.leases| <= MAX_LEASES && s.Entries() <= MAX_LEASES
  {
  }

  lemma RenewedKeeps(s: PoolState, k: IaKey, expiry: u64, bound: u64)
    requires s.Inv() && k in s.leases && s.ExpiresFrom(bound)
    ensures Leased(s, k, Binding(s.leases[k].ip, expiry)).ExpiresFrom(Min(bound, expiry))
    ensures Leased(s, k, Binding(s.leases[k].ip, expiry)).Inv()
    ensures Leased(s, k, Binding(s.leases[k].ip, expiry)).Occupied() == s.Occupied()
  {
    LeasedKeeps(s, k, Binding(s.leases[k].ip, expiry));
    LeasedExpires(s, k, Binding(s.leases[k].ip, expiry), bound);
    assert s.leases[k].ip in Addresses(s.leases);
  }

  class Lease6Pool {
    var start: u128
    var end: u128
    var leaseSecs: u32
    var leases: IaMap
    var offers: IaMap
    var used: set<u128>
    var cursor: u128
    var nextExpiry: u64

    ghost function State(): PoolState
      reads this, leases, offers
    {
      PoolState(start, end, leases.Contents(), offers.Contents())
    }

    ghost predicate Valid()
      reads this, leases, offers
    {
      && leases != offers && leases.Valid() && offers.Valid()
      && State().Inv()
      && used == State().Occupied()
      && State().ExpiresFrom(nextExpiry)
    }

    /** Takes over a restored store, dropping what no longer fits the configured range. */
    constructor (start: u128, end: u128, leaseSecs: u32, stored: IaMap, now: u64)
      requires stored.Valid() && |stored.Contents()| <= MAX_LEASES
      modifies stored
      ensures Valid() && leases == stored && fresh(offers)
      ensures Revalidated(old(stored.Contents()), State().leases, now, start, end, {}, State().Occupied())
      ensures State() == PoolState(start, end, State().leases, map[])
    {
      hide WellFormed, Packed, Abs, Revalidated, IsEarliest, PoolState.Inv, PoolState.Occupied, PoolState.ExpiresFrom;
      var index := stored.RetainValid(now, start, end, {});
      var none := new IaMap();
      var earliest := stored.NextExpiry();
      this.start, this.end, this.leaseSecs := start, end, leaseSecs;
      this.leases, this.offers, this.used := stored, none, index;
      this.cursor, this.nextExpiry := start, earliest;
      new;
      RevalidatedInv(old(stored.Contents()), stored.Contents(), now, start, end, index, earliest);
      SeekCursor();
    }

    /** Adopts a new configuration: leases that still fit stay, offers go. */
    method Reconfigure(start': u128, end': u128, leaseSecs': u32, now: u64)
      requires Valid()
      modifies this, leases, offers
      ensures Valid() && leases == old(leases) && fresh(offers) && leaseSecs == leaseSecs'
      ensures Revalidated(old(State()).leases, State().leases, now, start', end', {}, State().Occupied())
      ensures State() == PoolState(start', end', State().leases, map[])
    {
      hide WellFormed, Packed, Abs, Revalidated, IsEarliest, PoolState.Inv, PoolState.Occupied, PoolState.ExpiresFrom;
      InvSize(State());
      var index := leases.RetainValid(now, start', end', {});
      var none := new IaMap();
      var earliest := leases.NextExpiry();
      start, end, leaseSecs, offers := start', end', leaseSecs', none;
      used, nextExpiry, cursor := index, earliest, start';
      RevalidatedInv(old(State()).leases, leases.Contents(), now, start, end, index, earliest);
      SeekCursor();
    }

    /** Moves the cursor past the occupied front of the range. */
    method SeekCursor()
      requires Valid()
      modifies this`cursor
      ensures Valid()
      ensures (start <= cursor <= end && cursor !in used) || forall ip: u128 :: start <= ip <= end ==> ip in used
    {
      hide WellFormed, Packed, Abs, PoolState.Inv, PoolState.Occupied, PoolState.ExpiresFrom;
      var picked, _ := RotatingSearch.PickRound(start, end, start, used);
      if picked.Some? {
        cursor := picked.value;
      }
    }

    /** Skips the walk before the earliest expiry; otherwise drops everything that has expired. */
    method CleanupExpired(now: u64)
      requires Valid()
      modifies this, leases, offers
      ensures Valid() && leases == old(leases) && offers == old(offers) && leaseSecs == old(leaseSecs)
      ensures State() == old(State()).Cleaned(now)
    {
      hide WellFormed, Packed, Abs, Unexpired, PoolState.Inv, PoolState.Occupied;
      CleanedKeeps(State(), now);
      if now < nextExpiry {
        NothingToClean(State(), nextExpiry, now);
        return;
      }
      ghost var s := State();
      var index := leases.RemoveExpired(now, used);
      index := offers.RemoveExpired(now, index);
      var l := leases.NextExpiry();
      var o := offers.NextExpiry();
      used, nextExpiry := index, Min(l, o);
      assert State() == s.Cleaned(now);
    }

    /** The address this association gets, without recording anything. */
    method Allocate(duid: Bytes, iaid: Iaid, now: u64) returns (r: Option<u128>)
      requires Valid()
      modifies this, leases, offers
      ensures Valid() && leases == old(leases) && offers == old(offers) && leaseSecs == old(leaseSecs)
      ensures !Storable(duid) ==> r == None && State() == old(State())
      ensures Storable(duid) ==> State() == old(State()).Cleaned(now) && Allocates(State(), (duid, iaid), r)
    {
      hide WellFormed, Packed, Abs, Unexpired, PoolState.Inv, PoolState.Occupied, PoolState.ExpiresFrom;
      if !Storable(duid) {
        return None;
      }
      CleanedAt(State(), (duid, iaid), now);
      CleanupExpired(now);
      var hasBinding := false;
      var value := leases.Get(duid, iaid);
      if value.Some? {
        hasBinding := true;
        if value.value.expiry > now {
          return Some(value.value.ip);
        }
      }
      value := offers.Get(duid, iaid);
      if value.Some? {
        hasBinding := true;
        if value.value.expiry > now {
          return Some(value.value.ip);
        }
      }
      var entries := DynamicEntries();
      if !hasBinding && entries >= MAX_LEASES {
        return None;
      }
      var picked, next := RotatingSearch.PickRound(start, end, cursor, used);
      cursor := next;
      r := picked;
    }

    method DynamicEntries() returns (n: nat)
      requires Valid()
      ensures n == State().Entries()
    {
      var l := leases.Len();
      var o := offers.Len();
      n := l + o;
    }

    /** Reserves an advertised address for a minute. */
    method HoldOffer(duid: Bytes, iaid: Iaid, ip: u128, now: u64) returns (ok: bool)
      requires Valid()
      modifies this, leases, offers
      ensures Valid() && leases == old(leases) && offers == old(offers) && leaseSecs == old(leaseSecs)
      ensures !Storable(duid) || ip < start || ip > end ==> !ok && State() == old(State())
      ensures Storable(duid) && start <= ip <= end ==>
        var s, k := old(State()).Cleaned(now), (duid, iaid);
        && (ok <==> HasLease(s, k, ip) || CanOffer(s, k, ip))
        && State() == (if ok && !HasLease(s, k, ip) then Offered(s, k, Binding(ip, SaturatingAdd64(now, OFFER_SECS))) else s)
    {
      hide WellFormed, Packed, Abs, Unexpired, PoolState.Inv, PoolState.Occupied, PoolState.ExpiresFrom;
      if !Storable(duid) || ip < start || ip > end {
        return false;
      }
      CleanedAt(State(), (duid, iaid), now);
      CleanupExpired(now);
      var value := leases.Get(duid, iaid);
      if value.Some? && value.value.ip == ip && value.value.expiry > now {
        return true;
      }
      var own := offers.Get(duid, iaid);
      if ip in used && (own.None? || own.value.ip != ip) {
        return false;
      }
      var entries := DynamicEntries();
      if own.None? && entries >= MAX_LEASES {
        return false;
      }
      var expiry := SaturatingAdd64(now, OFFER_SECS);
      OfferedKeeps(State(), (duid, iaid), Binding(ip, expiry));
      OfferedExpires(State(), (duid, iaid), Binding(ip, expiry), nextExpiry);
      ghost var s := Offered(State(), (duid, iaid), Binding(ip, expiry));
      var replaced := offers.Insert(duid, NewValue(ip, expiry, iaid));
      var index := used;
      if replaced.Some? && replaced.value.ip != ip {
        index := index - {replaced.value.ip};
      }
      assert index + {ip} == s.Occupied();
      used, nextExpiry := index + {ip}, Min(nextExpiry, expiry);
      assert State() == s;
      return true;
    }

    /** Confirms an address; a client request additionally needs a live offer or lease of exactly that address. */
    method CommitInner(duid: Bytes, iaid: Iaid, ip: u128, requireOffer: bool, now: u64) returns (ok: bool)
      requires Valid()
      modifies this, leases, offers
      ensures Valid() && leases == old(leases) && offers == old(offers) && leaseSecs == old(leaseSecs)
      ensures !Storable(duid) ==> !ok && State() == old(State())
      ensures Storable(duid) ==>
        var s, k := old(State()).Cleaned(now), (duid, iaid);
        && (ok <==> CanCommit(s, k, ip, requireOffer))
        && State() == (if ok then Committed(s, k, Binding(ip, LeaseExpiry(now, leaseSecs))) else s)
    {
      hide WellFormed, Packed, Abs, Unexpired, PoolState.Inv, PoolState.Occupied, PoolState.ExpiresFrom;
      if !Storable(duid) {
        return false;
      }
      CleanedAt(State(), (duid, iaid), now);
      CleanupExpired(now);
      if ip < start || ip > end {
        return false;
      }
      var own := leases.Get(duid, iaid);
      var offer := offers.Get(duid, iaid);
      var ownIp := if own.Some? then Some(own.value.ip) else None;
      var offeredIp := if offer.Some? && offer.value.expiry > now then Some(offer.value.ip) else None;
      if requireOffer && offeredIp != Some(ip) && ownIp != Some(ip) {
        return false;
      }
      if ip in used && ownIp != Some(ip) && offeredIp != Some(ip) {
        return false;
      }
      var entries := DynamicEntries();
      if ownIp.None? && offeredIp.None? && entries >= MAX_LEASES {
        return false;
      }
      Confirm(duid, iaid, ip, LeaseExpiry(now, leaseSecs), offeredIp.Some?);
      return true;
    }

    /** Turns the offer, if there is one, into a lease. */
    method Confirm(duid: Bytes, iaid: Iaid, ip: u128, expiry: u64, offered: bool)
      requires Valid() && Storable(duid) && CanCommit(State(), (duid, iaid), ip, false)
      requires offered <==> (duid, iaid) in State().offers
      modifies this, leases, offers
      ensures Valid() && leases == old(leases) && offers == old(offers) && leaseSecs == old(leaseSecs)
      ensures State() == Committed(old(State()), (duid, iaid), Binding(ip, expiry))
    {
      hide WellFormed, Packed, Abs, PoolState.Inv, PoolState.Occupied, PoolState.ExpiresFrom;
      WithdrawnRoom(State(), (duid, iaid), ip);
      if offered {
        Withdraw(duid, iaid);
      }
      SetLease(duid, iaid, ip, expiry);
    }

    method Withdraw(duid: Bytes, iaid: Iaid)
      requires Valid() && (duid, iaid) in State().offers
      modifies this, offers
      ensures Valid() && leases == old(leases) && offers == old(offers) && leaseSecs == old(leaseSecs)
      ensures State() == Withdrawn(old(State()), (duid, iaid))
    {
      hide WellFormed, Packed, Abs, PoolState.Inv, PoolState.Occupied, PoolState.ExpiresFrom;
      WithdrawnKeeps(State(), (duid, iaid), nextExpiry);
      var removed := offers.Remove(duid, iaid);
      used := used - {removed.value.ip};
    }

    method SetLease(duid: Bytes, iaid: Iaid, ip: u128, expiry: u64)
      requires Valid() && Storable(duid) && start <= ip <= end
      requires ip in State().Occupied() ==> HasLease(State(), (duid, iaid), ip)
      requires (duid, iaid) in State().leases || State().Entries() < MAX_LEASES
      modifies this, leases
      ensures Valid() && leases == old(leases) && offers == old(offers) && leaseSecs == old(leaseSecs)
      ensures State() == Leased(old(State()), (duid, iaid), Binding(ip, expiry))
    {
      hide WellFormed, Packed, Abs, PoolState.Inv, PoolState.Occupied, PoolState.ExpiresFrom;
      ghost var s := Leased(State(), (duid, iaid), Binding(ip, expiry));
      LeasedKeeps(State(), (duid, iaid), Binding(ip, expiry));
      LeasedExpires(State(), (duid, iaid), Binding(ip, expiry), nextExpiry);
      var replaced := leases.Insert(duid, NewValue(ip, expiry, iaid));
      var index := used;
      if replaced.Some? && replaced.value.ip != ip {
        index := index - {replaced.value.ip};
      }
      assert index + {ip} == s.Occupied();
      used, nextExpiry := index + {ip}, Min(nextExpiry, expiry);
      assert State() == s;
    }

    /** Extends the live lease of exactly this address. */
    method Renew(duid: Bytes, iaid: Iaid, ip: u128, now: u64) returns (ok: bool)
      requires Valid()
      modifies this, leases, offers
      ensures Valid() && leases == old(leases) && offers == old(offers) && leaseSecs == old(leaseSecs)
      ensures !Storable(duid) ==> !ok && State() == old(State())
      ensures Storable(duid) ==>
        var s, k := old(State()).Cleaned(now), (duid, iaid);
        && (ok <==> HasLease(s, k, ip))
        && State() == (if ok then Leased(s, k, Binding(ip, LeaseExpiry(now, leaseSecs))) else s)
    {
      hide WellFormed, Packed, Abs, Unexpired, PoolState.Inv, PoolState.Occupied, PoolState.ExpiresFrom;
      if !Storable(duid) {
        return false;
      }
      CleanedAt(State(), (duid, iaid), now);
      CleanupExpired(now);
      var value := leases.Get(duid, iaid);
      if value.None? || value.value.ip != ip || value.value.expiry <= now {
        return false;
      }
      var expiry := LeaseExpiry(now, leaseSecs);
      RenewedKeeps(State(), (duid, iaid), expiry, nextExpiry);
      var _ := leases.SetExpiry(duid, iaid, expiry);
      nextExpiry := Min(nextExpiry, expiry);
      return true;
    }

    /** The address of the live offer or lease of this association. */
    method OfferedAddress(duid: Bytes, iaid: Iaid, now: u64) returns (r: Option<u128>)
      requires Valid()
      ensures
        var s, k := State().Cleaned(now), (duid, iaid);
        r == if k in s.offers then Some(s.offers[k].ip) else if k in s.leases then Some(s.leases[k].ip) else None
    {
      var offer := offers.Get(duid, iaid);
      if offer.Some? && offer.value.expiry > now {
        return Some(offer.value.ip);
      }
      r := LeasedAddress(duid, iaid, now);
    }

    method LeasedAddress(duid: Bytes, iaid: Iaid, now: u64) returns (r: Option<u128>)
      requires Valid()
      ensures
        var s, k := State().Cleaned(now), (duid, iaid);
        r == if k in s.leases then Some(s.leases[k].ip) else None
    {
      var lease := leases.Get(duid, iaid);
      if lease.Some? && lease.value.expiry > now {
        return Some(lease.value.ip);
      }
      return None;
    }

    /** Takes back the live lease of exactly this address. */
    method ReleaseAddress(duid: Bytes, iaid: Iaid, ip: u128, now: u64) returns (ok: bool)
      requires Valid()
      modifies this, leases, offers
      ensures Valid() && leases == old(leases) && offers == old(offers) && leaseSecs == old(leaseSecs)
      ensures ok <==> Storable(duid) && HasLease(old(State()).Cleaned(now), (duid, iaid), ip)
      ensures State() == if ok then Released(old(State()), (duid, iaid)) else old(State())
    {
      hide WellFormed, Packed, Abs, Unexpired, PoolState.Inv, PoolState.Occupied, PoolState.ExpiresFrom;
      if !Storable(duid) {
        return false;
      }
      CleanedAt(State(), (duid, iaid), now);
      var value := leases.Get(duid, iaid);
      if value.None? || value.value.ip != ip || value.value.expiry <= now {
        return false;
      }
      ReleasedKeeps(State(), (duid, iaid), nextExpiry);
      var removed := leases.Remove(duid, iaid);
      used := used - {removed.value.ip};
      return true;
    }
  }
}
