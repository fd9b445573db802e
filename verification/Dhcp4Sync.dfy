/**
 High-availability synchronisation: a batch of leases is checked against the pool before any of
 it is applied. For a batch that names each client and each address once, as its caller makes sure,
 the check is exact: all of it lands, however the clock moves, unless a lease runs out on the way.
 */
module Dhcp4Sync {
  import opened Basics
  import opened Dhcp4State
  import opened Dhcp4Safety

  type Batch = seq<(Identity, Lease)>

  /** Entry count after the first `n` leases, or nothing once one of them is refused. */
  function Project(c: Pool4, batch: Batch, n: nat, now: u64): Option<nat>
    requires n <= |batch|
  {
    if n == 0 then Some(c.Dynamic())
    else
      var p := Project(c, batch, n - 1, now);
      if p.None? then None else ProjectOne(c, batch[n - 1].0, batch[n - 1].1, now, p.value)
  }

  function ProjectOne(c: Pool4, id: Identity, l: Lease, now: u64, p: nat): Option<nat> {
    if l.expiry <= now || !Acceptable(c, id, l.ip) then None
    else if AlreadyHas(c, id, l.ip, l.expiry) then Some(p)
    else if id in c.leases then Some(if p >= Count(id in c.offers) then p - Count(id in c.offers) else 0)
    else if id in c.offers then Some(p)
    else if p >= MAX_STATE_ENTRIES then None
    else Some(p + 1)
  }

  /** The pool after inserting the first `n` leases in order. */
  function Applied(c: Pool4, batch: Batch, n: nat, now: u64): Pool4
    requires n <= |batch|
  {
    if n == 0 then c else Insert(Applied(c, batch, n - 1, now), batch[n - 1].0, batch[n - 1].1, now).1
  }

  ghost predicate Named(batch: Batch, n: nat, id: Identity)
    requires n <= |batch|
  {
    exists i :: 0 <= i < n && batch[i].0 == id
  }

  ghost predicate Addressed(batch: Batch, n: nat, ip: u32)
    requires n <= |batch|
  {
    exists i :: 0 <= i < n && batch[i].1.ip == ip
  }

  /** How far the pool has moved after `n` leases of the batch. */
  ghost predicate Tracks(c: Pool4, s: Pool4, batch: Batch, n: nat, now: u64, p: nat)
    requires n <= |batch|
  {
    && s.net == c.net && s.reservations == c.reservations && s.declined == c.declined
    && s.Cleaned(now) == s && s.Dynamic() == p && p <= MAX_STATE_ENTRIES
    && (forall id :: !Named(batch, n, id) ==> LeaseOf(s, id) == LeaseOf(c, id) && OfferOf(s, id) == OfferOf(c, id))
    && (forall ip: u32, claim :: !Addressed(batch, n, ip) && Holds(s, ip, claim) ==> Holds(c, ip, claim))
    && (forall i :: 0 <= i < n ==> Settled(c, s, batch[i].0, batch[i].1))
  }

  function LeaseOf(s: Pool4, id: Identity): Option<Lease> {
    if id in s.leases then Some(s.leases[id]) else None
  }

  function OfferOf(s: Pool4, id: Identity): Option<Offer> {
    if id in s.offers then Some(s.offers[id]) else None
  }

  /** The lease is in place, unless the pool already had one at the same address that lasts at least as long. */
  ghost predicate Settled(c: Pool4, s: Pool4, id: Identity, l: Lease) {
    if AlreadyHas(c, id, l.ip, l.expiry) then LeaseOf(s, id) == LeaseOf(c, id) else LeaseOf(s, id) == Some(l)
  }

  lemma StillAcceptable(c: Pool4, s: Pool4, batch: Batch, n: nat, now: u64, p: nat)
    requires n < |batch| && Tracks(c, s, batch, n, now, p) && !Addressed(batch, n, batch[n].1.ip)
    requires Acceptable(c, batch[n].0, batch[n].1.ip)
    ensures Acceptable(s, batch[n].0, batch[n].1.ip)
  {
    hide Pool4.Claims, Pool4.Cleaned, Pool4.Dynamic, Settled, LeaseOf, OfferOf, Net.InRange;
    var id, ip := batch[n].0, batch[n].1.ip;
    forall claim | claim in s.Claims(ip)
      ensures claim in c.Claims(ip)
    {
      ClaimsAre(s, ip, claim);
      ClaimsAre(c, ip, claim);
    }
  }

  lemma CleanedPut(s: Pool4, id: Identity, l: Lease, now: u64)
    requires s.Cleaned(now) == s && l.expiry > now
    ensures
      var s' := s.(leases := s.leases[id := l], offers := s.offers - {id});
      s'.Cleaned(now) == s'
  {
    var s' := s.(leases := s.leases[id := l], offers := s.offers - {id});
    forall x | x in s.leases
      ensures s.leases[x].expiry > now
    {
      assert x in s.Cleaned(now).leases;
    }
    forall x | x in s.offers
      ensures s.offers[x].expiry > now
    {
      assert x in s.Cleaned(now).offers;
    }
    assert s'.Cleaned(now).leases == s'.leases && s'.Cleaned(now).offers == s'.offers;
    assert s'.Cleaned(now).declined == s.Cleaned(now).declined;
  }

  lemma PutSize(s: Pool4, id: Identity, l: Lease)
    ensures s.(leases := s.leases[id := l], offers := s.offers - {id}).Dynamic()
         == s.Dynamic() + Count(id !in s.leases) - Count(id in s.offers)
  {
    RemovedSize(s.offers, id);
  }

  /** Replacing a lease adds no claim at any other address. */
  lemma PutClaims(s: Pool4, id: Identity, l: Lease, ip: u32, claim: Claim)
    requires Holds(s.(leases := s.leases[id := l], offers := s.offers - {id}), ip, claim) && ip != l.ip
    ensures Holds(s, ip, claim)
  {
    hide Net.Services;
  }

  /** One accepted lease goes in, or is skipped because the pool has it already. */
  lemma InsertOne(c: Pool4, s: Pool4, batch: Batch, n: nat, now: u64, p: nat)
    requires n < |batch| && ClientsApart(batch) && AddressesApart(batch, n + 1) && Tracks(c, s, batch, n, now, p)
    requires ValidHost(batch[n].1.host) && ProjectOne(c, batch[n].0, batch[n].1, now, p).Some?
    ensures
      var (id, l) := batch[n];
      var r := Insert(s, id, l, now);
      && (r.0 || AlreadyHas(s, id, l.ip, l.expiry)) && Acceptable(s, id, l.ip)
      && Tracks(c, r.1, batch, n + 1, now, ProjectOne(c, id, l, now, p).value)
  {
    hide Pool4.Claims, Pool4.Cleaned, Pool4.Dynamic, ValidHost, Acceptable, Holds;
    var (id, l) := batch[n];
    assert !Named(batch, n, id) && !Addressed(batch, n, l.ip);
    StillAcceptable(c, s, batch, n, now, p);
    var r := Insert(s, id, l, now);
    assert LeaseOf(s, id) == LeaseOf(c, id) && OfferOf(s, id) == OfferOf(c, id);
    assert AlreadyHas(s, id, l.ip, l.expiry) <==> AlreadyHas(c, id, l.ip, l.expiry);
    NamedNext(batch, n);
    if AlreadyHas(s, id, l.ip, l.expiry) {
      assert r == (false, s);
    } else {
      PutSize(s, id, l);
      assert r == (true, s.(leases := s.leases[id := l], offers := s.offers - {id}));
      CleanedPut(s, id, l, now);
      forall ip: u32, claim | !Addressed(batch, n + 1, ip) && Holds(r.1, ip, claim)
        ensures Holds(c, ip, claim)
      {
        assert batch[n].1.ip != ip;
        PutClaims(s, id, l, ip, claim);
      }
    }
  }

  lemma NamedNext(batch: Batch, n: nat)
    requires n < |batch|
    ensures forall id :: Named(batch, n + 1, id) <==> Named(batch, n, id) || id == batch[n].0
    ensures forall ip: u32 :: Addressed(batch, n + 1, ip) <==> Addressed(batch, n, ip) || ip == batch[n].1.ip
  {
    var id, ip := batch[n].0, batch[n].1.ip;
    assert Named(batch, n + 1, id) && Addressed(batch, n + 1, ip);
  }

  // ------------------------------------------------------------------ whole batches

  /** Whether inserting the `n`-th lease of the batch, after those before it, has the outcome the check promised. */
  predicate Lands(c: Pool4, batch: Batch, n: nat, now: u64)
    requires n < |batch|
  {
    var s, id, l := Applied(c, batch, n, now), batch[n].0, batch[n].1;
    Insert(s, id, l, now).0 || (Acceptable(s, id, l.ip) && AlreadyHas(s, id, l.ip, l.expiry))
  }

  ghost predicate ClientsApart(batch: Batch) {
    forall i, j :: 0 <= i < j < |batch| ==> batch[i].0 != batch[j].0
  }

  /** The first `n` leases have different addresses. */
  ghost predicate AddressesApart(batch: Batch, n: nat)
    requires n <= |batch|
  {
    forall i, j :: 0 <= i < j < n ==> batch[i].1.ip != batch[j].1.ip
  }

  /** What every use of the check starts from: a cleaned pool within its budget, and names the pool can store. */
  ghost predicate Ready(c: Pool4, batch: Batch, now: u64) {
    && c.Cleaned(now) == c && c.Dynamic() <= MAX_STATE_ENTRIES
    && (forall i :: 0 <= i < |batch| ==> ValidHost(batch[i].1.host))
  }

  lemma {:induction false} ProjectPrefix(c: Pool4, batch: Batch, n: nat, m: nat, now: u64)
    requires n <= m <= |batch| && Project(c, batch, m, now).Some?
    ensures Project(c, batch, n, now).Some?
    decreases m
  {
    hide ProjectOne, Pool4.Dynamic;
    if n < m {
      ProjectPrefix(c, batch, n, m - 1, now);
    }
  }

  /** One refused lease refuses the batch. */
  lemma RefusedForGood(c: Pool4, batch: Batch, n: nat, m: nat, now: u64)
    requires n <= m <= |batch| && Project(c, batch, n, now).None?
    ensures Project(c, batch, m, now).None?
  {
    hide ProjectOne, Project;
    if Project(c, batch, m, now).Some? {
      ProjectPrefix(c, batch, n, m, now);
    }
  }

  /** The check looked at every lease. */
  lemma ProjectedAcceptable(c: Pool4, batch: Batch, n: nat, now: u64)
    requires n < |batch| && Project(c, batch, |batch|, now).Some?
    ensures Acceptable(c, batch[n].0, batch[n].1.ip)
  {
    hide Acceptable, Pool4.Dynamic, AlreadyHas;
    ProjectPrefix(c, batch, n + 1, |batch|, now);
  }

  /** The projected count is the real count after every prefix, and every lease so far landed. */
  lemma {:induction false} PreflightPrefix(c: Pool4, batch: Batch, n: nat, now: u64)
    requires n <= |batch| && Ready(c, batch, now) && ClientsApart(batch) && AddressesApart(batch, n)
    requires Project(c, batch, n, now).Some?
    ensures Tracks(c, Applied(c, batch, n, now), batch, n, now, Project(c, batch, n, now).value)
    ensures forall i :: 0 <= i < n ==> Lands(c, batch, i, now)
  {
    hide Pool4.Claims, Pool4.Cleaned, Pool4.Dynamic, ValidHost, Acceptable, Holds, ProjectOne, Settled, Insert, AlreadyHas;
    if n > 0 {
      PreflightPrefix(c, batch, n - 1, now);
      InsertOne(c, Applied(c, batch, n - 1, now), batch, n - 1, now, Project(c, batch, n - 1, now).value);
    }
  }

  /** A second client's lease at an address of the batch is refused although the check let it through. */
  lemma SecondRefused(c: Pool4, batch: Batch, i: nat, n: nat, now: u64)
    requires i < n < |batch| && Ready(c, batch, now) && ClientsApart(batch) && AddressesApart(batch, n)
    requires Project(c, batch, |batch|, now).Some? && batch[i].1.ip == batch[n].1.ip
    ensures !Lands(c, batch, n, now)
  {
    hide Pool4.Cleaned, Pool4.Dynamic, ValidHost, Pool4.Claims, ProjectOne, Project, Applied;
    ProjectedAcceptable(c, batch, i, now);
    ProjectedAcceptable(c, batch, n, now);
    ProjectPrefix(c, batch, n, |batch|, now);
    PreflightPrefix(c, batch, n, now);
    var s, a, l, b := Applied(c, batch, n, now), batch[i].0, batch[i].1, batch[n].0;
    assert Acceptable(c, a, l.ip) && Acceptable(c, b, l.ip);
    ClaimsAre(c, l.ip, ByLease(a));
    assert !AlreadyHas(c, a, l.ip, l.expiry);
    assert Settled(c, s, a, l);
    ClaimsAre(s, l.ip, ByLease(a));
    assert ByLease(a) in s.Claims(l.ip) - s.Own(b);
    assert !Acceptable(s, b, l.ip);
    assert s.Cleaned(now) == s;
  }

  /** For a batch the check accepts, naming each client once: every lease lands exactly when no address repeats. */
  lemma PreflightExact(c: Pool4, batch: Batch, now: u64)
    requires Ready(c, batch, now) && ClientsApart(batch)
    requires Project(c, batch, |batch|, now).Some?
    ensures (forall i :: 0 <= i < |batch| ==> Lands(c, batch, i, now)) <==> AddressesApart(batch, |batch|)
    ensures AddressesApart(batch, |batch|) ==>
      forall n :: 0 <= n <= |batch| ==> Project(c, batch, n, now) == Some(Applied(c, batch, n, now).Dynamic())
  {
    hide Lands, Project, Pool4.Cleaned, Pool4.Dynamic, Settled;
    if AddressesApart(batch, |batch|) {
      PreflightPrefix(c, batch, |batch|, now);
      forall n | 0 <= n <= |batch|
        ensures Project(c, batch, n, now) == Some(Applied(c, batch, n, now).Dynamic())
      {
        ProjectPrefix(c, batch, n, |batch|, now);
        PreflightPrefix(c, batch, n, now);
      }
    } else {
      var i, n := FirstRepeat(batch, |batch|);
      SecondRefused(c, batch, i, n, now);
    }
  }

  lemma {:induction false} FirstRepeat(batch: Batch, m: nat) returns (i: nat, n: nat)
    requires m <= |batch| && !AddressesApart(batch, m)
    ensures i < n < m && AddressesApart(batch, n) && batch[i].1.ip == batch[n].1.ip
  {
    if AddressesApart(batch, m - 1) {
      i, n :| 0 <= i < n < m && batch[i].1.ip == batch[n].1.ip;
    } else {
      i, n := FirstRepeat(batch, m - 1);
    }
  }

  // ------------------------------------------------------------------ a clock that moves between the check and the insertions

  const MAX_SYNCED_LEASES := 16_384

  /** A batch the caller passes on: not too long, storable names, and no client or address twice. */
  ghost predicate Admitted(batch: Batch) {
    && |batch| <= MAX_SYNCED_LEASES && (forall i :: 0 <= i < |batch| ==> ValidHost(batch[i].1.host))
    && ClientsApart(batch) && AddressesApart(batch, |batch|)
  }

  /** The first `n` leases name no client and no address twice. */
  ghost predicate Distinct(batch: Batch, n: nat)
    requires n <= |batch|
  {
    AddressesApart(batch, n) && forall i, j :: 0 <= i < j < n ==> batch[i].0 != batch[j].0
  }

  lemma NoneYet(batch: Batch)
    ensures Distinct(batch, 0) && (forall id :: !Named(batch, 0, id)) && forall ip: u32 :: !Addressed(batch, 0, ip)
  {
  }

  lemma DistinctNext(batch: Batch, n: nat)
    requires n <= |batch| && Distinct(batch, n)
    ensures n < |batch| ==>
      var next := !Named(batch, n, batch[n].0) && !Addressed(batch, n, batch[n].1.ip);
      (next ==> Distinct(batch, n + 1)) && (!next ==> !ClientsApart(batch) || !AddressesApart(batch, |batch|))
    ensures n == |batch| ==> ClientsApart(batch) && AddressesApart(batch, |batch|)
  {
  }

  /** The pool after inserting the first `n` leases, each at its own time. */
  function AppliedAt(c: Pool4, batch: Batch, times: seq<u64>, n: nat): Pool4
    requires n <= |batch| && n <= |times|
  {
    if n == 0 then c else Insert(AppliedAt(c, batch, times, n - 1), batch[n - 1].0, batch[n - 1].1, times[n - 1]).1
  }

  /** How many of the first `n` insertions change the pool. */
  function Changes(c: Pool4, batch: Batch, times: seq<u64>, n: nat): nat
    requires n <= |batch| && n <= |times|
  {
    if n == 0 then 0
    else Changes(c, batch, times, n - 1) + Count(Insert(AppliedAt(c, batch, times, n - 1), batch[n - 1].0, batch[n - 1].1, times[n - 1]).0)
  }

  /** The `n`-th lease goes in, or the pool has one as good for the client. */
  predicate LandsAt(c: Pool4, batch: Batch, times: seq<u64>, n: nat)
    requires n < |batch| && n < |times|
  {
    var (id, l) := batch[n];
    var s := AppliedAt(c, batch, times, n);
    Insert(s, id, l, times[n]).0 || HasNow(s.Cleaned(times[n]), id, l)
  }

  predicate HasNow(s: Pool4, id: Identity, l: Lease) {
    Acceptable(s, id, l.ip) && AlreadyHas(s, id, l.ip, l.expiry)
  }

  /** The lease, or the one the pool had that is as good, has not run out. */
  predicate Lasts(c: Pool4, id: Identity, l: Lease, t: u64) {
    l.expiry > t || (AlreadyHas(c, id, l.ip, l.expiry) && c.leases[id].expiry > t)
  }

  ghost predicate Forward(now: u64, times: seq<u64>) {
    forall i :: 0 <= i < |times| ==> Moment(now, times, i) <= times[i]
  }

  /** The time of the insertion before the `n`-th, or of the check. */
  function Moment(now: u64, times: seq<u64>, n: nat): u64
    requires n <= |times|
  {
    if n == 0 then now else times[n - 1]
  }

  lemma CleanedTwice(s: Pool4, t: u64, u: u64)
    requires t <= u
    ensures s.Cleaned(t).Cleaned(u) == s.Cleaned(u)
  {
    var a, b := s.Cleaned(t).Cleaned(u), s.Cleaned(u);
    assert a.leases == b.leases && a.offers == b.offers && a.declined == b.declined;
  }

  lemma CleanedFewer(s: Pool4, t: u64)
    ensures s.Cleaned(t).Dynamic() <= s.Dynamic()
  {
    SubsetSize(s.Cleaned(t).leases.Keys, s.leases.Keys);
    SubsetSize(s.Cleaned(t).offers.Keys, s.offers.Keys);
    SubsetSize(s.Cleaned(t).declined.Keys, s.declined.Keys);
    assert |s.Cleaned(t).leases.Keys| == |s.Cleaned(t).leases| && |s.Cleaned(t).offers.Keys| == |s.Cleaned(t).offers|;
    assert |s.Cleaned(t).declined.Keys| == |s.Cleaned(t).declined|;
  }

  lemma CleanedAcceptable(s: Pool4, id: Identity, ip: u32, t: u64)
    requires Acceptable(s, id, ip)
    ensures Acceptable(s.Cleaned(t), id, ip)
  {
    hide Pool4.Claims, Net.InRange, Net.Services;
    forall claim | claim in s.Cleaned(t).Claims(ip)
      ensures claim in s.Claims(ip)
    {
      ClaimsAre(s.Cleaned(t), ip, claim);
      ClaimsAre(s, ip, claim);
    }
  }

  /** Putting a lease that lasts and cleaning can be done in either order. */
  lemma CleanedThenPut(s: Pool4, id: Identity, l: Lease, t: u64)
    requires l.expiry > t
    ensures
      var c := s.Cleaned(t);
      c.(leases := c.leases[id := l], offers := c.offers - {id}) == s.(leases := s.leases[id := l], offers := s.offers - {id}).Cleaned(t)
  {
    var c, d := s.Cleaned(t), s.(leases := s.leases[id := l], offers := s.offers - {id}).Cleaned(t);
    assert c.leases[id := l] == d.leases && c.offers - {id} == d.offers && c.declined == d.declined;
  }

  /** An insertion at a later moment, into a pool that has lost what ran out, gives what the earlier one gives without what ran out. */
  lemma InsertLater(c: Pool4, s: Pool4, id: Identity, l: Lease, now: u64, t: u64, u: u64)
    requires s.Cleaned(now) == s && t <= u && ValidHost(l.host) && l.expiry > now && Acceptable(s, id, l.ip)
    requires LeaseOf(s, id) == LeaseOf(c, id) && Lasts(c, id, l, u)
    requires Insert(s, id, l, now).0 || AlreadyHas(s, id, l.ip, l.expiry)
    requires Insert(s, id, l, now).1.Dynamic() <= MAX_STATE_ENTRIES
    ensures
      var r := Insert(s.Cleaned(t), id, l, u);
      r.1 == Insert(s, id, l, now).1.Cleaned(u) && (r.0 || HasNow(s.Cleaned(u), id, l))
  {
    hide Pool4.Dynamic, Pool4.Cleaned, ValidHost, Acceptable;
    CleanedTwice(s, t, u);
    CleanedAcceptable(s, id, l.ip, u);
    var d, s' := s.Cleaned(u), Insert(s, id, l, now).1;
    LeaseStays(s, id, u);
    if AlreadyHas(s, id, l.ip, l.expiry) {
      assert AlreadyHas(d, id, l.ip, l.expiry);
    } else {
      assert s' == s.(leases := s.leases[id := l], offers := s.offers - {id});
      CleanedThenPut(s, id, l, u);
      PutSize(d, id, l);
      CleanedFewer(s', u);
      assert !AlreadyHas(d, id, l.ip, l.expiry);
    }
  }

  lemma LeaseStays(s: Pool4, id: Identity, t: u64)
    ensures LeaseOf(s.Cleaned(t), id) == if id in s.leases && s.leases[id].expiry > t then LeaseOf(s, id) else None
  {
  }

  /** As long as the leases last, the moving clock gives the pool of the standing one without what has run out. */
  lemma {:induction false} MovingPrefix(c: Pool4, batch: Batch, times: seq<u64>, n: nat, now: u64)
    requires n <= |batch| == |times| && Ready(c, batch, now) && ClientsApart(batch) && AddressesApart(batch, |batch|)
    requires Project(c, batch, |batch|, now).Some? && Forward(now, times)
    requires forall i :: 0 <= i < n ==> Lasts(c, batch[i].0, batch[i].1, times[i])
    ensures AppliedAt(c, batch, times, n) == Applied(c, batch, n, now).Cleaned(Moment(now, times, n))
    ensures forall i :: 0 <= i < n ==> LandsAt(c, batch, times, i)
  {
    hide Pool4.Cleaned, Pool4.Dynamic, ValidHost, Insert, Lasts, Project, LandsAt, ClientsApart, AddressesApart, Forward;
    if n > 0 {
      MovingPrefix(c, batch, times, n - 1, now);
      MovingStep(c, batch, times, n - 1, now);
    }
  }

  lemma MovingStep(c: Pool4, batch: Batch, times: seq<u64>, n: nat, now: u64)
    requires n < |batch| == |times| && Ready(c, batch, now) && ClientsApart(batch) && AddressesApart(batch, |batch|)
    requires Project(c, batch, |batch|, now).Some? && Forward(now, times) && Lasts(c, batch[n].0, batch[n].1, times[n])
    requires AppliedAt(c, batch, times, n) == Applied(c, batch, n, now).Cleaned(Moment(now, times, n))
    ensures AppliedAt(c, batch, times, n + 1) == Applied(c, batch, n + 1, now).Cleaned(times[n]) && LandsAt(c, batch, times, n)
  {
    hide Pool4.Cleaned, Pool4.Dynamic, ValidHost, Acceptable, Insert, AlreadyHas, Lasts, Project, HasNow, ClientsApart, AddressesApart, Ready;
    var s := Applied(c, batch, n, now);
    InsertableAt(c, batch, n, now);
    InsertLater(c, s, batch[n].0, batch[n].1, now, Moment(now, times, n), times[n]);
    CleanedTwice(s, Moment(now, times, n), times[n]);
  }

  /** What the check says of the `n`-th lease, at the time of the check. */
  lemma InsertableAt(c: Pool4, batch: Batch, n: nat, now: u64)
    requires n < |batch| && Ready(c, batch, now) && ClientsApart(batch) && AddressesApart(batch, |batch|)
    requires Project(c, batch, |batch|, now).Some?
    ensures
      var (s, id, l) := (Applied(c, batch, n, now), batch[n].0, batch[n].1);
      && s.Cleaned(now) == s && ValidHost(l.host) && l.expiry > now && Acceptable(s, id, l.ip)
      && LeaseOf(s, id) == LeaseOf(c, id)
      && (Insert(s, id, l, now).0 || AlreadyHas(s, id, l.ip, l.expiry))
      && Insert(s, id, l, now).1.Dynamic() <= MAX_STATE_ENTRIES
  {
    hide Pool4.Claims, Pool4.Cleaned, Pool4.Dynamic, ValidHost, Acceptable, Holds, Settled, Insert, AlreadyHas, Lands;
    ProjectPrefix(c, batch, n, |batch|, now);
    ProjectPrefix(c, batch, n + 1, |batch|, now);
    PreflightPrefix(c, batch, n, now);
    assert !Named(batch, n, batch[n].0);
    InsertOne(c, Applied(c, batch, n, now), batch, n, now, Project(c, batch, n, now).value);
  }

  /** A batch the check lets through lands completely exactly when every lease lasts until its own insertion. */
  lemma MovingExact(c: Pool4, batch: Batch, times: seq<u64>, now: u64)
    requires |batch| == |times| && Ready(c, batch, now) && ClientsApart(batch) && AddressesApart(batch, |batch|)
    requires Project(c, batch, |batch|, now).Some? && Forward(now, times)
    ensures (forall i :: 0 <= i < |batch| ==> LandsAt(c, batch, times, i))
       <==> forall i :: 0 <= i < |batch| ==> Lasts(c, batch[i].0, batch[i].1, times[i])
  {
    hide Lasts, LandsAt, Project, Ready;
    if forall i :: 0 <= i < |batch| ==> Lasts(c, batch[i].0, batch[i].1, times[i]) {
      MovingPrefix(c, batch, times, |batch|, now);
    } else {
      var n := FirstLapsed(c, batch, times, |batch|);
      LapsedFails(c, batch, times, n, now);
    }
  }

  lemma {:induction false} FirstLapsed(c: Pool4, batch: Batch, times: seq<u64>, m: nat) returns (n: nat)
    requires m <= |batch| == |times| && exists i :: 0 <= i < m && !Lasts(c, batch[i].0, batch[i].1, times[i])
    ensures n < m && !Lasts(c, batch[n].0, batch[n].1, times[n]) && forall i :: 0 <= i < n ==> Lasts(c, batch[i].0, batch[i].1, times[i])
  {
    hide Lasts;
    if exists i :: 0 <= i < m - 1 && !Lasts(c, batch[i].0, batch[i].1, times[i]) {
      n := FirstLapsed(c, batch, times, m - 1);
    } else {
      n := m - 1;
    }
  }

  lemma LapsedFails(c: Pool4, batch: Batch, times: seq<u64>, n: nat, now: u64)
    requires n < |batch| == |times| && Ready(c, batch, now) && ClientsApart(batch) && AddressesApart(batch, |batch|)
    requires Project(c, batch, |batch|, now).Some? && Forward(now, times)
    requires !Lasts(c, batch[n].0, batch[n].1, times[n]) && forall i :: 0 <= i < n ==> Lasts(c, batch[i].0, batch[i].1, times[i])
    ensures !LandsAt(c, batch, times, n)
  {
    hide Pool4.Claims, Pool4.Cleaned, Pool4.Dynamic, ValidHost, Acceptable, Project, Applied, AppliedAt;
    MovingPrefix(c, batch, times, n, now);
    InsertableAt(c, batch, n, now);
    var s, t := Applied(c, batch, n, now), times[n];
    CleanedTwice(s, Moment(now, times, n), t);
    LeaseStays(s, batch[n].0, t);
  }

  // ------------------------------------------------------------------ what a repeated client or address costs

  /** Two clients, one free address: the check accepts the pair and the second insertion is refused. */
  lemma RepeatedAddressFails(net: Net, ip: u32, a: Identity, b: Identity, la: Lease, lb: Lease, now: u64)
    requires net.InRange(ip) && ip !in net.Services() && a != b
    requires la.ip == ip == lb.ip && la.expiry > now && lb.expiry > now && la.host == None == lb.host
    ensures
      var c := Pool4(net, map[], map[], map[], map[]);
      Project(c, [(a, la), (b, lb)], 2, now).Some? && Lands(c, [(a, la), (b, lb)], 0, now) && !Lands(c, [(a, la), (b, lb)], 1, now)
  {
    hide Net.Services, Net.InRange, Pool4.Claims, Pool4.UsedByOther, Lands, Applied;
    var c := Pool4(net, map[], map[], map[], map[]);
    var batch := [(a, la), (b, lb)];
    assert c.Cleaned(now) == c;
    MineAlone(c, a, ip);
    MineAlone(c, b, ip);
    assert Project(c, batch, 0, now) == Some(0);
    assert Project(c, batch, 1, now) == Some(1);
    assert Project(c, batch, 2, now) == Some(2);
    PreflightPrefix(c, batch, 1, now);
    SecondRefused(c, batch, 0, 1, now);
  }

  /** A client with a lease and an offer, named twice: its one offer is subtracted twice from the projection. */
  lemma RepeatedClientMiscounts(net: Net, ip: u32, other: u32, id: Identity, l: Lease, o: Offer, now: u64)
    requires net.InRange(ip) && net.InRange(other) && ip !in net.Services() && other !in net.Services() && ip != other
    requires l.ip == ip == o.ip && now < l.expiry < U64_MAX && o.expiry > now && l.host == None
    ensures
      var c := Pool4(net, map[id := l], map[id := o], map[], map[]);
      var batch := [(id, l.(ip := other)), (id, l.(expiry := U64_MAX))];
      Project(c, batch, 2, now) == Some(0) && Applied(c, batch, 2, now).Dynamic() == 1
  {
    hide Net.Services, Net.InRange, Pool4.Claims;
    var c := Pool4(net, map[id := l], map[id := o], map[], map[]);
    var batch := [(id, l.(ip := other)), (id, l.(expiry := U64_MAX))];
    var m, k := l.(ip := other), l.(expiry := U64_MAX);
    var d := Pool4(net, map[id := m], map[], map[], map[]);
    MineAlone(c, id, ip);
    MineAlone(c, id, other);
    MineAlone(d, id, ip);
    assert Project(c, batch, 0, now) == Some(2);
    assert Project(c, batch, 1, now) == Some(1);
    assert Project(c, batch, 2, now) == Some(0);
    MovesAlone(c, id, m, now);
    MovesAlone(d, id, k, now);
    assert Applied(c, batch, 0, now) == c;
    assert Applied(c, batch, 1, now) == d;
    assert Applied(c, batch, 2, now) == Pool4(net, map[id := k], map[], map[], map[]);
  }

  lemma MovesAlone(c: Pool4, id: Identity, m: Lease, now: u64)
    requires c.leases.Keys == {id} && c.offers.Keys <= {id} && c.declined == map[] && c.reservations == map[]
    requires c.net.InRange(m.ip) && m.ip !in c.net.Services() && m.ip != c.leases[id].ip && m.host == None && m.expiry > now
    requires c.leases[id].expiry > now && (id in c.offers ==> c.offers[id].expiry > now)
    ensures Insert(c, id, m, now).1 == Pool4(c.net, map[id := m], map[], map[], map[])
  {
    hide Net.Services, Net.InRange, Pool4.Claims;
    assert c.Cleaned(now) == c;
    MineAlone(c, id, m.ip);
    assert c.leases[id := m] == map[id := m] && c.offers - {id} == map[];
  }

  lemma MineAlone(c: Pool4, id: Identity, ip: u32)
    requires c.leases.Keys + c.offers.Keys <= {id} && c.declined == map[] && c.reservations == map[] && ip !in c.net.Services()
    ensures !c.UsedByOther(id, ip)
  {
    hide Net.Services, Pool4.Claims;
    forall x
      ensures x !in c.Claims(ip) - c.Own(id)
    {
      ClaimsAre(c, ip, x);
    }
  }
}
