/**
 The response cache, said without its own arithmetic: which responses are kept, for exactly how
 long, with which TTLs, and how time passes for them.
 */
module CacheLaws {
  import opened Basics
  import opened Dns
  import opened Aliases
  import opened ResponseCache

  // ------------------------------------------------------------------ time

  /** Seconds from one wall-clock reading to another, modulo 2^32 (RFC 1982). */
  function Seconds(a: u32, b: u32): u32 {
    (b - a) % 0x1_0000_0000
  }

  lemma SubtractionIs(a: u32, b: u32)
    ensures WrappingSub(b, a) == Seconds(a, b)
  {
  }

  /** A well-formed signature whose inception is not later and whose expiration not earlier, by less than half the circle. */
  predicate Valid(r: Record, wall: Option<u32>) {
    && r.rtype == 46 && r.data.Signature? && wall.Some?
    && Seconds(r.data.sig.inception, wall.value) < 0x8000_0000 && Seconds(wall.value, r.data.sig.expiration) < 0x8000_0000
  }

  lemma ValidIs(r: Record, wall: Option<u32>)
    ensures Valid(r, wall) <==> ValidSignature(r, wall).Some?
    ensures Valid(r, wall) ==> ValidSignature(r, wall).value == r.data.sig && WrappingSub(r.data.sig.expiration, wall.value) == Seconds(wall.value, r.data.sig.expiration)
  {
    if r.data.Signature? && wall.Some? {
      SubtractionIs(r.data.sig.inception, wall.value);
      SubtractionIs(wall.value, r.data.sig.expiration);
    }
  }

  /** Whole seconds that have passed. */
  lemma ElapsedIs(inserted: Instant, now: Instant)
    ensures now < inserted ==> Elapsed(inserted, now) == 0
    ensures inserted <= now ==>
      var e := Elapsed(inserted, now);
      inserted + e * 1_000_000_000 <= now && (now < inserted + (e + 1) * 1_000_000_000 || e == 0xFFFF_FFFF)
  {
  }

  // ------------------------------------------------------------------ what signatures allow

  /** A number a valid signature limits the response to: its own TTL, the original TTL, the time to its expiration. */
  predicate OwnLimit(r: Record, wall: Option<u32>, n: u32) {
    Valid(r, wall) && n in {r.ttl, r.data.sig.originalTtl, Seconds(wall.value, r.data.sig.expiration)}
  }

  /** The same for a signature that covers record `x`, whose TTL is a limit too. */
  predicate PairLimit(r: Record, x: Record, wall: Option<u32>, n: u32) {
    Covered(r, x) && (OwnLimit(r, wall, n) || (Valid(r, wall) && n == x.ttl))
  }

  predicate Covered(r: Record, x: Record) {
    r.data.Signature? && x.class_ == r.class_ && x.rtype == r.data.sig.typeCovered && x.name == r.name
  }

  ghost predicate OwnLimits(all: Records, wall: Option<u32>, n: u32) {
    exists i :: 0 <= i < |all| && OwnLimit(all[i], wall, n)
  }

  ghost predicate PairLimits(all: Records, wall: Option<u32>, n: u32) {
    exists i, j :: 0 <= i < |all| && 0 <= j < |all| && PairLimit(all[i], all[j], wall, n)
  }

  lemma OwnCapIs(r: Record, wall: Option<u32>)
    ensures OwnCap(r, wall).Some? <==> Valid(r, wall)
    ensures Valid(r, wall) ==> OwnLimit(r, wall, OwnCap(r, wall).value)
    ensures forall n: u32 :: OwnLimit(r, wall, n) ==> OwnCap(r, wall).value <= n
  {
    hide Valid, ValidSignature, WrappingSub, Seconds;
    ValidIs(r, wall);
    ValidHas(r, wall);
  }

  lemma ValidHas(r: Record, wall: Option<u32>)
    ensures Valid(r, wall) ==> r.data.Signature? && wall.Some?
  {
  }

  lemma OwnCapsAre(all: Records, wall: Option<u32>)
    ensures OwnCaps(all, wall).Some? ==> OwnLimits(all, wall, OwnCaps(all, wall).value)
    ensures forall n: u32 :: OwnLimits(all, wall, n) ==> OwnCaps(all, wall).Some? && OwnCaps(all, wall).value <= n
  {
    hide OwnCap, OwnLimit, Valid;
    var caps, m := OwnCapList(all, wall), OwnCaps(all, wall);
    forall i | 0 <= i < |all|
      ensures caps[i].Some? ==> OwnLimit(all[i], wall, caps[i].value)
      ensures forall n: u32 :: OwnLimit(all[i], wall, n) ==> caps[i].Some? && caps[i].value <= n
    {
      OwnCapIs(all[i], wall);
      LimitIsValid(all[i], wall);
    }
    if m.Some? {
      var i :| 0 <= i < |caps| && caps[i] == m;
    }
    forall n: u32 | OwnLimits(all, wall, n)
      ensures m.Some? && m.value <= n
    {
      var i :| 0 <= i < |all| && OwnLimit(all[i], wall, n);
      assert caps[i].Some?;
    }
  }

  lemma LimitIsValid(r: Record, wall: Option<u32>)
    ensures forall n: u32 :: OwnLimit(r, wall, n) ==> Valid(r, wall)
  {
  }

  lemma LeastCovered(all: Records, r: Record)
    requires r.data.Signature?
    ensures
      var c := CoveredTtl(all, r, r.data.sig);
      && (c.Some? ==> exists j :: 0 <= j < |all| && Covered(r, all[j]) && c.value == all[j].ttl)
      && (forall j :: 0 <= j < |all| && Covered(r, all[j]) ==> c.Some? && c.value <= all[j].ttl)
  {
    hide Covered;
    var sig := r.data.sig;
    var ttls, c := seq(|all|, i requires 0 <= i < |all| => if Covers(r, sig, all[i]) then Some(all[i].ttl) else None), CoveredTtl(all, r, sig);
    forall j | 0 <= j < |all|
      ensures Covered(r, all[j]) <==> ttls[j].Some?
    {
      CoveredIs(r, all[j]);
    }
    if c.Some? {
      var j :| 0 <= j < |ttls| && ttls[j] == c;
      assert Covered(r, all[j]);
    }
  }

  lemma CoveredIs(r: Record, x: Record)
    requires r.data.Signature?
    ensures Covered(r, x) <==> Covers(r, r.data.sig, x)
  {
  }

  lemma CoveredCapIs(all: Records, r: Record, wall: Option<u32>)
    ensures CoveredCap(all, r, wall).Some? ==> exists j :: 0 <= j < |all| && PairLimit(r, all[j], wall, CoveredCap(all, r, wall).value)
    ensures forall j, n: u32 :: 0 <= j < |all| && PairLimit(r, all[j], wall, n) ==> CoveredCap(all, r, wall).Some? && CoveredCap(all, r, wall).value <= n
  {
    hide Valid, ValidSignature, WrappingSub, Seconds, CoveredTtl, Covered;
    ValidIs(r, wall);
    ValidHas(r, wall);
    if Valid(r, wall) {
      LeastCovered(all, r);
    }
  }

  lemma CoveredCapsAre(all: Records, wall: Option<u32>)
    ensures CoveredCaps(all, wall).Some? ==> PairLimits(all, wall, CoveredCaps(all, wall).value)
    ensures forall n: u32 :: PairLimits(all, wall, n) ==> CoveredCaps(all, wall).Some? && CoveredCaps(all, wall).value <= n
  {
    hide CoveredCap, PairLimit;
    var caps, m := CoveredCapList(all, wall), CoveredCaps(all, wall);
    forall i | 0 <= i < |all|
      ensures caps[i].Some? ==> exists j :: 0 <= j < |all| && PairLimit(all[i], all[j], wall, caps[i].value)
      ensures forall j, n: u32 :: 0 <= j < |all| && PairLimit(all[i], all[j], wall, n) ==> caps[i].Some? && caps[i].value <= n
    {
      CoveredCapIs(all, all[i], wall);
    }
    if m.Some? {
      var i :| 0 <= i < |caps| && caps[i] == m;
    }
    forall n: u32 | PairLimits(all, wall, n)
      ensures m.Some? && m.value <= n
    {
      var i, j :| 0 <= i < |all| && 0 <= j < |all| && PairLimit(all[i], all[j], wall, n);
      assert caps[i].Some?;
    }
  }

  /** `cap` is what signatures leave a response: anything without signatures, else the least of their limits. */
  ghost predicate Allows(authentic: bool, all: Records, wall: Option<u32>, wall2: Option<u32>, cap: u32) {
    if !(exists i :: 0 <= i < |all| && all[i].rtype == 46) then !authentic && cap == 0xFFFF_FFFF
    else
      && cap > 0 && (exists n: u32 :: OwnLimits(all, wall, n)) && (authentic ==> exists n: u32 :: PairLimits(all, wall2, n))
      && (OwnLimits(all, wall, cap) || PairLimits(all, wall2, cap))
      && (forall n: u32 :: OwnLimits(all, wall, n) || PairLimits(all, wall2, n) ==> cap <= n)
  }

  /** The cap the cache computes is the one signatures leave; it computes none exactly when they leave none. */
  lemma CapLaw(authentic: bool, all: Records, wall: Option<u32>, wall2: Option<u32>, cap: u32)
    ensures DnssecCap(authentic, all, wall, wall2) == Some(cap) <==> Allows(authentic, all, wall, wall2, cap)
  {
    hide OwnCaps, CoveredCaps, OwnLimits, PairLimits;
    OwnCapsAre(all, wall);
    CoveredCapsAre(all, wall2);
    assert HasRrsig(all) <==> exists i :: 0 <= i < |all| && all[i].rtype == 46;
    var own, covered := OwnCaps(all, wall), CoveredCaps(all, wall2);
    if own.Some? && (covered.Some? || !authentic) {
      var c := if covered.None? then own.value else Min(own.value, covered.value);
      assert c == own.value || (covered.Some? && c == covered.value);
    }
  }

  // ------------------------------------------------------------------ what of a response counts

  /** The records of the question's class, without the OPT pseudo-record, in their order. */
  lemma {:induction false} OfClassLaw(a: Records, b: Records, x: Record, cls: u16, dropOpt: bool)
    ensures OfClass(a + b, cls, dropOpt) == OfClass(a, cls, dropOpt) + OfClass(b, cls, dropOpt)
    ensures OfClass([x], cls, dropOpt) == if x.class_ == cls && (dropOpt ==> x.rtype != 41) then [x] else []
  {
    assert OfClass([x][1..], cls, dropOpt) == [];
    if a == [] {
      assert a + b == b;
    } else {
      OfClassLaw(a[1..], b, x, cls, dropOpt);
      assert (a + b)[1..] == a[1..] + b;
    }
  }

  /** The SOA of a zone the name is in. */
  ghost predicate ZoneSoa(r: Record, cls: u16, name: Name) {
    r.data.Soa? && r.class_ == cls && exists front: Name :: name == front + r.name
  }

  /** The zone in which the alias chain ends says so by its SOA. */
  ghost predicate Denied(q: Question, m: Response) {
    exists i, r :: 0 <= i < 16 && EndsAt(q, m.answers, i) && r in m.authorities && ZoneSoa(r, q.qclass, Walk(q, m.answers, i).value)
  }

  lemma ZoneSoaIs(r: Record, cls: u16, name: Name)
    ensures ZoneSoa(r, cls, name) <==> IsZoneSoa(r, cls, name)
  {
    if IsZoneSoa(r, cls, name) {
      assert name == name[..|name| - |r.name|] + r.name;
    }
    if ZoneSoa(r, cls, name) {
      var front: Name :| name == front + r.name;
      assert name[|front|..] == r.name;
    }
  }

  lemma DeniedIs(q: Question, m: Response)
    ensures Denied(q, m) <==> SoaCovers(q, m)
  {
    hide IsZoneSoa, ZoneSoa, Walk, EndsAt;
    forall i, r | 0 <= i < 16 && EndsAt(q, m.answers, i)
      ensures Walk(q, m.answers, i).Some? && (ZoneSoa(r, q.qclass, Walk(q, m.answers, i).value) <==> IsZoneSoa(r, q.qclass, Walk(q, m.answers, i).value))
    {
      EndHasName(q, m.answers, i);
      ZoneSoaIs(r, q.qclass, Walk(q, m.answers, i).value);
    }
  }

  lemma EndHasName(q: Question, answers: Records, i: nat)
    requires EndsAt(q, answers, i)
    ensures Walk(q, answers, i).Some?
  {
  }

  // ------------------------------------------------------------------ how long, and with which TTLs

  /** The nearest number between the bounds. */
  function Within(x: u32, lo: u32, hi: u32): u32 {
    Max(lo, Min(x, hi))
  }

  /** A number of seconds the entry may not outlive: what signatures leave, each answer's TTL within the limits set, and for a denial what its SOA says within those for denials. */
  ghost predicate LifetimeLimit(cfg: Settings, m: Response, negative: bool, neg: Option<u32>, cap: u32, n: u32) {
    || n == cap
    || AnswerLimit(cfg, m, n)
    || (negative && neg.Some? && n == Within(neg.value, cfg.negMin, cfg.negMax))
  }

  /** The greatest lifetime allowed. */
  ghost predicate Lives(cfg: Settings, m: Response, negative: bool, neg: Option<u32>, cap: u32, n: u32) {
    LifetimeLimit(cfg, m, negative, neg, cap, n) && forall k: u32 :: LifetimeLimit(cfg, m, negative, neg, cap, k) ==> n <= k
  }

  /** An answer to the question, or a denial backed by the right SOA, that signatures allow to be kept. */
  ghost predicate Keepable(q: Question, m: Response, neg: Option<u32>, wall: Option<u32>, wall2: Option<u32>, cap: u32) {
    && (if m.rcode == 3 then !Requested(q, m.answers) else m.rcode == 0)
    && (Requested(q, m.answers) || (neg.Some? && Denied(q, m)))
    && Allows(m.authentic, All(m), wall, wall2, cap)
  }

  lemma LeastAnswer(rs: Records)
    requires rs != []
    ensures (exists i :: 0 <= i < |rs| && LeastTtl(rs) == rs[i].ttl) && forall i :: 0 <= i < |rs| ==> LeastTtl(rs) <= rs[i].ttl
  {
    var ttls := seq(|rs|, i requires 0 <= i < |rs| => Some(rs[i].ttl));
    assert ttls[0] == Some(rs[0].ttl);
    var i :| 0 <= i < |ttls| && ttls[i] == Least(ttls);
    forall i | 0 <= i < |rs|
      ensures LeastTtl(rs) <= rs[i].ttl
    {
      assert ttls[i] == Some(rs[i].ttl);
    }
  }

  ghost predicate AnswerLimit(cfg: Settings, m: Response, n: u32) {
    exists i :: 0 <= i < |m.answers| && n == Within(m.answers[i].ttl, cfg.minTtl, cfg.maxTtl)
  }

  /** The shortest answer, brought within the limits, is the shortest of those brought within the limits. */
  lemma ClampedLeast(cfg: Settings, m: Response)
    requires cfg.Ordered() && m.answers != []
    ensures
      var n := Clamp(LeastTtl(m.answers), cfg.minTtl, cfg.maxTtl);
      AnswerLimit(cfg, m, n) && forall k: u32 :: AnswerLimit(cfg, m, k) ==> n <= k
  {
    hide LeastTtl;
    LeastAnswer(m.answers);
    var i :| 0 <= i < |m.answers| && LeastTtl(m.answers) == m.answers[i].ttl;
  }

  lemma LifetimeLives(cfg: Settings, m: Response, requested: bool, neg: Option<u32>, cap: u32)
    requires cfg.Ordered() && (m.answers == [] ==> !requested) && !(m.rcode == NXDOMAIN && requested)
    requires requested || neg.Some?
    ensures Lives(cfg, m, !requested, neg, cap, Lifetime(cfg, m, requested, neg, cap))
  {
    hide LeastTtl, AnswerLimit;
    if m.answers == [] {
      NoAnswerLimits(cfg, m);
    } else {
      ClampedLeast(cfg, m);
    }
  }

  lemma NoAnswerLimits(cfg: Settings, m: Response)
    requires m.answers == []
    ensures forall n: u32 :: !AnswerLimit(cfg, m, n)
  {
  }

  lemma LivesOnce(cfg: Settings, m: Response, negative: bool, neg: Option<u32>, cap: u32, n: u32, k: u32)
    requires Lives(cfg, m, negative, neg, cap, n) && Lives(cfg, m, negative, neg, cap, k)
    ensures n == k
  {
    hide LifetimeLimit;
  }

  /** What the sections of an entry are, in terms of the received ones. */
  ghost predicate Carries(cfg: Settings, m: Response, negative: bool, cap: u32, n: u32, r: Response) {
    && r.rcode == m.rcode && r.authentic == m.authentic
    && |r.answers| == |m.answers| && |r.authorities| == |m.authorities| && |r.additionals| == |m.additionals|
    && (forall i :: 0 <= i < |m.answers| ==> r.answers[i] == m.answers[i].(ttl := Min(Within(m.answers[i].ttl, cfg.minTtl, cfg.maxTtl), cap)))
    && var limit := Min(if negative then cfg.negMax else cfg.maxTtl, cap);
       && (forall i :: 0 <= i < |m.authorities| ==>
             r.authorities[i] == m.authorities[i].(ttl := if negative && m.authorities[i].rtype == 6 then n else Min(m.authorities[i].ttl, limit)))
       && (forall i :: 0 <= i < |m.additionals| ==> r.additionals[i] == m.additionals[i].(ttl := Min(m.additionals[i].ttl, limit)))
  }

  lemma KeptCarries(cfg: Settings, m: Response, negative: bool, neg: Option<u32>, cap: u32, n: u32)
    requires cfg.Ordered() && Lives(cfg, m, negative, neg, cap, n) && (negative ==> neg.Some?)
    ensures Carries(cfg, m, negative, cap, n, Kept(cfg, m, negative, n, cap))
  {
    assert LifetimeLimit(cfg, m, negative, neg, cap, cap);
    assert negative ==> LifetimeLimit(cfg, m, negative, neg, cap, Within(neg.value, cfg.negMin, cfg.negMax));
  }

  /** The response may be kept for `n` seconds and no longer. */
  ghost predicate MayStore(cfg: Settings, q: Question, m: Response, neg: Option<u32>, wall: Option<u32>, wall2: Option<u32>, cap: u32, n: u32) {
    n > 0 && Keepable(q, m, neg, wall, wall2, cap) && Lives(cfg, m, !Requested(q, m.answers), neg, cap, n)
  }

  /** A response is stored exactly when it may be kept for some time; it then lives as long as it may, with these TTLs. */
  lemma StoreLaw(cfg: Settings, q: Question, response: Response, neg: Option<u32>, wall: Option<u32>, wall2: Option<u32>, now: Instant)
    requires cfg.Ordered()
    ensures
      var m, e := Relevant(response, q.qclass), Stored(cfg, Some(q), response, neg, wall, wall2, now);
      if e.Some? then
        && e.value.inserted == now
        && exists cap: u32 ::
          MayStore(cfg, q, m, neg, wall, wall2, cap, e.value.lifetime) && Carries(cfg, m, !Requested(q, m.answers), cap, e.value.lifetime, e.value.response)
      else forall cap: u32, n: u32 :: !MayStore(cfg, q, m, neg, wall, wall2, cap, n)
  {
    hide Requested, SoaCovers, Denied, DnssecCap, Lifetime, Kept, Relevant, Allows, Lives, Carries;
    var m := Relevant(response, q.qclass);
    SameCode(response, q.qclass);
    var requested, dcap := Requested(q, m.answers), DnssecCap(m.authentic, All(m), wall, wall2);
    DeniedIs(q, m);
    forall cap: u32
      ensures dcap == Some(cap) <==> Allows(m.authentic, All(m), wall, wall2, cap)
    {
      CapLaw(m.authentic, All(m), wall, wall2, cap);
    }
    if m.answers == [] {
      NothingRequested(q, m);
    }
    var neg' := if neg.Some? && SoaCovers(q, m) then neg else None;
    if dcap.Some? && Keepable(q, m, neg, wall, wall2, dcap.value) {
      var n, negative := Lifetime(cfg, m, requested, neg', dcap.value), !requested;
      LifetimeLives(cfg, m, requested, neg', dcap.value);
      SameLimits(cfg, m, negative, neg', neg, dcap.value);
      KeptCarries(cfg, m, negative, neg, dcap.value, n);
      forall k: u32 | Lives(cfg, m, negative, neg, dcap.value, k)
        ensures k == n
      {
        LivesOnce(cfg, m, negative, neg, dcap.value, n, k);
      }
      assert n > 0 ==> MayStore(cfg, q, m, neg, wall, wall2, dcap.value, n);
    } else {
      assert Stored(cfg, Some(q), response, neg, wall, wall2, now).None?;
    }
  }

  lemma SameCode(response: Response, cls: u16)
    ensures Relevant(response, cls).rcode == response.rcode && Relevant(response, cls).authentic == response.authentic
  {
  }

  /** For an answer the SOA does not matter. */
  lemma SameLimits(cfg: Settings, m: Response, negative: bool, neg: Option<u32>, neg': Option<u32>, cap: u32)
    requires negative ==> neg == neg'
    ensures forall n: u32 :: Lives(cfg, m, negative, neg, cap, n) <==> Lives(cfg, m, negative, neg', cap, n)
  {
    assert forall n: u32 :: LifetimeLimit(cfg, m, negative, neg, cap, n) <==> LifetimeLimit(cfg, m, negative, neg', cap, n);
  }

  // ------------------------------------------------------------------ reading

  /** What is left of a section: nothing is lost, added or reordered, and each record has the time it has left. */
  lemma {:induction false} AgedLaw(a: Records, b: Records, x: Record, elapsed: u32)
    ensures Aged(a + b, elapsed) == Aged(a, elapsed) + Aged(b, elapsed)
    ensures Aged([x], elapsed) == if x.ttl > elapsed then [x.(ttl := x.ttl - elapsed)] else []
  {
    assert Aged([x][1..], elapsed) == [];
    if a == [] {
      assert a + b == b;
    } else {
      AgedLaw(a[1..], b, x, elapsed);
      assert (a + b)[1..] == a[1..] + b;
    }
  }
}
