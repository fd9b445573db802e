/** Lifetimes in the response cache: what is stored, for how long, and with which TTLs it is read back. */
module ResponseCache {
  import opened Basics
  import opened Dns
  import opened Aliases

  const NANOS := 1_000_000_000
  const NOERROR: u16 := 0
  const NXDOMAIN: u16 := 3

  type Instant = nat  // nanoseconds on the monotonic clock
  type Key = Bytes

  datatype Settings = Settings(minTtl: u32, maxTtl: u32, negMin: u32, negMax: u32) {
    /** Clamping to an empty interval panics. */
    predicate Ordered() {
      minTtl <= maxTtl && negMin <= negMax
    }
  }

  function Clamp(x: u32, lo: u32, hi: u32): u32
    requires lo <= hi
  {
    if x < lo then lo else if x > hi then hi else x
  }

  // ------------------------------------------------------------------ signature lifetimes

  function WrappingSub(a: u32, b: u32): u32 {
    if a >= b then a - b else a + 0x1_0000_0000 - b
  }

  /** Serial number order of RFC 1982. */
  predicate SerialLe(a: u32, b: u32) {
    WrappingSub(b, a) < 0x8000_0000
  }

  predicate InTime(sig: Rrsig, now: u32) {
    SerialLe(sig.inception, now) && SerialLe(now, sig.expiration)
  }

  /** The least of the values present. */
  function Least(xs: seq<Option<u32>>): (m: Option<u32>)
    ensures m.None? <==> forall i :: 0 <= i < |xs| ==> xs[i].None?
    ensures m.Some? ==> m in xs && forall i :: 0 <= i < |xs| && xs[i].Some? ==> m.value <= xs[i].value
  {
    if xs == [] then None
    else
      var m := Least(xs[1..]);
      assert forall i :: 0 < i < |xs| ==> xs[i] == xs[1..][i - 1];
      if xs[0].None? then m else if m.None? || xs[0].value <= m.value then xs[0] else m
  }

  /** The in-time signature a record carries. */
  function ValidSignature(r: Record, wall: Option<u32>): Option<Rrsig> {
    if r.rtype == RRSIG && wall.Some? && r.data.Signature? && InTime(r.data.sig, wall.value) then Some(r.data.sig) else None
  }

  /** What a signature allows by itself: received TTL, original TTL and time to expiration. */
  function OwnCap(r: Record, wall: Option<u32>): Option<u32> {
    var s := ValidSignature(r, wall);
    if s.None? then None
    else Some(Min(Min(r.ttl, s.value.originalTtl), WrappingSub(s.value.expiration, wall.value)))
  }

  predicate Covers(r: Record, sig: Rrsig, x: Record) {
    x.class_ == r.class_ && x.rtype == sig.typeCovered && x.name == r.name
  }

  function CoveredTtl(all: Records, r: Record, sig: Rrsig): Option<u32> {
    Least(seq(|all|, i requires 0 <= i < |all| => if Covers(r, sig, all[i]) then Some(all[i].ttl) else None))
  }

  /** As `OwnCap`, and the TTL of what is signed; nothing when that is absent. */
  function CoveredCap(all: Records, r: Record, wall: Option<u32>): Option<u32> {
    var s := ValidSignature(r, wall);
    if s.None? then None
    else
      var c := CoveredTtl(all, r, s.value);
      if c.None? then None
      else Some(Min(Min(Min(r.ttl, c.value), s.value.originalTtl), WrappingSub(s.value.expiration, wall.value)))
  }

  function OwnCapList(all: Records, wall: Option<u32>): (l: seq<Option<u32>>)
    ensures |l| == |all| && forall i :: 0 <= i < |all| ==> l[i] == OwnCap(all[i], wall)
  {
    seq(|all|, i requires 0 <= i < |all| => OwnCap(all[i], wall))
  }

  function CoveredCapList(all: Records, wall: Option<u32>): (l: seq<Option<u32>>)
    ensures |l| == |all| && forall i :: 0 <= i < |all| ==> l[i] == CoveredCap(all, all[i], wall)
  {
    seq(|all|, i requires 0 <= i < |all| => CoveredCap(all, all[i], wall))
  }

  function OwnCaps(all: Records, wall: Option<u32>): Option<u32> {
    Least(OwnCapList(all, wall))
  }

  function CoveredCaps(all: Records, wall: Option<u32>): Option<u32> {
    Least(CoveredCapList(all, wall))
  }

  predicate HasRrsig(all: Records) {
    exists r :: r in all && r.rtype == RRSIG
  }

  /** Lifetime signatures allow; nothing when the answer must not be kept. The wall clock is read twice. */
  function DnssecCap(authentic: bool, all: Records, wall: Option<u32>, wall2: Option<u32>): Option<u32> {
    if !HasRrsig(all) then (if authentic then None else Some(U32_MAX))
    else
      var own, covered := OwnCaps(all, wall), CoveredCaps(all, wall2);
      if own.None? || (authentic && covered.None?) then None
      else
        var cap := if covered.None? then own.value else Min(own.value, covered.value);
        if cap == 0 then None else Some(cap)
  }

  /** The cap outlives no signature that is in time. */
  lemma CapEndsWithSignatures(authentic: bool, all: Records, wall: Option<u32>, wall2: Option<u32>, r: Record)
    requires DnssecCap(authentic, all, wall, wall2).Some? && r in all && ValidSignature(r, wall).Some?
    ensures
      var cap, sig := DnssecCap(authentic, all, wall, wall2).value, r.data.sig;
      cap <= WrappingSub(sig.expiration, wall.value) && cap <= sig.originalTtl && cap <= r.ttl
  {
    var caps := OwnCapList(all, wall);
    var i :| 0 <= i < |all| && all[i] == r;
    assert caps[i] == OwnCap(r, wall);
  }

  /** An answer marked authentic is kept only if one of its signatures is in time and covers something present. */
  lemma AuthenticNeedsSignature(all: Records, wall: Option<u32>, wall2: Option<u32>)
    requires DnssecCap(true, all, wall, wall2).Some?
    ensures exists r, x :: r in all && x in all && ValidSignature(r, wall2).Some? && Covers(r, r.data.sig, x)
                           && DnssecCap(true, all, wall, wall2).value <= x.ttl
  {
    hide InTime, WrappingSub, OwnCaps, CoveredTtl;
    var caps := CoveredCapList(all, wall2);
    var i :| 0 <= i < |caps| && caps[i] == CoveredCaps(all, wall2);
    var r := all[i];
    assert CoveredTtl(all, r, r.data.sig).Some?;
    CoveredTtlIs(all, r, r.data.sig);
  }

  lemma CoveredTtlIs(all: Records, r: Record, sig: Rrsig)
    requires CoveredTtl(all, r, sig).Some?
    ensures exists x :: x in all && Covers(r, sig, x) && CoveredTtl(all, r, sig).value == x.ttl
  {
    hide Covers;
    var ttls := seq(|all|, j requires 0 <= j < |all| => if Covers(r, sig, all[j]) then Some(all[j].ttl) else None);
    var j :| 0 <= j < |ttls| && ttls[j] == CoveredTtl(all, r, sig);
    assert Covers(r, sig, all[j]);
  }

  // ------------------------------------------------------------------ storing

  datatype Response = Response(rcode: u16, answers: Records, authorities: Records, additionals: Records, authentic: bool)

  datatype Entry = Entry(response: Response, inserted: Instant, lifetime: u32)

  function OfClass(rs: Records, cls: u16, dropOpt: bool): Records {
    if rs == [] then []
    else (if rs[0].class_ == cls && !(dropOpt && rs[0].rtype == OPT) then [rs[0]] else []) + OfClass(rs[1..], cls, dropOpt)
  }

  /** What of a response concerns the question's class. */
  function Relevant(m: Response, cls: u16): Response {
    m.(answers := OfClass(m.answers, cls, false), authorities := OfClass(m.authorities, cls, false),
       additionals := OfClass(m.additionals, cls, true))
  }

  function All(m: Response): Records {
    m.answers + m.authorities + m.additionals
  }

  /** An SOA of the zone the name is in. */
  predicate IsZoneSoa(r: Record, cls: u16, name: Name) {
    r.data.Soa? && r.class_ == cls && |r.name| <= |name| && Suffix(name, |r.name|) == r.name
  }

  /** Some authority SOA covers the name at which the alias chain ends. */
  ghost predicate SoaCovers(q: Question, m: Response) {
    exists i :: 0 <= i < MAX_ALIASES && EndsAt(q, m.answers, i) && exists r :: r in m.authorities && IsZoneSoa(r, q.qclass, Walk(q, m.answers, i).value)
  }

  function LeastTtl(rs: Records): u32 {
    var m := Least(seq(|rs|, i requires 0 <= i < |rs| => Some(rs[i].ttl)));
    if m.None? then 0 else m.value
  }

  /** A denial: the name does not exist, or has no such record. */
  predicate Negative(rcode: u16, requested: bool) {
    rcode == NXDOMAIN || !requested
  }

  /** Seconds a response is kept. `neg` is the lifetime its SOA gives a denial, once that SOA is known to cover the name. */
  function Lifetime(cfg: Settings, m: Response, requested: bool, neg: Option<u32>, cap: u32): u32
    requires cfg.Ordered()
  {
    var answerTtl := Clamp(LeastTtl(m.answers), cfg.minTtl, cfg.maxTtl);
    var negTtl := if neg.Some? then Some(Clamp(neg.value, cfg.negMin, cfg.negMax)) else None;
    var ttl :=
      if m.answers == [] then (if negTtl.Some? then negTtl.value else 0)
      else if m.rcode == NXDOMAIN || (!requested && negTtl.Some?) then (if negTtl.Some? then Min(answerTtl, negTtl.value) else answerTtl)
      else answerTtl;
    Min(ttl, cap)
  }

  function SectionCap(cfg: Settings, negative: bool): u32 {
    if negative then cfg.negMax else cfg.maxTtl
  }

  function KeptAnswer(cfg: Settings, cap: u32, r: Record): Record
    requires cfg.Ordered()
  {
    r.(ttl := Min(Clamp(r.ttl, cfg.minTtl, cfg.maxTtl), cap))
  }

  function KeptOther(section: u32, cap: u32, r: Record): Record {
    r.(ttl := Min(Min(r.ttl, section), cap))
  }

  /** The SOA of a denial is given the lifetime of the entry. */
  function Dated(negative: bool, lifetime: u32, r: Record): Record {
    if negative && r.rtype == SOA then r.(ttl := lifetime) else r
  }

  function Kept(cfg: Settings, m: Response, negative: bool, lifetime: u32, cap: u32): Response
    requires cfg.Ordered()
  {
    m.(answers := seq(|m.answers|, i requires 0 <= i < |m.answers| => KeptAnswer(cfg, cap, m.answers[i])),
       authorities := seq(|m.authorities|, i requires 0 <= i < |m.authorities| =>
                            KeptOther(SectionCap(cfg, negative), cap, Dated(negative, lifetime, m.authorities[i]))),
       additionals := seq(|m.additionals|, i requires 0 <= i < |m.additionals| => KeptOther(SectionCap(cfg, negative), cap, m.additionals[i])))
  }

  /** The entry made of a response, if it is worth and safe keeping. */
  ghost function Stored(cfg: Settings, question: Option<Question>, response: Response, neg: Option<u32>,
                        wall: Option<u32>, wall2: Option<u32>, now: Instant): Option<Entry>
    requires cfg.Ordered()
  {
    if (response.rcode != NOERROR && response.rcode != NXDOMAIN) || question.None? then None
    else
      var q := question.value;
      var m := Relevant(response, q.qclass);
      var cap := DnssecCap(m.authentic, All(m), wall, wall2);
      var requested := Requested(q, m.answers);
      var neg' := if neg.Some? && SoaCovers(q, m) then neg else None;
      if cap.None? || (m.rcode == NXDOMAIN && requested) || (neg'.None? && Negative(m.rcode, requested)) then None
      else
        var lifetime := Lifetime(cfg, m, requested, neg', cap.value);
        if lifetime == 0 then None
        else Some(Entry(Kept(cfg, m, Negative(m.rcode, requested), lifetime, cap.value), now, lifetime))
  }

  // ------------------------------------------------------------------ reading

  /** Whole seconds since insertion, saturating. */
  function Elapsed(inserted: Instant, now: Instant): u32 {
    if now < inserted then 0 else Min((now - inserted) / NANOS, U32_MAX)
  }

  /** Records that have time left, with the time they have left. */
  function Aged(rs: Records, elapsed: u32): Records {
    if rs == [] then []
    else (if rs[0].ttl > elapsed then [rs[0].(ttl := rs[0].ttl - elapsed)] else []) + Aged(rs[1..], elapsed)
  }

  function AgedResponse(m: Response, elapsed: u32): Response {
    m.(answers := Aged(m.answers, elapsed), authorities := Aged(m.authorities, elapsed), additionals := Aged(m.additionals, elapsed))
  }

  function Read(e: Entry, now: Instant): Option<Response> {
    var elapsed := Elapsed(e.inserted, now);
    if elapsed >= e.lifetime then None else Some(AgedResponse(e.response, elapsed))
  }

  lemma AgedFrom(rs: Records, i: nat, elapsed: u32)
    requires i < |rs|
    ensures Aged(rs[i..], elapsed) == (if rs[i].ttl > elapsed then [rs[i].(ttl := rs[i].ttl - elapsed)] else []) + Aged(rs[i + 1..], elapsed)
  {
    assert rs[i..][1..] == rs[i + 1..];
  }

  lemma NoneAged(elapsed: u32)
    ensures Aged([], elapsed) == []
  {
  }

  method AgeRecords(rs: Records, elapsed: u32) returns (kept: Records)
    ensures kept == Aged(rs, elapsed)
  {
    hide Aged;
    kept := [];
    assert rs[0..] == rs;
    NoneAged(elapsed);
    for i := 0 to |rs|
      invariant kept + Aged(rs[i..], elapsed) == Aged(rs, elapsed)
    {
      var remaining: u32 := if rs[i].ttl >= elapsed then rs[i].ttl - elapsed else 0;
      AgedFrom(rs, i, elapsed);
      if remaining != 0 {
        kept := kept + [rs[i].(ttl := remaining)];
      }
    }
    assert rs[|rs|..] == [] && kept + [] == kept;
  }

  /** Exactly the records with time left come back, each with that time. */
  lemma {:induction false} AgedAre(rs: Records, elapsed: u32, x: Record)
    ensures x in Aged(rs, elapsed) <==> x.ttl >= 1 && x.ttl + elapsed <= U32_MAX && x.(ttl := x.ttl + elapsed) in rs
  {
    if rs != [] {
      AgedAre(rs[1..], elapsed, x);
      assert rs == [rs[0]] + rs[1..];
      if x.ttl >= 1 && x.ttl + elapsed <= U32_MAX {
        var y := x.(ttl := x.ttl + elapsed);
        assert y == rs[0] <==> rs[0].ttl > elapsed && x == rs[0].(ttl := rs[0].ttl - elapsed);
      }
    }
  }

  lemma {:induction false} AllOutlive(rs: Records, elapsed: u32)
    requires forall i :: 0 <= i < |rs| ==> rs[i].ttl > elapsed
    ensures |Aged(rs, elapsed)| == |rs|
    ensures forall i :: 0 <= i < |rs| ==> Aged(rs, elapsed)[i] == rs[i].(ttl := rs[i].ttl - elapsed)
  {
    if rs != [] {
      AllOutlive(rs[1..], elapsed);
    }
  }

  // ------------------------------------------------------------------ what a stored entry promises

  /** No TTL of a section exceeds a bound. */
  ghost predicate Bounded(rs: Records, bound: u32) {
    forall i :: 0 <= i < |rs| ==> rs[i].ttl <= bound
  }

  /** The facts about an entry on which every later reading rests. */
  ghost predicate Sound(cfg: Settings, e: Entry, negative: bool, cap: u32) {
    && 0 < e.lifetime <= cap && e.lifetime <= SectionCap(cfg, negative)
    && (forall i :: 0 <= i < |e.response.answers| ==> e.lifetime <= e.response.answers[i].ttl)
    && Bounded(e.response.answers, Min(cfg.maxTtl, cap))
    && Bounded(e.response.authorities, Min(SectionCap(cfg, negative), cap))
    && Bounded(e.response.additionals, Min(SectionCap(cfg, negative), cap))
    && (negative ==> forall i :: 0 <= i < |e.response.authorities| && e.response.authorities[i].rtype == SOA ==> e.response.authorities[i].ttl == e.lifetime)
  }

  ghost predicate EntrySound(cfg: Settings, e: Entry) {
    exists negative, cap :: Sound(cfg, e, negative, cap)
  }

  lemma LeastTtlIs(rs: Records, i: nat)
    requires i < |rs|
    ensures LeastTtl(rs) <= rs[i].ttl
  {
    var ttls := seq(|rs|, j requires 0 <= j < |rs| => Some(rs[j].ttl));
    assert ttls[i] == Some(rs[i].ttl);
  }

  /** An empty section holds nothing that was asked for. */
  lemma NothingRequested(q: Question, m: Response)
    requires m.answers == []
    ensures !Requested(q, m.answers)
  {
    hide Alias, Walk;
  }

  lemma KeptSound(cfg: Settings, m: Response, requested: bool, neg: Option<u32>, cap: u32, now: Instant)
    requires cfg.Ordered() && (m.answers == [] ==> !requested) && !(m.rcode == NXDOMAIN && requested)
    requires !(neg.None? && Negative(m.rcode, requested)) && Lifetime(cfg, m, requested, neg, cap) > 0
    ensures
      var negative, lifetime := Negative(m.rcode, requested), Lifetime(cfg, m, requested, neg, cap);
      Sound(cfg, Entry(Kept(cfg, m, negative, lifetime, cap), now, lifetime), negative, cap)
  {
    hide LeastTtl;
    var negative, lifetime := Negative(m.rcode, requested), Lifetime(cfg, m, requested, neg, cap);
    forall i | 0 <= i < |m.answers|
      ensures lifetime <= KeptAnswer(cfg, cap, m.answers[i]).ttl
    {
      LeastTtlIs(m.answers, i);
    }
  }

  lemma StoredSound(cfg: Settings, q: Question, response: Response, neg: Option<u32>, wall: Option<u32>, wall2: Option<u32>, now: Instant)
    requires cfg.Ordered() && Stored(cfg, Some(q), response, neg, wall, wall2, now).Some?
    ensures
      var m := Relevant(response, q.qclass);
      var cap := DnssecCap(m.authentic, All(m), wall, wall2);
      && cap.Some?
      && Sound(cfg, Stored(cfg, Some(q), response, neg, wall, wall2, now).value, Negative(m.rcode, Requested(q, m.answers)), cap.value)
  {
    hide Requested, SoaCovers, DnssecCap, Lifetime, Kept, Relevant, Sound;
    var m := Relevant(response, q.qclass);
    var neg' := if neg.Some? && SoaCovers(q, m) then neg else None;
    if m.answers == [] {
      NothingRequested(q, m);
    }
    KeptSound(cfg, m, Requested(q, m.answers), neg', DnssecCap(m.authentic, All(m), wall, wall2).value, now);
  }

  /** A positive entry answers the question; a denial is backed by an SOA of the right zone. */
  lemma StoredIsJustified(cfg: Settings, q: Question, response: Response, neg: Option<u32>, wall: Option<u32>, wall2: Option<u32>, now: Instant)
    requires cfg.Ordered() && Stored(cfg, Some(q), response, neg, wall, wall2, now).Some?
    ensures
      var m := Relevant(response, q.qclass);
      if response.rcode == NXDOMAIN then !Requested(q, m.answers) && SoaCovers(q, m)
      else response.rcode == NOERROR && (Requested(q, m.answers) || SoaCovers(q, m))
  {
    hide Requested, SoaCovers, DnssecCap, Lifetime, Kept;
  }

  /** The store-then-read law. */
  lemma ReadLaw(cfg: Settings, e: Entry, negative: bool, cap: u32, now: Instant)
    requires Sound(cfg, e, negative, cap)
    ensures Read(e, now).Some? <==> Elapsed(e.inserted, now) < e.lifetime
    ensures Read(e, now).Some? ==>
      var r, elapsed := Read(e, now).value, Elapsed(e.inserted, now);
      && r.rcode == e.response.rcode && r.authentic == e.response.authentic
      && |r.answers| == |e.response.answers|
      && (forall i :: 0 <= i < |r.answers| ==>
            elapsed < e.response.answers[i].ttl && r.answers[i] == e.response.answers[i].(ttl := e.response.answers[i].ttl - elapsed))
      && (forall x :: x in r.answers ==> x.ttl + elapsed <= Min(cfg.maxTtl, cap))
      && (forall x :: x in r.authorities + r.additionals ==> 1 <= x.ttl && x.ttl + elapsed <= Min(SectionCap(cfg, negative), cap))
      && (negative ==> forall x :: x in r.authorities && x.rtype == SOA ==> x.ttl + elapsed == e.lifetime)
  {
    if Read(e, now).Some? {
      var elapsed := Elapsed(e.inserted, now);
      AllOutlive(e.response.answers, elapsed);
      forall x: Record
        ensures x in Aged(e.response.authorities, elapsed) ==> 1 <= x.ttl && x.ttl + elapsed <= U32_MAX && x.(ttl := x.ttl + elapsed) in e.response.authorities
        ensures x in Aged(e.response.additionals, elapsed) ==> 1 <= x.ttl && x.ttl + elapsed <= U32_MAX && x.(ttl := x.ttl + elapsed) in e.response.additionals
      {
        AgedAre(e.response.authorities, elapsed, x);
        AgedAre(e.response.additionals, elapsed, x);
      }
    }
  }

  /** Each SOA of a denial is still there at every hit, with exactly the remaining lifetime. */
  lemma SoaStays(cfg: Settings, e: Entry, cap: u32, now: Instant, soa: Record)
    requires Sound(cfg, e, true, cap) && soa in e.response.authorities && soa.rtype == SOA && Read(e, now).Some?
    ensures soa.(ttl := e.lifetime - Elapsed(e.inserted, now)) in Read(e, now).value.authorities
  {
    AgedAre(e.response.authorities, Elapsed(e.inserted, now), soa.(ttl := e.lifetime - Elapsed(e.inserted, now)));
  }

  /** Nothing read from the cache claims to live past a signature that was in time when it was stored. */
  lemma NothingOutlivesSignatures(cfg: Settings, q: Question, response: Response, neg: Option<u32>, wall: Option<u32>, wall2: Option<u32>,
                                  inserted: Instant, now: Instant, signed: Record, x: Record)
    requires cfg.Ordered() && Stored(cfg, Some(q), response, neg, wall, wall2, inserted).Some?
    requires signed in All(Relevant(response, q.qclass)) && ValidSignature(signed, wall).Some?
    requires Read(Stored(cfg, Some(q), response, neg, wall, wall2, inserted).value, now).Some?
    requires x in All(Read(Stored(cfg, Some(q), response, neg, wall, wall2, inserted).value, now).value)
    ensures x.ttl + Elapsed(inserted, now) <= WrappingSub(signed.data.sig.expiration, wall.value)
  {
    hide Requested, SoaCovers, DnssecCap, Lifetime, Kept, Relevant, Read, Elapsed, ValidSignature;
    var m := Relevant(response, q.qclass);
    var e := Stored(cfg, Some(q), response, neg, wall, wall2, inserted).value;
    StoredSound(cfg, q, response, neg, wall, wall2, inserted);
    var cap := DnssecCap(m.authentic, All(m), wall, wall2).value;
    CapEndsWithSignatures(m.authentic, All(m), wall, wall2, signed);
    ReadLaw(cfg, e, Negative(m.rcode, Requested(q, m.answers)), cap, now);
  }

  // ------------------------------------------------------------------ the cache object

  lemma OfClassFrom(rs: Records, i: nat, cls: u16, dropOpt: bool)
    requires i < |rs|
    ensures OfClass(rs[i..], cls, dropOpt)
         == (if rs[i].class_ == cls && !(dropOpt && rs[i].rtype == OPT) then [rs[i]] else []) + OfClass(rs[i + 1..], cls, dropOpt)
  {
    assert rs[i..][1..] == rs[i + 1..];
  }

  lemma NoneOfClass(cls: u16, dropOpt: bool)
    ensures OfClass([], cls, dropOpt) == []
  {
  }

  method FilterClass(rs: Records, cls: u16, dropOpt: bool) returns (kept: Records)
    ensures kept == OfClass(rs, cls, dropOpt)
  {
    hide OfClass;
    kept := [];
    assert rs[0..] == rs;
    NoneOfClass(cls, dropOpt);
    for i := 0 to |rs|
      invariant kept + OfClass(rs[i..], cls, dropOpt) == OfClass(rs, cls, dropOpt)
    {
      OfClassFrom(rs, i, cls, dropOpt);
      if rs[i].class_ == cls && !(dropOpt && rs[i].rtype == OPT) {
        kept := kept + [rs[i]];
      }
    }
    assert rs[|rs|..] == [] && kept + [] == kept;
  }

  /** Whether there are signatures, and the least of what each allows by itself. */
  method RrsigRecordTtlCap(all: Records, wall: Option<u32>) returns (has: bool, cap: Option<u32>)
    ensures has == HasRrsig(all) && cap == OwnCaps(all, wall)
  {
    hide OwnCap;
    has, cap := false, None;
    ghost var caps := OwnCapList(all, wall);
    for i := 0 to |all|
      invariant has <==> exists j :: 0 <= j < i && all[j].rtype == RRSIG
      invariant cap.None? <==> forall j :: 0 <= j < i ==> caps[j].None?
      invariant cap.Some? ==> (exists j :: 0 <= j < i && caps[j] == cap) && forall j :: 0 <= j < i && caps[j].Some? ==> cap.value <= caps[j].value
    {
      var own := OwnCap(all[i], wall);
      assert own == caps[i];
      has := has || all[i].rtype == RRSIG;
      if own.Some? {
        cap := Some(if cap.None? then own.value else Min(cap.value, own.value));
      }
    }
    assert forall r :: r in all ==> exists j :: 0 <= j < |all| && all[j] == r;
  }

  method CacheDnssecTtlCap(authentic: bool, all: Records, wall: Option<u32>, wall2: Option<u32>) returns (cap: Option<u32>)
    ensures cap == DnssecCap(authentic, all, wall, wall2)
  {
    hide HasRrsig, OwnCaps, CoveredCaps;
    var has, own := RrsigRecordTtlCap(all, wall);
    if !has {
      return if authentic then None else Some(U32_MAX);
    }
    if own.None? {
      return None;
    }
    var covered := CoveredCaps(all, wall2);
    if authentic && covered.None? {
      return None;
    }
    var c := Min(own.value, if covered.None? then U32_MAX else covered.value);
    return if c == 0 then None else Some(c);
  }

  /** Whether a denial is backed by an SOA of the zone in which the alias chain ends. */
  method HasCoveringSoa(q: Question, m: Response) returns (ok: bool)
    ensures ok <==> SoaCovers(q, m)
  {
    hide Alias, Walk, IsZoneSoa;
    var terminal := TerminalAnswerName(q, m.answers);
    if terminal.None? {
      return false;
    }
    ghost var i :| 0 <= i < MAX_ALIASES && EndsAt(q, m.answers, i) && Walk(q, m.answers, i) == terminal;
    ok := exists r :: r in m.authorities && IsZoneSoa(r, q.qclass, terminal.value);
    if SoaCovers(q, m) {
      ghost var j :| 0 <= j < MAX_ALIASES && EndsAt(q, m.answers, j) && exists r :: r in m.authorities && IsZoneSoa(r, q.qclass, Walk(q, m.answers, j).value);
      EndIsUnique(q, m.answers, i, j);
    }
  }

  class NativeCache {
    const cfg: Settings
    var entries: map<Key, Entry>

    ghost predicate Valid()
      reads this
    {
      cfg.Ordered() && forall k :: k in entries ==> EntrySound(cfg, entries[k])
    }

    constructor (cfg: Settings)
      requires cfg.Ordered()
      ensures Valid() && this.cfg == cfg && entries == map[]
    {
      this.cfg, entries := cfg, map[];
    }

    /** Stores a response under a key, if it qualifies. */
    method PutByKey(key: Key, question: Option<Question>, response: Response, neg: Option<u32>,
                    wall: Option<u32>, wall2: Option<u32>, now: Instant)
      requires Valid()
      modifies this
      ensures Valid()
      ensures
        var e := Stored(cfg, question, response, neg, wall, wall2, now);
        entries == if e.Some? then old(entries)[key := e.value] else old(entries)
    {
      hide Requested, SoaCovers, DnssecCap, Kept, Lifetime, Sound;
      if (response.rcode != NOERROR && response.rcode != NXDOMAIN) || question.None? {
        return;
      }
      var q := question.value;
      var answers := FilterClass(response.answers, q.qclass, false);
      var authorities := FilterClass(response.authorities, q.qclass, false);
      var additionals := FilterClass(response.additionals, q.qclass, true);
      var m := response.(answers := answers, authorities := authorities, additionals := additionals);
      assert m == Relevant(response, q.qclass);
      var cap := CacheDnssecTtlCap(m.authentic, All(m), wall, wall2);
      if cap.None? {
        return;
      }
      var requested := HasRequestedAnswer(q, m.answers);
      if m.rcode == NXDOMAIN && requested {
        return;
      }
      var covering := HasCoveringSoa(q, m);
      var negMin := if covering then neg else None;
      if negMin.None? && Negative(m.rcode, requested) {
        return;
      }
      var lifetime := Lifetime(cfg, m, requested, negMin, cap.value);
      if lifetime == 0 {
        return;
      }
      StoredSound(cfg, q, response, neg, wall, wall2, now);
      entries := entries[key := Entry(Kept(cfg, m, Negative(m.rcode, requested), lifetime, cap.value), now, lifetime)];
    }

    /** Reads a key; an expired entry goes away. A hit has every answer record that was stored, each with time left. */
    method GetByKey(key: Key, now: Instant) returns (r: Option<Response>)
      requires Valid()
      modifies this
      ensures Valid()
      ensures r.Some? ==> key in old(entries) && |r.value.answers| == |old(entries)[key].response.answers| && forall x :: x in All(r.value) ==> 1 <= x.ttl
      ensures r == if key in old(entries) then Read(old(entries)[key], now) else None
      ensures entries == if key in old(entries) && r.None? then old(entries) - {key} else old(entries)
    {
      hide Sound;
      if key !in entries {
        return None;
      }
      var e := entries[key];
      ghost var negative, cap :| Sound(cfg, e, negative, cap);
      ReadLaw(cfg, e, negative, cap, now);
      var elapsed := Elapsed(e.inserted, now);
      if elapsed >= e.lifetime {
        entries := entries - {key};
        return None;
      }
      var answers := AgeRecords(e.response.answers, elapsed);
      var authorities := AgeRecords(e.response.authorities, elapsed);
      var additionals := AgeRecords(e.response.additionals, elapsed);
      return Some(e.response.(answers := answers, authorities := authorities, additionals := additionals));
    }
  }
}
