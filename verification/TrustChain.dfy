/**
 Validation of forwarded answers: a chain of trust is built from the root anchors down by asking
 the upstream server for DNSKEY and DS records. The signature algorithms are parameters, and so is
 the upstream, which may answer anything.
 */
module TrustChain {
  import opened Basics
  import Dns

  const MAX_CHAIN_QUERIES := 24
  const MAX_CHAIN_DEPTH := 16
  const CHAIN_CACHE_MAX_TTL := 3600
  const CHAIN_CACHE_MIN_TTL := 60

  const DS: u16 := 43
  const RRSIG: u16 := 46
  const NSEC: u16 := 47
  const DNSKEY: u16 := 48
  const NSEC3: u16 := 50
  const CNAME: u16 := 5

  type Name = Dns.Name
  type Anchor = Bytes  // a DS digest
  type Key = Bytes

  datatype Sig = Sig(typeCovered: u16, signer: Name, rest: Bytes)

  /** A record; `sig` is its decoded form when it is a well-formed RRSIG. */
  datatype Rr = Rr(name: Name, rtype: u16, ttl: u32, data: Bytes, sig: Option<Sig>)

  datatype Question = Question(name: Name, qtype: u16)

  datatype Response = Response(rcode: u16, questions: seq<Question>, answers: seq<Rr>, authorities: seq<Rr>, ad: bool)

  datatype Denial = Denial(nsec: seq<Rr>, nsecSigs: seq<Sig>, nsec3: seq<Rr>, nsec3Sigs: seq<Sig>)

  datatype Absence = InsecureDelegation | NotACut | Unproven

  /** The checks done by the signature library, and the decoding of a DS record the library supports. */
  datatype Crypto = Crypto(
    keysOf: (seq<Rr>, seq<Sig>, seq<Anchor>, Name, u32) -> Option<seq<Key>>,
    signed: (seq<Rr>, seq<Sig>, seq<Key>, Name, u32) -> bool,
    absence: (Name, seq<Key>, Denial, Name, u32) -> Absence,
    dsOf: Rr -> Option<Anchor>)

  /** The answer to the n-th question put to the upstream. */
  type Upstream = (nat, Name, u16) -> Option<Response>

  // ------------------------------------------------------------------ record filters

  function SectionRecords(section: seq<Rr>, name: Name, qtype: u16): (r: seq<Rr>)
    ensures forall i :: 0 <= i < |r| ==> r[i].name == name && r[i].rtype == qtype && r[i] in section
  {
    if section == [] then []
    else (if section[0].rtype == qtype && section[0].name == name then [section[0]] else []) + SectionRecords(section[1..], name, qtype)
  }

  function CoveringSigs(section: seq<Rr>, name: Name, qtype: u16): seq<Sig> {
    if section == [] then []
    else (if section[0].rtype == RRSIG && section[0].name == name && section[0].sig.Some? && section[0].sig.value.typeCovered == qtype
          then [section[0].sig.value] else []) + CoveringSigs(section[1..], name, qtype)
  }

  function OfType(section: seq<Rr>, qtype: u16): seq<Rr> {
    if section == [] then [] else (if section[0].rtype == qtype then [section[0]] else []) + OfType(section[1..], qtype)
  }

  function SigsOfType(section: seq<Rr>, qtype: u16): seq<Sig> {
    if section == [] then []
    else (if section[0].rtype == RRSIG && section[0].sig.Some? && section[0].sig.value.typeCovered == qtype
          then [section[0].sig.value] else []) + SigsOfType(section[1..], qtype)
  }

  /** Signer of the first signature over the type asked for, or over an alias. */
  function AnswerSigner(answers: seq<Rr>, qtype: u16): Option<Name> {
    if answers == [] then None
    else if answers[0].rtype == RRSIG && answers[0].sig.Some?
            && (answers[0].sig.value.typeCovered == qtype || answers[0].sig.value.typeCovered == CNAME)
    then Some(answers[0].sig.value.signer)
    else AnswerSigner(answers[1..], qtype)
  }

  function Supported(c: Crypto, records: seq<Rr>): seq<Anchor> {
    if records == [] then []
    else (var d := c.dsOf(records[0]); if d.Some? then [d.value] else []) + Supported(c, records[1..])
  }

  function LeastTtl(records: seq<Rr>, start: u32): u32 {
    if records == [] then start else LeastTtl(records[1..], Min(start, records[0].ttl))
  }

  // ------------------------------------------------------------------ what the filters keep

  /** The values `f` gives for the records of a section, in their order. */
  ghost function Kept<T(!new)>(section: seq<Rr>, f: Rr -> Option<T>): seq<T> {
    if section == [] then [] else (if f(section[0]).Some? then [f(section[0]).value] else []) + Kept(section[1..], f)
  }

  /** What is kept of one record, and that nothing is lost, added or reordered where two parts meet, fixes what is kept of all. */
  lemma {:induction false} KeptLaw<T(!new)>(a: seq<Rr>, b: seq<Rr>, x: Rr, f: Rr -> Option<T>)
    ensures Kept(a + b, f) == Kept(a, f) + Kept(b, f)
    ensures Kept([x], f) == if f(x).Some? then [f(x).value] else []
  {
    assert Kept([x][1..], f) == [];
    if a == [] {
      assert a + b == b;
    } else {
      KeptLaw(a[1..], b, x, f);
      assert (a + b)[1..] == a[1..] + b;
    }
  }

  /** Records of a name and type. */
  lemma {:induction false} SectionRecordsAre(section: seq<Rr>, name: Name, qtype: u16, f: Rr -> Option<Rr>)
    requires forall x :: f(x) == if x.name == name && x.rtype == qtype then Some(x) else None
    ensures SectionRecords(section, name, qtype) == Kept(section, f)
  {
    if section != [] {
      SectionRecordsAre(section[1..], name, qtype, f);
    }
  }

  lemma {:induction false} OfTypeAre(section: seq<Rr>, qtype: u16, f: Rr -> Option<Rr>)
    requires forall x :: f(x) == if x.rtype == qtype then Some(x) else None
    ensures OfType(section, qtype) == Kept(section, f)
  {
    if section != [] {
      OfTypeAre(section[1..], qtype, f);
    }
  }

  /** Well-formed signatures over a type, at a name. */
  lemma {:induction false} CoveringSigsAre(section: seq<Rr>, name: Name, qtype: u16, f: Rr -> Option<Sig>)
    requires forall x :: f(x) == if x.name == name && x.rtype == 46 && x.sig.Some? && x.sig.value.typeCovered == qtype then x.sig else None
    ensures CoveringSigs(section, name, qtype) == Kept(section, f)
  {
    if section != [] {
      CoveringSigsAre(section[1..], name, qtype, f);
    }
  }

  lemma {:induction false} SigsOfTypeAre(section: seq<Rr>, qtype: u16, f: Rr -> Option<Sig>)
    requires forall x :: f(x) == if x.rtype == 46 && x.sig.Some? && x.sig.value.typeCovered == qtype then x.sig else None
    ensures SigsOfType(section, qtype) == Kept(section, f)
  {
    if section != [] {
      SigsOfTypeAre(section[1..], qtype, f);
    }
  }

  /** The DS entries that decode and are supported. */
  lemma {:induction false} SupportedAre(c: Crypto, section: seq<Rr>)
    ensures Supported(c, section) == Kept(section, c.dsOf)
  {
    if section != [] {
      SupportedAre(c, section[1..]);
    }
  }

  predicate Signs(x: Rr, qtype: u16) {
    x.rtype == 46 && x.sig.Some? && (x.sig.value.typeCovered == qtype || x.sig.value.typeCovered == 5)
  }

  /** The first signature over the type asked for or over an alias names the signer. */
  lemma {:induction false} AnswerSignerIs(answers: seq<Rr>, qtype: u16, f: Rr -> Option<Name>)
    requires forall x :: f(x) == (if Signs(x, qtype) then Some(x.sig.value.signer) else None)
    ensures AnswerSigner(answers, qtype) == if Kept(answers, f) == [] then None else Some(Kept(answers, f)[0])
  {
    if answers != [] {
      AnswerSignerIs(answers[1..], qtype, f);
    }
  }

  /** The shortest lifetime. */
  lemma {:induction false} LeastTtlIs(records: seq<Rr>, start: u32)
    ensures LeastTtl(records, start) <= start && forall i :: 0 <= i < |records| ==> LeastTtl(records, start) <= records[i].ttl
    ensures LeastTtl(records, start) == start || exists i :: 0 <= i < |records| && LeastTtl(records, start) == records[i].ttl
  {
    if records != [] {
      LeastTtlIs(records[1..], Min(start, records[0].ttl));
      assert forall i :: 1 <= i < |records| ==> records[i] == records[1..][i - 1];
    }
  }

  // ------------------------------------------------------------------ what the upstream has said

  /** A question that was put to the upstream, as its `at`-th, and the usable answer, if it gave one. */
  datatype Exchange = Exchange(at: nat, name: Name, qtype: u16, response: Option<Response>)

  /** Only answers without an error, and denials of the name, are used. */
  function Usable(r: Option<Response>): Option<Response> {
    if r.Some? && (r.value.rcode == 0 || r.value.rcode == 3) then r else None
  }

  /** The upstream gave this answer. */
  ghost predicate Got(seen: set<Exchange>, name: Name, qtype: u16, r: Response) {
    exists k: nat :: Exchange(k, name, qtype, Some(r)) in seen
  }

  /** The upstream gave this answer to a question since the `since`-th. */
  ghost predicate GotSince(seen: set<Exchange>, since: nat, name: Name, qtype: u16, r: Response) {
    exists k: nat :: since <= k && Exchange(k, name, qtype, Some(r)) in seen
  }

  /** No more questions may be asked, or the upstream gave no usable answer to this one. */
  ghost predicate Unanswered(seen: set<Exchange>, since: nat, left: nat, name: Name, qtype: u16) {
    left == 0 || exists k: nat :: since <= k && Exchange(k, name, qtype, None) in seen
  }

  function DenialOf(r: Response): Denial {
    var a := r.authorities;
    Denial(OfType(a, NSEC), SigsOfType(a, NSEC), OfType(a, NSEC3), SigsOfType(a, NSEC3))
  }

  // ------------------------------------------------------------------ what a chain of trust is

  /** A zone on the chain: the answer its trusted DS set came in, that set, the answer its DNSKEY set came in, and the keys it yields. */
  datatype Link = Link(zone: Name, dsAnswer: Response, ds: seq<Anchor>, keyAnswer: Response, keys: seq<Key>)

  /** The upstream answered the question for the child's DS set with no such record, and the denial in that answer shows `a`. */
  ghost predicate Denies(c: Crypto, seen: set<Exchange>, zone: Name, keys: seq<Key>, r: Response, child: Name, t: u32, a: Absence) {
    && Got(seen, child, DS, r) && SectionRecords(r.answers, child, DS) == []
    && c.absence(zone, keys, DenialOf(r), child, t) == a
  }

  /** The upstream sent a denial that shows, under the zone's keys, that the child is a name of the same zone. */
  ghost predicate NotCut(c: Crypto, seen: set<Exchange>, zone: Name, keys: seq<Key>, child: Name, t: u32) {
    exists r :: Denies(c, seen, zone, keys, r, child, t, NotACut)
  }

  predicate Under(name: Name, zone: Name) {
    |zone| <= |name| && Dns.Suffix(name, |zone|) == zone
  }

  /** Every name from below `zone` down to, not including, `n` labels of `name` belongs to `zone`. */
  ghost predicate NoCuts(c: Crypto, seen: set<Exchange>, zone: Name, keys: seq<Key>, name: Name, n: nat, t: u32)
    requires n <= |name| + 1
  {
    forall k :: |zone| < k < n ==> NotCut(c, seen, zone, keys, Dns.Suffix(name, k), t)
  }

  /** The upstream sent a DS set of the child that the parent's keys sign. */
  ghost predicate SignedDs(c: Crypto, seen: set<Exchange>, parent: Name, keys: seq<Key>, child: Name, r: Response, t: u32) {
    && Got(seen, child, DS, r) && SectionRecords(r.answers, child, DS) != []
    && c.signed(SectionRecords(r.answers, child, DS), CoveringSigs(r.answers, child, DS), keys, parent, t)
  }

  /** The usable entries of a DS set. */
  function DsOf(c: Crypto, r: Response, child: Name): seq<Anchor> {
    Supported(c, SectionRecords(r.answers, child, DS))
  }

  /** The parent's keys sign the DS set of the next zone below, and no zone lies in between. */
  ghost predicate Delegates(c: Crypto, seen: set<Exchange>, parent: Name, keys: seq<Key>, child: Name, r: Response, ds: seq<Anchor>, t: u32) {
    && |parent| < |child| && Under(child, parent) && NoCuts(c, seen, parent, keys, child, |child|, t)
    && SignedDs(c, seen, parent, keys, child, r, t) && ds == DsOf(c, r, child) && ds != []
  }

  /** The upstream sent a DNSKEY set of the zone that the trusted DS set validates. */
  ghost predicate KeysHold(c: Crypto, seen: set<Exchange>, l: Link, t: u32) {
    && Got(seen, l.zone, DNSKEY, l.keyAnswer)
    && c.keysOf(SectionRecords(l.keyAnswer.answers, l.zone, DNSKEY), CoveringSigs(l.keyAnswer.answers, l.zone, DNSKEY), l.ds, l.zone, t) == Some(l.keys)
  }

  ghost predicate Hangs(c: Crypto, seen: set<Exchange>, p: Link, l: Link, t: u32) {
    Delegates(c, seen, p.zone, p.keys, l.zone, l.dsAnswer, l.ds, t)
  }

  /** An unbroken chain from the anchors of the root. */
  ghost predicate Anchored(c: Crypto, seen: set<Exchange>, anchors: seq<Anchor>, links: seq<Link>, t: u32) {
    && links != [] && links[0].zone == [] && links[0].ds == anchors
    && (forall i :: 0 <= i < |links| ==> KeysHold(c, seen, links[i], t))
    && (forall i :: 0 < i < |links| ==> Hangs(c, seen, links[i - 1], links[i], t))
  }

  function Last(links: seq<Link>): Link
    requires links != []
  {
    links[|links| - 1]
  }

  /** A chain ends at `apex` with `keys`, and everything from there to `name` is in that zone. */
  ghost predicate EndsAt(c: Crypto, seen: set<Exchange>, anchors: seq<Anchor>, links: seq<Link>, name: Name, keys: seq<Key>, apex: Name, t: u32) {
    && Anchored(c, seen, anchors, links, t) && Last(links).zone == apex && Last(links).keys == keys
    && Under(name, apex) && NoCuts(c, seen, apex, keys, name, |name| + 1, t)
  }

  ghost predicate SecureAt(c: Crypto, seen: set<Exchange>, anchors: seq<Anchor>, name: Name, keys: seq<Key>, apex: Name, t: u32) {
    exists links :: EndsAt(c, seen, anchors, links, name, keys, apex, t)
  }

  /**
   An answer of the upstream shows that the delegation of `child` is unsigned: by a proof, by a DS set without a usable
   entry, or, unless strict, by proving nothing.
   */
  ghost predicate Unsigned(c: Crypto, seen: set<Exchange>, strict: bool, zone: Name, keys: seq<Key>, child: Name, t: u32) {
    exists r :: UnsignedBy(c, seen, strict, zone, keys, child, r, t)
  }

  ghost predicate UnsignedBy(c: Crypto, seen: set<Exchange>, strict: bool, zone: Name, keys: seq<Key>, child: Name, r: Response, t: u32) {
    || Denies(c, seen, zone, keys, r, child, t, InsecureDelegation)
    || (!strict && Denies(c, seen, zone, keys, r, child, t, Unproven))
    || (SignedDs(c, seen, zone, keys, child, r, t) && DsOf(c, r, child) == [])
  }

  /** A chain ends above `name`, at a delegation on the way that is not signed. */
  ghost predicate CutsOff(c: Crypto, seen: set<Exchange>, strict: bool, anchors: seq<Anchor>, links: seq<Link>, name: Name, n: nat, t: u32) {
    && Anchored(c, seen, anchors, links, t) && Under(name, Last(links).zone) && |Last(links).zone| < n <= |name|
    && NoCuts(c, seen, Last(links).zone, Last(links).keys, name, n, t)
    && Unsigned(c, seen, strict, Last(links).zone, Last(links).keys, Dns.Suffix(name, n), t)
  }

  ghost predicate InsecureAt(c: Crypto, seen: set<Exchange>, strict: bool, anchors: seq<Anchor>, name: Name, t: u32) {
    exists links, n :: CutsOff(c, seen, strict, anchors, links, name, n, t)
  }

  datatype Verdict = Secure(keys: seq<Key>, apex: Name) | Insecure

  ghost predicate Holds(c: Crypto, seen: set<Exchange>, strict: bool, anchors: seq<Anchor>, name: Name, v: Verdict, t: u32) {
    match v
    case Secure(keys, apex) => SecureAt(c, seen, anchors, name, keys, apex, t)
    case Insecure => InsecureAt(c, seen, strict, anchors, name, t)
  }

  // ------------------------------------------------------------------ what was shown stays shown

  lemma NoCutsStay(c: Crypto, seen: set<Exchange>, seen': set<Exchange>, zone: Name, keys: seq<Key>, name: Name, n: nat, t: u32)
    requires seen <= seen' && n <= |name| + 1 && NoCuts(c, seen, zone, keys, name, n, t)
    ensures NoCuts(c, seen', zone, keys, name, n, t)
  {
    forall k | |zone| < k < n
      ensures NotCut(c, seen', zone, keys, Dns.Suffix(name, k), t)
    {
      assert NotCut(c, seen, zone, keys, Dns.Suffix(name, k), t);
      var r :| Denies(c, seen, zone, keys, r, Dns.Suffix(name, k), t, NotACut);
      assert Denies(c, seen', zone, keys, r, Dns.Suffix(name, k), t, NotACut);
    }
  }

  lemma DelegatesStays(c: Crypto, seen: set<Exchange>, seen': set<Exchange>, parent: Name, keys: seq<Key>, child: Name, r: Response, ds: seq<Anchor>, t: u32)
    requires seen <= seen' && Delegates(c, seen, parent, keys, child, r, ds, t)
    ensures Delegates(c, seen', parent, keys, child, r, ds, t)
  {
    hide NoCuts;
    NoCutsStay(c, seen, seen', parent, keys, child, |child|, t);
  }

  lemma AnchoredStays(c: Crypto, seen: set<Exchange>, seen': set<Exchange>, anchors: seq<Anchor>, links: seq<Link>, t: u32)
    requires seen <= seen' && Anchored(c, seen, anchors, links, t)
    ensures Anchored(c, seen', anchors, links, t)
  {
    hide Delegates;
    forall i | 0 <= i < |links|
      ensures KeysHold(c, seen', links[i], t)
    {
      assert KeysHold(c, seen, links[i], t);
    }
    forall i | 0 < i < |links|
      ensures Hangs(c, seen', links[i - 1], links[i], t)
    {
      assert Hangs(c, seen, links[i - 1], links[i], t);
      DelegatesStays(c, seen, seen', links[i - 1].zone, links[i - 1].keys, links[i].zone, links[i].dsAnswer, links[i].ds, t);
    }
  }

  lemma EndStays(c: Crypto, seen: set<Exchange>, seen': set<Exchange>, anchors: seq<Anchor>, links: seq<Link>, name: Name, keys: seq<Key>, apex: Name, t: u32)
    requires seen <= seen' && EndsAt(c, seen, anchors, links, name, keys, apex, t)
    ensures EndsAt(c, seen', anchors, links, name, keys, apex, t)
  {
    hide NoCuts, Anchored;
    AnchoredStays(c, seen, seen', anchors, links, t);
    NoCutsStay(c, seen, seen', apex, keys, name, |name| + 1, t);
  }

  lemma CutStays(c: Crypto, seen: set<Exchange>, seen': set<Exchange>, strict: bool, anchors: seq<Anchor>, links: seq<Link>, name: Name, n: nat, t: u32)
    requires seen <= seen' && CutsOff(c, seen, strict, anchors, links, name, n, t)
    ensures CutsOff(c, seen', strict, anchors, links, name, n, t)
  {
    hide NoCuts;
    AnchoredStays(c, seen, seen', anchors, links, t);
    var zone, keys, child := Last(links).zone, Last(links).keys, Dns.Suffix(name, n);
    NoCutsStay(c, seen, seen', zone, keys, name, n, t);
    var r :| UnsignedBy(c, seen, strict, zone, keys, child, r, t);
    assert UnsignedBy(c, seen', strict, zone, keys, child, r, t);
  }

  lemma HoldsStays(c: Crypto, seen: set<Exchange>, seen': set<Exchange>, strict: bool, anchors: seq<Anchor>, name: Name, v: Verdict, t: u32)
    requires seen <= seen' && Holds(c, seen, strict, anchors, name, v, t)
    ensures Holds(c, seen', strict, anchors, name, v, t)
  {
    hide EndsAt, CutsOff;
    match v
    case Secure(keys, apex) =>
      var links :| EndsAt(c, seen, anchors, links, name, keys, apex, t);
      EndStays(c, seen, seen', anchors, links, name, keys, apex, t);
    case Insecure =>
      var links, n :| CutsOff(c, seen, strict, anchors, links, name, n, t);
      CutStays(c, seen, seen', strict, anchors, links, name, n, t);
  }

  // ------------------------------------------------------------------ growing a chain

  /** The state of the walk between zones: a chain so far, and the DS set of the zone to enter next. */
  ghost predicate Entering(c: Crypto, seen: set<Exchange>, anchors: seq<Anchor>, links: seq<Link>, zone: Name, dsAnswer: Response, ds: seq<Anchor>, t: u32) {
    if links == [] then zone == [] && ds == anchors
    else Anchored(c, seen, anchors, links, t) && Delegates(c, seen, Last(links).zone, Last(links).keys, zone, dsAnswer, ds, t)
  }

  lemma EnteringStays(c: Crypto, seen: set<Exchange>, seen': set<Exchange>, anchors: seq<Anchor>, links: seq<Link>, zone: Name, dsAnswer: Response, ds: seq<Anchor>, t: u32)
    requires seen <= seen' && Entering(c, seen, anchors, links, zone, dsAnswer, ds, t)
    ensures Entering(c, seen', anchors, links, zone, dsAnswer, ds, t)
  {
    hide Anchored, Delegates;
    if links != [] {
      AnchoredStays(c, seen, seen', anchors, links, t);
      DelegatesStays(c, seen, seen', Last(links).zone, Last(links).keys, zone, dsAnswer, ds, t);
    }
  }

  lemma Entered(c: Crypto, seen: set<Exchange>, anchors: seq<Anchor>, links: seq<Link>, l: Link, t: u32)
    requires Entering(c, seen, anchors, links, l.zone, l.dsAnswer, l.ds, t) && KeysHold(c, seen, l, t)
    ensures Anchored(c, seen, anchors, links + [l], t) && Last(links + [l]) == l
  {
    hide KeysHold, Delegates;
    var all := links + [l];
    forall i | 0 < i < |all|
      ensures Hangs(c, seen, all[i - 1], all[i], t)
    {
      if i < |links| {
        assert Hangs(c, seen, links[i - 1], links[i], t);
      }
    }
  }

  lemma Descends(c: Crypto, seen: set<Exchange>, anchors: seq<Anchor>, links: seq<Link>, name: Name, n: nat, r: Response, t: u32)
    requires Anchored(c, seen, anchors, links, t) && Under(name, Last(links).zone) && |Last(links).zone| < n <= |name|
    requires NoCuts(c, seen, Last(links).zone, Last(links).keys, name, n, t)
    requires SignedDs(c, seen, Last(links).zone, Last(links).keys, Dns.Suffix(name, n), r, t) && DsOf(c, r, Dns.Suffix(name, n)) != []
    ensures Entering(c, seen, anchors, links, Dns.Suffix(name, n), r, DsOf(c, r, Dns.Suffix(name, n)), t)
    ensures Under(name, Dns.Suffix(name, n))
  {
    hide KeysHold, Hangs, NotCut, SignedDs, DsOf;
    var child, zone := Dns.Suffix(name, n), Last(links).zone;
    SuffixOfSuffix(name, n, |zone|);
    forall k | |zone| < k < n
      ensures NotCut(c, seen, zone, Last(links).keys, Dns.Suffix(child, k), t)
    {
      SuffixOfSuffix(name, n, k);
      assert NotCut(c, seen, zone, Last(links).keys, Dns.Suffix(name, k), t);
    }
  }

  lemma SuffixOfSuffix(name: Name, n: nat, k: nat)
    requires k <= n <= |name|
    ensures Dns.Suffix(Dns.Suffix(name, n), k) == Dns.Suffix(name, k)
  {
  }

  // ------------------------------------------------------------------ why a chain cannot be built

  /** An answer without DNSKEY records of the zone, or without signatures over them. */
  predicate Keyless(r: Response, zone: Name) {
    SectionRecords(r.answers, zone, DNSKEY) == [] || CoveringSigs(r.answers, zone, DNSKEY) == []
  }

  /** The DNSKEY set of the zone to enter is not to be had, or does not validate. */
  ghost predicate NoKeys(c: Crypto, seen: set<Exchange>, since: nat, left: nat, zone: Name, ds: seq<Anchor>, t: u32) {
    || Unanswered(seen, since, left, zone, DNSKEY)
    || exists r :: GotSince(seen, since, zone, DNSKEY, r) && BadKeys(c, r, zone, ds, t)
  }

  predicate BadKeys(c: Crypto, r: Response, zone: Name, ds: seq<Anchor>, t: u32) {
    Keyless(r, zone) || c.keysOf(SectionRecords(r.answers, zone, DNSKEY), CoveringSigs(r.answers, zone, DNSKEY), ds, zone, t).None?
  }

  /** The DS set of the next name is not to be had, does not validate, or its absence is not proven where that is demanded. */
  ghost predicate NoDs(c: Crypto, seen: set<Exchange>, since: nat, left: nat, strict: bool, zone: Name, keys: seq<Key>, child: Name, t: u32) {
    || Unanswered(seen, since, left, child, DS)
    || exists r :: GotSince(seen, since, child, DS, r) && BadDs(c, r, strict, zone, keys, child, t)
  }

  predicate BadDs(c: Crypto, r: Response, strict: bool, zone: Name, keys: seq<Key>, child: Name, t: u32) {
    var records := SectionRecords(r.answers, child, DS);
    if records != [] then !c.signed(records, CoveringSigs(r.answers, child, DS), keys, zone, t)
    else strict && c.absence(zone, keys, DenialOf(r), child, t) == Unproven
  }

  /** The walk got as far as entering a zone on the way to `name`, and no further. */
  ghost predicate StuckAtKeys(c: Crypto, seen: set<Exchange>, since: nat, left: nat, anchors: seq<Anchor>, name: Name,
                              links: seq<Link>, zone: Name, dsAnswer: Response, ds: seq<Anchor>, t: u32) {
    Under(name, zone) && Entering(c, seen, anchors, links, zone, dsAnswer, ds, t) && NoKeys(c, seen, since, left, zone, ds, t)
  }

  /** The walk got as far as the name of `n` labels in the last zone of a chain, and no further. */
  ghost predicate StuckAtDs(c: Crypto, seen: set<Exchange>, since: nat, left: nat, strict: bool, anchors: seq<Anchor>, name: Name,
                            links: seq<Link>, n: nat, t: u32) {
    && Anchored(c, seen, anchors, links, t) && Under(name, Last(links).zone) && |Last(links).zone| < n <= |name|
    && NoCuts(c, seen, Last(links).zone, Last(links).keys, name, n, t)
    && NoDs(c, seen, since, left, strict, Last(links).zone, Last(links).keys, Dns.Suffix(name, n), t)
  }

  /** No chain to the name: no anchors, too many labels, or a walk that got stuck. */
  ghost predicate Broken(c: Crypto, seen: set<Exchange>, since: nat, left: nat, strict: bool, anchors: seq<Anchor>, name: Name, t: u32) {
    || anchors == [] || |name| > 16
    || (exists links, zone, dsAnswer, ds :: StuckAtKeys(c, seen, since, left, anchors, name, links, zone, dsAnswer, ds, t))
    || (exists links, n :: StuckAtDs(c, seen, since, left, strict, anchors, name, links, n, t))
  }

  lemma SinceIsGot(seen: set<Exchange>, since: nat, name: Name, qtype: u16, r: Response)
    requires GotSince(seen, since, name, qtype, r)
    ensures Got(seen, name, qtype, r)
  {
  }

  lemma GotStays(seen: set<Exchange>, seen': set<Exchange>, name: Name, qtype: u16, r: Response)
    requires seen <= seen' && Got(seen, name, qtype, r)
    ensures Got(seen', name, qtype, r)
  {
  }

  lemma SinceEarlier(seen: set<Exchange>, since: nat, since': nat, left: nat, name: Name, qtype: u16)
    requires since' <= since
    ensures Unanswered(seen, since, left, name, qtype) ==> Unanswered(seen, since', left, name, qtype)
    ensures forall r :: GotSince(seen, since, name, qtype, r) ==> GotSince(seen, since', name, qtype, r)
  {
  }

  // ------------------------------------------------------------------ the layer

  datatype CachedChain = CachedChain(verdict: Verdict, expires: u32, anchors: seq<Anchor>)

  /** A remembered verdict held at some moment already past, less than an hour before it expires. */
  ghost predicate EntryHolds(c: Crypto, seen: set<Exchange>, strict: bool, clock: u32, zone: Name, e: CachedChain) {
    exists t: u32 :: t <= clock && e.expires <= t + CHAIN_CACHE_MAX_TTL && Holds(c, seen, strict, e.anchors, zone, e.verdict, t)
  }

  lemma EntryStays(c: Crypto, seen: set<Exchange>, seen': set<Exchange>, strict: bool, clock: u32, clock': u32, zone: Name, e: CachedChain)
    requires seen <= seen' && clock <= clock' && EntryHolds(c, seen, strict, clock, zone, e)
    ensures EntryHolds(c, seen', strict, clock', zone, e)
  {
    hide Holds;
    var t: u32 :| t <= clock && e.expires <= t + CHAIN_CACHE_MAX_TTL && Holds(c, seen, strict, e.anchors, zone, e.verdict, t);
    HoldsStays(c, seen, seen', strict, e.anchors, zone, e.verdict, t);
  }

  datatype Policy = Policy(strict: bool, permissive: bool, ignoreCd: bool, insecureDomains: seq<Name>, sentinel: bool)

  datatype Request = Request(questions: seq<Question>, cd: bool, ad: bool, dnssecOk: bool)

  datatype Outcome = Reply(response: Response) | Failed

  /** A moment at most an hour before `now` and not after `clock`, the latest time the layer has been given. */
  predicate Recent(t: u32, now: u32, clock: u32) {
    now <= t + CHAIN_CACHE_MAX_TTL && t <= clock
  }

  /** What the layer may say of a name: it held at a moment in the last hour, by answers of the upstream. */
  ghost predicate Backed(c: Crypto, seen: set<Exchange>, strict: bool, anchors: seq<Anchor>, name: Name, v: Verdict, now: u32, clock: u32) {
    exists t: u32 :: Recent(t, now, clock) && Holds(c, seen, strict, anchors, name, v, t)
  }

  /** The question's records validate under keys reached from the anchors, at a moment in the last hour, by a chain that ends at the signer. */
  ghost predicate Authentic(c: Crypto, seen: set<Exchange>, anchors: seq<Anchor>, r: Response, now: u32, clock: u32) {
    exists signer, keys, t: u32 :: AuthenticBy(c, seen, anchors, r, now, clock, signer, keys, t)
  }

  ghost predicate AuthenticBy(c: Crypto, seen: set<Exchange>, anchors: seq<Anchor>, r: Response, now: u32, clock: u32, signer: Name, keys: seq<Key>, t: u32) {
    && r.questions != [] && Recent(t, now, clock) && SecureAt(c, seen, anchors, signer, keys, signer, t)
    && SectionRecords(r.answers, r.questions[0].name, r.questions[0].qtype) != []
    && c.signed(SectionRecords(r.answers, r.questions[0].name, r.questions[0].qtype),
                CoveringSigs(r.answers, r.questions[0].name, r.questions[0].qtype), keys, signer, now)
  }

  /** The zone the answer claims to come from, or else the name asked for, is below an unsigned delegation. */
  ghost predicate Unprotected(c: Crypto, seen: set<Exchange>, strict: bool, anchors: seq<Anchor>, r: Response, now: u32, clock: u32) {
    && r.questions != []
    && var signer := AnswerSigner(r.answers, r.questions[0].qtype);
       Backed(c, seen, strict, anchors, if signer.Some? then signer.value else r.questions[0].name, Insecure, now, clock)
  }

  ghost predicate SecureFor(c: Crypto, seen: set<Exchange>, strict: bool, anchors: seq<Anchor>, name: Name, now: u32, clock: u32) {
    exists keys, apex :: Backed(c, seen, strict, anchors, name, Secure(keys, apex), now, clock)
  }

  /** The answer's signer is known to be the apex of no zone, or its keys do not vouch for the records asked for. */
  ghost predicate Disowned(c: Crypto, seen: set<Exchange>, strict: bool, anchors: seq<Anchor>, r: Response, signer: Name, now: u32, clock: u32)
    requires r.questions != []
  {
    exists keys, apex :: Backed(c, seen, strict, anchors, signer, Secure(keys, apex), now, clock) && Forsaken(c, r, signer, keys, apex, now)
  }

  predicate Forsaken(c: Crypto, r: Response, signer: Name, keys: seq<Key>, apex: Name, now: u32)
    requires r.questions != []
  {
    var rrset, sigs := SectionRecords(r.answers, r.questions[0].name, r.questions[0].qtype), CoveringSigs(r.answers, r.questions[0].name, r.questions[0].qtype);
    apex != signer || (rrset != [] && (sigs == [] || !c.signed(rrset, sigs, keys, signer, now)))
  }

  /**
   Why an answer fails: without answer records, a denial without a signature for a name in a signed zone; without a
   signature over the answer, a name not known to be unsigned; otherwise a signer without a chain, or one whose keys do not vouch.
   */
  ghost predicate Bogus(c: Crypto, seen: set<Exchange>, since: nat, left: nat, strict: bool, anchors: seq<Anchor>, r: Response, now: u32, clock: u32) {
    r.questions == [] ||
    var q, signer := r.questions[0], AnswerSigner(r.answers, r.questions[0].qtype);
    if r.answers == [] then OfType(r.authorities, RRSIG) == [] && SecureFor(c, seen, strict, anchors, q.name, now, clock)
    else if signer.None? then SecureFor(c, seen, strict, anchors, q.name, now, clock) || Broken(c, seen, since, left, strict, anchors, q.name, now)
    else Broken(c, seen, since, left, strict, anchors, signer.value, now) || Disowned(c, seen, strict, anchors, r, signer.value, now, clock)
  }

  /**
   Why an answer is let through unverified: without answer records, a signature in the denial or a name without a chain;
   otherwise an unsigned zone, or a signed answer in which none of the records are those asked for.
   */
  ghost predicate Unverified(c: Crypto, seen: set<Exchange>, since: nat, left: nat, strict: bool, anchors: seq<Anchor>, r: Response, now: u32, clock: u32) {
    && r.questions != []
    && var q, signer := r.questions[0], AnswerSigner(r.answers, r.questions[0].qtype);
       if r.answers == [] then
         || OfType(r.authorities, RRSIG) != []
         || Backed(c, seen, strict, anchors, q.name, Insecure, now, clock) || Broken(c, seen, since, left, strict, anchors, q.name, now)
       else
         || Unprotected(c, seen, strict, anchors, r, now, clock)
         || (signer.Some? && SectionRecords(r.answers, q.name, q.qtype) == [] && SecureFor(c, seen, strict, anchors, signer.value, now, clock))
  }

  /** Exactly what a verdict on an answer stands on. */
  ghost predicate Judged(c: Crypto, seen: set<Exchange>, since: nat, left: nat, strict: bool, anchors: seq<Anchor>, r: Response, now: u32, clock: u32, authentic: Option<bool>) {
    match authentic
    case Some(true) => r.answers != [] && Authentic(c, seen, anchors, r, now, clock)
    case Some(false) => Unverified(c, seen, since, left, strict, anchors, r, now, clock)
    case None => Bogus(c, seen, since, left, strict, anchors, r, now, clock)
  }

  /** The client asked one question and did not switch checking off, or is not heard in that. */
  predicate Handled(policy: Policy, request: Request) {
    |request.questions| == 1 && (request.cd ==> policy.ignoreCd)
  }

  /** The name ends in the labels of the zone. */
  ghost predicate Below(name: Name, zone: Name) {
    exists front: Name :: name == front + zone
  }

  /** The operator exempted a domain the name is in. */
  ghost predicate Trusting(policy: Policy, request: Request)
    requires |request.questions| == 1
  {
    exists d :: d in policy.insecureDomains && Below(request.questions[0].name, d)
  }

  lemma UnderAny(name: Name)
    ensures forall zone :: Under(name, zone) <==> Below(name, zone)
  {
    forall zone
      ensures Under(name, zone) <==> Below(name, zone)
    {
      if Under(name, zone) {
        assert name == name[..|name| - |zone|] + zone;
      }
      if Below(name, zone) {
        var front: Name :| name == front + zone;
        assert name[|front|..] == zone;
      }
    }
  }

  /** Every exchange on record took place: the upstream gave that answer when that question was put to it. */
  ghost predicate Recorded(upstream: Upstream, asked: nat, seen: set<Exchange>) {
    forall e :: e in seen ==> e.at < asked && e.response == Usable(upstream(e.at, e.name, e.qtype))
  }

  class ForwardValidateLayer {
    const crypto: Crypto
    const policy: Policy
    const upstream: Upstream
    const sentinelFails: (Question, seq<Anchor>) -> bool
    var chains: map<Name, CachedChain>
    var asked: nat
    ghost var seen: set<Exchange>
    ghost var clock: u32

    ghost predicate Valid()
      reads this
    {
      && Recorded(upstream, asked, seen)
      && forall zone :: zone in chains ==> EntryHolds(crypto, seen, policy.strict, clock, zone, chains[zone])
    }

    constructor (crypto: Crypto, policy: Policy, upstream: Upstream, sentinelFails: (Question, seq<Anchor>) -> bool)
      ensures Valid() && asked == 0 && seen == {} && clock == 0
      ensures this.crypto == crypto && this.policy == policy && this.upstream == upstream && this.sentinelFails == sentinelFails
    {
      this.crypto, this.policy, this.upstream, this.sentinelFails := crypto, policy, upstream, sentinelFails;
      chains, asked, seen, clock := map[], 0, {}, 0;
    }

    /** One question upstream, paid from the budget. */
    method Ask(name: Name, qtype: u16, budget: nat) returns (r: Option<Response>, left: nat)
      requires Valid()
      modifies this`asked, this`seen
      ensures Valid() && asked + left == old(asked) + budget && left <= budget && old(seen) <= seen
      ensures r == (if budget == 0 then None else Usable(upstream(old(asked), name, qtype)))
      ensures if budget == 0 then left == 0 && seen == old(seen) else asked == old(asked) + 1 && seen == old(seen) + {Exchange(old(asked), name, qtype, r)}
    {
      hide EntryHolds;
      if budget == 0 {
        return None, 0;
      }
      left := budget - 1;
      r := upstream(asked, name, qtype);
      if r.Some? && r.value.rcode != 0 && r.value.rcode != 3 {
        r := None;
      }
      ghost var before, k := seen, asked;
      asked := asked + 1;
      seen := seen + {Exchange(k, name, qtype, r)};
      forall zone | zone in chains
        ensures EntryHolds(crypto, seen, policy.strict, clock, zone, chains[zone])
      {
        EntryStays(crypto, before, seen, policy.strict, clock, clock, zone, chains[zone]);
      }
    }

    /** DNSKEY set of a zone with its signatures. */
    method DnskeyRrset(zone: Name, budget: nat) returns (r: Option<(seq<Rr>, seq<Sig>)>, left: nat, ghost answer: Response)
      requires Valid()
      modifies this`asked, this`seen
      ensures Valid() && asked + left == old(asked) + budget && left <= budget && old(seen) <= seen
      ensures r.None? ==> Unanswered(seen, old(asked), left, zone, DNSKEY) || (GotSince(seen, old(asked), zone, DNSKEY, answer) && Keyless(answer, zone))
      ensures r.Some? ==>
        && GotSince(seen, old(asked), zone, DNSKEY, answer)
        && r.value == (SectionRecords(answer.answers, zone, DNSKEY), CoveringSigs(answer.answers, zone, DNSKEY)) && r.value.0 != [] && r.value.1 != []
    {
      hide Valid;
      var response;
      response, left := Ask(zone, DNSKEY, budget);
      answer := if response.Some? then response.value else NoAnswer;
      if response.None? {
        return None, left, answer;
      }
      var keys, sigs := SectionRecords(response.value.answers, zone, DNSKEY), CoveringSigs(response.value.answers, zone, DNSKEY);
      if keys == [] || sigs == [] {
        return None, left, answer;
      }
      return Some((keys, sigs)), left, answer;
    }

    /** DS set of a name with its signatures, or the evidence that there is none. */
    method DelegationEvidence(child: Name, budget: nat) returns (r: Option<(seq<Rr>, seq<Sig>, Denial)>, left: nat, ghost answer: Response)
      requires Valid()
      modifies this`asked, this`seen
      ensures Valid() && asked + left == old(asked) + budget && left <= budget && old(seen) <= seen
      ensures r.None? ==> Unanswered(seen, old(asked), left, child, DS)
      ensures r.Some? ==>
        && GotSince(seen, old(asked), child, DS, answer) && r.value.0 == SectionRecords(answer.answers, child, DS)
        && (if r.value.0 != [] then r.value.1 == CoveringSigs(answer.answers, child, DS) else r.value.2 == DenialOf(answer))
    {
      hide Valid;
      var response;
      response, left := Ask(child, DS, budget);
      answer := if response.Some? then response.value else NoAnswer;
      if response.None? {
        return None, left, answer;
      }
      var records := SectionRecords(response.value.answers, child, DS);
      if records != [] {
        return Some((records, CoveringSigs(response.value.answers, child, DS), Denial([], [], [], []))), left, answer;
      }
      var a := response.value.authorities;
      return Some(([], [], Denial(OfType(a, NSEC), SigsOfType(a, NSEC), OfType(a, NSEC3), SigsOfType(a, NSEC3)))), left, answer;
    }

    /** A verdict for these anchors is remembered and has not expired. */
    predicate Fresh(zone: Name, now: u32, anchors: seq<Anchor>)
      reads this
    {
      zone in chains && chains[zone].anchors == anchors && now < chains[zone].expires
    }

    method Cached(zone: Name, now: u32, anchors: seq<Anchor>) returns (v: Option<Verdict>)
      requires Valid()
      modifies this`chains
      ensures Valid() && (v.Some? ==> Backed(crypto, seen, policy.strict, anchors, zone, v.value, now, clock))
      ensures v == if old(Fresh(zone, now, anchors)) then Some(old(chains[zone].verdict)) else None
    {
      hide Holds, Recorded;
      if zone !in chains {
        return None;
      }
      var e := chains[zone];
      if e.anchors != anchors || e.expires <= now {
        chains := chains - {zone};
        return None;
      }
      v := Some(e.verdict);
      assert EntryHolds(crypto, seen, policy.strict, clock, zone, e);
      ghost var t: u32 :| t <= clock && e.expires <= t + CHAIN_CACHE_MAX_TTL && Holds(crypto, seen, policy.strict, e.anchors, zone, e.verdict, t);
      assert Recent(t, now, clock);
    }

    method Remember(zone: Name, v: Verdict, now: u32, ttl: u32, anchors: seq<Anchor>)
      requires Valid() && now <= clock && Holds(crypto, seen, policy.strict, anchors, zone, v, now)
      modifies this`chains
      ensures Valid() && zone in chains && chains[zone].verdict == v && chains[zone].anchors == anchors
      ensures Min(now + 60, U32_MAX) <= chains[zone].expires <= now + 3600
      ensures 60 <= ttl <= 3600 ==> chains[zone].expires == Min(now + ttl, U32_MAX)
    {
      hide Holds, Recorded;
      var kept := if ttl < CHAIN_CACHE_MIN_TTL then CHAIN_CACHE_MIN_TTL else Min(ttl, CHAIN_CACHE_MAX_TTL);
      var e := CachedChain(v, Min(now + kept, U32_MAX), anchors);
      assert EntryHolds(crypto, seen, policy.strict, clock, zone, e) by {
        assert e.expires <= now + CHAIN_CACHE_MAX_TTL && Holds(crypto, seen, policy.strict, e.anchors, zone, e.verdict, now);
      }
      chains := chains[zone := e];
    }

    /** Whether the walk within one zone came to a verdict, failed, or is to enter the zone below. */
    method WalkZone(ghost anchors: seq<Anchor>, ghost links: seq<Link>, name: Name, apex: Name, keys: seq<Key>, start: nat, now: u32, budget: nat, ghost since: nat)
      returns (step: Walked, left: nat, ghost answer: Response)
      requires Valid() && since <= asked && Anchored(crypto, seen, anchors, links, now) && Last(links).zone == apex && Last(links).keys == keys
      requires Under(name, apex) && start == |apex|
      modifies this`asked, this`seen
      ensures Valid() && asked + left == old(asked) + budget && left <= budget && old(seen) <= seen
      ensures
        match step
        case Verdict(v) => Holds(crypto, seen, policy.strict, anchors, name, v, now)
        case Failure => Broken(crypto, seen, since, left, policy.strict, anchors, name, now)
        case Enter(n, ds) =>
          && start < n <= |name| && Under(name, Dns.Suffix(name, n))
          && Entering(crypto, seen, anchors, links, Dns.Suffix(name, n), answer, ds, now)
    {
      hide Valid, Anchored, Supported, Unsigned, NotCut, Denies, SignedDs, DsOf, Delegates, Entering, SectionRecords, CoveringSigs, DenialOf;
      hide Got, GotSince, Unanswered, Broken, BadDs;
      var examined := start;
      left, answer := budget, NoAnswer;
      while examined < |name|
        invariant Valid() && start <= examined <= |name| && asked + left == old(asked) + budget && left <= budget && old(seen) <= seen
        invariant Anchored(crypto, seen, anchors, links, now) && NoCuts(crypto, seen, apex, keys, name, examined + 1, now)
      {
        ghost var before, k := seen, asked;
        examined := examined + 1;
        var child := Dns.Suffix(name, examined);
        var evidence;
        evidence, left, answer := DelegationEvidence(child, left);
        AnchoredStays(crypto, before, seen, anchors, links, now);
        NoCutsStay(crypto, before, seen, apex, keys, name, examined, now);
        SinceEarlier(seen, k, since, left, child, DS);
        if evidence.None? {
          StuckOnDs(crypto, seen, since, left, policy.strict, anchors, links, name, examined, answer, now);
          return Failure, left, answer;
        }
        SinceIsGot(seen, k, child, DS, answer);
        var (dsRecords, dsSigs, denial) := evidence.value;
        if dsRecords != [] {
          if !crypto.signed(dsRecords, dsSigs, keys, apex, now) {
            DsUnsigned(crypto, answer, policy.strict, apex, keys, child, now);
            StuckOnDs(crypto, seen, since, left, policy.strict, anchors, links, name, examined, answer, now);
            return Failure, left, answer;
          }
          DsSigned(crypto, seen, apex, keys, child, answer, now);
          if Supported(crypto, dsRecords) == [] {
            Cuts(crypto, seen, policy.strict, anchors, links, name, examined, answer, now);
            return Verdict(Insecure), left, answer;
          }
          Descends(crypto, seen, anchors, links, name, examined, answer, now);
          return Enter(examined, Supported(crypto, dsRecords)), left, answer;
        }
        var a := crypto.absence(apex, keys, denial, child, now);
        Denied(crypto, seen, apex, keys, child, answer, now);
        match a {
          case InsecureDelegation =>
            Cuts(crypto, seen, policy.strict, anchors, links, name, examined, answer, now);
            return Verdict(Insecure), left, answer;
          case NotACut => NotCutBy(crypto, seen, apex, keys, answer, child, now);
          case Unproven =>
            if policy.strict {
              DsUnsigned(crypto, answer, policy.strict, apex, keys, child, now);
              StuckOnDs(crypto, seen, since, left, policy.strict, anchors, links, name, examined, answer, now);
              return Failure, left, answer;
            }
            Cuts(crypto, seen, policy.strict, anchors, links, name, examined, answer, now);
            return Verdict(Insecure), left, answer;
        }
      }
      assert EndsAt(crypto, seen, anchors, links, name, keys, apex, now);
      return Verdict(Secure(keys, apex)), left, answer;
    }

    /** The layer has been told the time; what it remembers is not touched. */
    ghost method Tick(now: u32)
      requires Valid()
      modifies this`clock
      ensures Valid() && clock == Max(old(clock), now)
    {
      hide EntryHolds;
      var before := clock;
      clock := Max(clock, now);
      forall zone | zone in chains
        ensures EntryHolds(crypto, seen, policy.strict, clock, zone, chains[zone])
      {
        EntryStays(crypto, seen, seen, policy.strict, before, clock, zone, chains[zone]);
      }
    }

    /** From the root to the zone that holds `name`; nothing when the chain cannot be built. */
    method ChainTo(anchors: seq<Anchor>, name: Name, now: u32, budget: nat) returns (verdict: Option<Verdict>, left: nat)
      requires Valid()
      modifies this`asked, this`chains, this`seen, this`clock
      ensures Valid() && asked + left == old(asked) + budget && left <= budget && old(seen) <= seen && clock == Max(old(clock), now)
      ensures verdict.Some? ==> Backed(crypto, seen, policy.strict, anchors, name, verdict.value, now, clock)
      ensures verdict.None? ==> Broken(crypto, seen, old(asked), left, policy.strict, anchors, name, now)
      ensures old(Fresh(name, now, anchors)) && anchors != [] ==> verdict == Some(old(chains[name].verdict)) && asked == old(asked)
      ensures verdict.Some? && !old(Fresh(name, now, anchors)) ==>
        name in chains && chains[name].verdict == verdict.value && chains[name].anchors == anchors && chains[name].expires >= Min(now + 60, U32_MAX)
    {
      hide Valid, Holds, Anchored, Entering, KeysHold, Backed, NoKeys;
      hide Got, GotSince, Unanswered;
      left := budget;
      Tick(now);
      if anchors == [] {
        return None, left;
      }
      verdict := Cached(name, now, anchors);
      if verdict.Some? {
        return;
      }
      if |name| > MAX_CHAIN_DEPTH {
        return None, left;
      }
      var trusted, apex, examined, ttl := anchors, [], 0, U32_MAX;
      ghost var links: seq<Link>, dsAnswer := [], NoAnswer;
      AtRoot(crypto, seen, anchors, name, now);
      while true
        invariant Valid() && asked + left == old(asked) + budget && left <= budget && old(seen) <= seen && clock == Max(old(clock), now)
        invariant old(asked) <= asked && !old(Fresh(name, now, anchors))
        invariant examined == |apex| && Under(name, apex) && Entering(crypto, seen, anchors, links, apex, dsAnswer, trusted, now)
        decreases |name| - examined
      {
        ghost var before := seen;
        var fetched;
        ghost var keyAnswer;
        ghost var k := asked;
        fetched, left, keyAnswer := DnskeyRrset(apex, left);
        EnteringStays(crypto, before, seen, anchors, links, apex, dsAnswer, trusted, now);
        SinceEarlier(seen, k, old(asked), left, apex, DNSKEY);
        if fetched.None? {
          StuckOnKeys(crypto, seen, old(asked), left, policy.strict, anchors, name, links, apex, dsAnswer, trusted, keyAnswer, now);
          return None, left;
        }
        SinceIsGot(seen, k, apex, DNSKEY, keyAnswer);
        var (dnskeys, sigs) := fetched.value;
        ttl := LeastTtl(dnskeys, ttl);
        var keys := crypto.keysOf(dnskeys, sigs, trusted, apex, now);
        if keys.None? {
          StuckOnKeys(crypto, seen, old(asked), left, policy.strict, anchors, name, links, apex, dsAnswer, trusted, keyAnswer, now);
          return None, left;
        }
        ghost var link := Link(apex, dsAnswer, trusted, keyAnswer, keys.value);
        KeysAre(crypto, seen, link, now);
        Entered(crypto, seen, anchors, links, link, now);
        links := links + [link];
        var step;
        step, left, dsAnswer := WalkZone(anchors, links, name, apex, keys.value, examined, now, left, old(asked));
        match step {
          case Failure => return None, left;
          case Verdict(v) =>
            Remember(name, v, now, if ttl == U32_MAX then CHAIN_CACHE_MIN_TTL else ttl, anchors);
            BackedNow(crypto, seen, policy.strict, anchors, name, v, now, clock);
            return Some(v), left;
          case Enter(n, ds) => trusted, apex, examined := ds, Dns.Suffix(name, n), n;
        }
      }
    }

    /** True when the answer's signature was verified, false when there is nothing to verify, nothing when verification failed. */
    method VerdictFor(anchors: seq<Anchor>, r: Response, now: u32, budget: nat) returns (authentic: Option<bool>, left: nat)
      requires Valid()
      modifies this`asked, this`chains, this`seen, this`clock
      ensures Valid() && asked + left == old(asked) + budget && left <= budget && old(seen) <= seen && old(clock) <= clock <= Max(old(clock), now)
      ensures Judged(crypto, seen, old(asked), left, policy.strict, anchors, r, now, clock, authentic)
      ensures r.questions != [] && r.answers == [] && OfType(r.authorities, RRSIG) != [] ==> authentic == Some(false)
    {
      hide Valid, SecureAt, InsecureAt, Broken, OfType;
      left := budget;
      if r.questions == [] {
        return None, left;
      }
      var q := r.questions[0];
      var verdict;
      if r.answers == [] {
        verdict, left := ChainTo(anchors, q.name, now, left);
        var stripped := verdict.Some? && verdict.value.Secure? && OfType(r.authorities, RRSIG) == [];
        return if stripped then None else Some(false), left;
      }
      var signer := AnswerSigner(r.answers, q.qtype);
      if signer.None? {
        verdict, left := ChainTo(anchors, q.name, now, left);
        return if verdict == Some(Insecure) then Some(false) else None, left;
      }
      verdict, left := ChainTo(anchors, signer.value, now, left);
      if verdict.None? {
        return None, left;
      }
      if verdict.value.Insecure? {
        return Some(false), left;
      }
      if verdict.value.apex != signer.value {
        return None, left;
      }
      var rrset, sigs := SectionRecords(r.answers, q.name, q.qtype), CoveringSigs(r.answers, q.name, q.qtype);
      if rrset == [] {
        return Some(false), left;
      }
      if sigs == [] || !crypto.signed(rrset, sigs, verdict.value.keys, signer.value, now) {
        return None, left;
      }
      ghost var t: u32 :| Recent(t, now, clock) && Holds(crypto, seen, policy.strict, anchors, signer.value, verdict.value, t);
      assert AuthenticBy(crypto, seen, anchors, r, now, clock, signer.value, verdict.value.keys, t);
      return Some(true), left;
    }

    /** Whether the client asked not to have anything checked, or asked what this layer does not handle. */
    predicate PassesThrough(request: Request) {
      (request.cd && !policy.ignoreCd) || |request.questions| != 1
    }

    predicate Exempt(request: Request) {
      |request.questions| > 0 && exists d :: d in policy.insecureDomains && Under(request.questions[0].name, d)
    }

    /** What goes out after a verdict: the answer, with AD for a verified one if the client wants it; an empty server failure when a root key sentinel says so; nothing for a failed one unless the policy permits. */
    function Decided(request: Request, anchors: seq<Anchor>, r: Response, verdict: Option<bool>): Outcome
      requires |request.questions| == 1
    {
      match verdict
      case Some(true) =>
        if policy.sentinel && sentinelFails(request.questions[0], anchors) then Reply(Response(2, r.questions, [], [], false))
        else Reply(r.(ad := request.ad || request.dnssecOk))
      case Some(false) => Reply(r.(ad := false))
      case None => if policy.permissive then Reply(r.(ad := false)) else Failed
    }

    /**
     Judges the upstream's answer, `answer`, to a request. At most 24 more questions are asked. The AD bit is set only
     on an authentic answer; an answer that is present and not authentic goes out only if nothing protects it, if its
     domain is exempt, or if the policy lets failures through.
     */
    method ResolveOutcome(anchors: seq<Anchor>, request: Request, answer: Option<Response>, now: u32)
      returns (outcome: Outcome, ghost left: nat, ghost verdict: Option<bool>)
      requires Valid()
      modifies this`asked, this`chains, this`seen, this`clock
      ensures Valid() && asked <= old(asked) + MAX_CHAIN_QUERIES && old(seen) <= seen && old(clock) <= clock <= Max(old(clock), now)
      ensures answer.None? ==> outcome == Failed
      ensures answer.Some? && !Handled(policy, request) ==> outcome == Reply(answer.value) && asked == old(asked)
      ensures answer.Some? && Handled(policy, request) && (answer.value.rcode !in {0, 3} || Trusting(policy, request)) ==>
        outcome == Reply(answer.value.(ad := false)) && asked == old(asked)
      ensures answer.Some? && Handled(policy, request) && answer.value.rcode in {0, 3} && !Trusting(policy, request) ==>
        && Judged(crypto, seen, old(asked), left, policy.strict, anchors, answer.value, now, clock, verdict)
        && outcome == Decided(request, anchors, answer.value, verdict)
      ensures Handled(policy, request) && outcome.Reply? && outcome.response.ad ==>
        && (request.ad || request.dnssecOk) && answer.Some? && outcome.response == answer.value.(ad := true)
        && Authentic(crypto, seen, anchors, answer.value, now, clock)
      ensures Handled(policy, request) && outcome.Reply? && outcome.response.rcode in {0, 3} && !policy.permissive && !Trusting(policy, request)
              && answer.value.questions != [] && SectionRecords(answer.value.answers, answer.value.questions[0].name, answer.value.questions[0].qtype) != [] ==>
        Authentic(crypto, seen, anchors, answer.value, now, clock) || Unprotected(crypto, seen, policy.strict, anchors, answer.value, now, clock)
    {
      hide Valid, Authentic, Unprotected, Bogus, SecureFor, Under;
      if |request.questions| == 1 {
        UnderAny(request.questions[0].name);
      }
      left, verdict := MAX_CHAIN_QUERIES, None;
      if answer.None? {
        return Failed, left, verdict;
      }
      if PassesThrough(request) {
        return Reply(answer.value), left, verdict;
      }
      var r := answer.value;
      if (r.rcode != 0 && r.rcode != 3) || Exempt(request) {
        return Reply(r.(ad := false)), left, verdict;
      }
      var authentic, rest := VerdictFor(anchors, r, now, MAX_CHAIN_QUERIES);
      left, verdict := rest, authentic;
      if authentic == Some(true) && policy.sentinel && sentinelFails(request.questions[0], anchors) {
        return Reply(r.(rcode := 2, answers := [], authorities := [], ad := false)), left, verdict;
      }
      if authentic.Some? {
        return Reply(r.(ad := authentic.value && (request.ad || request.dnssecOk))), left, verdict;
      }
      return if policy.permissive then Reply(r.(ad := false)) else Failed, left, verdict;
    }
  }

  datatype Walked = Verdict(v: Verdict) | Failure | Enter(n: nat, ds: seq<Anchor>)

  const NoAnswer := Response(2, [], [], [], false)

  lemma AtRoot(c: Crypto, seen: set<Exchange>, anchors: seq<Anchor>, name: Name, t: u32)
    ensures Entering(c, seen, anchors, [], [], NoAnswer, anchors, t) && Under(name, [])
  {
  }

  lemma KeysAre(c: Crypto, seen: set<Exchange>, l: Link, t: u32)
    requires Got(seen, l.zone, DNSKEY, l.keyAnswer)
    requires c.keysOf(SectionRecords(l.keyAnswer.answers, l.zone, DNSKEY), CoveringSigs(l.keyAnswer.answers, l.zone, DNSKEY), l.ds, l.zone, t) == Some(l.keys)
    ensures KeysHold(c, seen, l, t)
  {
  }

  lemma DsSigned(c: Crypto, seen: set<Exchange>, zone: Name, keys: seq<Key>, child: Name, r: Response, t: u32)
    requires Got(seen, child, DS, r) && SectionRecords(r.answers, child, DS) != []
    requires c.signed(SectionRecords(r.answers, child, DS), CoveringSigs(r.answers, child, DS), keys, zone, t)
    ensures SignedDs(c, seen, zone, keys, child, r, t) && DsOf(c, r, child) == Supported(c, SectionRecords(r.answers, child, DS))
  {
  }

  lemma Denied(c: Crypto, seen: set<Exchange>, zone: Name, keys: seq<Key>, child: Name, r: Response, t: u32)
    requires Got(seen, child, DS, r) && SectionRecords(r.answers, child, DS) == []
    ensures Denies(c, seen, zone, keys, r, child, t, c.absence(zone, keys, DenialOf(r), child, t))
  {
  }

  lemma DsUnsigned(c: Crypto, r: Response, strict: bool, zone: Name, keys: seq<Key>, child: Name, t: u32)
    requires
      var records := SectionRecords(r.answers, child, DS);
      if records != [] then !c.signed(records, CoveringSigs(r.answers, child, DS), keys, zone, t)
      else strict && c.absence(zone, keys, DenialOf(r), child, t) == Unproven
    ensures BadDs(c, r, strict, zone, keys, child, t)
  {
  }

  lemma StuckOnDs(c: Crypto, seen: set<Exchange>, since: nat, left: nat, strict: bool, anchors: seq<Anchor>, links: seq<Link>, name: Name, n: nat, r: Response, t: u32)
    requires Anchored(c, seen, anchors, links, t) && Under(name, Last(links).zone) && |Last(links).zone| < n <= |name|
    requires NoCuts(c, seen, Last(links).zone, Last(links).keys, name, n, t)
    requires Unanswered(seen, since, left, Dns.Suffix(name, n), DS)
          || (GotSince(seen, since, Dns.Suffix(name, n), DS, r) && BadDs(c, r, strict, Last(links).zone, Last(links).keys, Dns.Suffix(name, n), t))
    ensures Broken(c, seen, since, left, strict, anchors, name, t)
  {
    hide Anchored, NoCuts, Unanswered, GotSince, BadDs;
    assert StuckAtDs(c, seen, since, left, strict, anchors, name, links, n, t);
  }

  lemma StuckOnKeys(c: Crypto, seen: set<Exchange>, since: nat, left: nat, strict: bool, anchors: seq<Anchor>, name: Name,
                    links: seq<Link>, zone: Name, dsAnswer: Response, ds: seq<Anchor>, r: Response, t: u32)
    requires Under(name, zone) && Entering(c, seen, anchors, links, zone, dsAnswer, ds, t)
    requires Unanswered(seen, since, left, zone, DNSKEY) || (GotSince(seen, since, zone, DNSKEY, r) && BadKeys(c, r, zone, ds, t))
    ensures Broken(c, seen, since, left, strict, anchors, name, t)
  {
    hide Entering, Unanswered, GotSince, BadKeys;
    assert StuckAtKeys(c, seen, since, left, anchors, name, links, zone, dsAnswer, ds, t);
  }

  lemma NotCutBy(c: Crypto, seen: set<Exchange>, zone: Name, keys: seq<Key>, r: Response, child: Name, t: u32)
    requires Denies(c, seen, zone, keys, r, child, t, NotACut)
    ensures NotCut(c, seen, zone, keys, child, t)
  {
  }

  lemma BackedNow(c: Crypto, seen: set<Exchange>, strict: bool, anchors: seq<Anchor>, name: Name, v: Verdict, now: u32, clock: u32)
    requires Holds(c, seen, strict, anchors, name, v, now) && now <= clock
    ensures Backed(c, seen, strict, anchors, name, v, now, clock)
  {
    hide Holds;
    assert Recent(now, now, clock);
  }

  lemma Cuts(c: Crypto, seen: set<Exchange>, strict: bool, anchors: seq<Anchor>, links: seq<Link>, name: Name, n: nat, r: Response, t: u32)
    requires Anchored(c, seen, anchors, links, t) && Under(name, Last(links).zone) && |Last(links).zone| < n <= |name|
    requires NoCuts(c, seen, Last(links).zone, Last(links).keys, name, n, t)
    requires UnsignedBy(c, seen, strict, Last(links).zone, Last(links).keys, Dns.Suffix(name, n), r, t)
    ensures InsecureAt(c, seen, strict, anchors, name, t)
  {
    hide UnsignedBy, Anchored, NoCuts;
    assert CutsOff(c, seen, strict, anchors, links, name, n, t);
  }
}
