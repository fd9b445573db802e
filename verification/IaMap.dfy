/**
 The DHCPv6 binding store: a finite map from (DUID, IAID) to an address and an expiry,
 kept as a primary map holding one association per DUID and a second map through which the
 remaining associations of that DUID are threaded as a doubly linked list of IAIDs.
 */
module IaStore {
  import opened Basics

  const MAX_DUID_LEN := 130
  const SECONDARY_IA_KEY_LEN := 1 + MAX_DUID_LEN + 4

  /** The four IAID bytes, read as one big-endian word. */
  type Iaid = u32

  /** A key of the plain map the store stands for. */
  type IaKey = (Bytes, Iaid)

  /** What the store records for one identity association. */
  datatype Binding = Binding(ip: u128, expiry: u64)

  /** `link` is the list head (primary) or the next IAID (additional); the own IAID ends the list. */
  datatype IaValue = IaValue(ip: u128, expiry: u64, iaid: Iaid, link: Iaid) {
    function Bound(): Binding {
      Binding(ip, expiry)
    }
  }

  /** `previous` is the preceding additional IAID; the own IAID marks the list head. */
  datatype AdditionalIaValue = AdditionalIaValue(value: IaValue, previous: Iaid)

  function NewValue(ip: u128, expiry: u64, iaid: Iaid): IaValue {
    IaValue(ip, expiry, iaid, iaid)
  }

  predicate Storable(duid: Bytes) {
    0 < |duid| <= MAX_DUID_LEN
  }

  // ------------------------------------------------------------------ secondary keys

  /** Length byte, DUID padded to its maximum, IAID: a fixed-length key. */
  function PackKey(duid: Bytes, iaid: Iaid): (key: Bytes)
    requires Storable(duid)
    ensures |key| == SECONDARY_IA_KEY_LEN
  {
    [|duid|] + duid + Zeros(MAX_DUID_LEN - |duid|) + ToBe32(iaid)
  }

  function SecondaryKey(duid: Bytes, iaid: Iaid): Option<Bytes> {
    if Storable(duid) then Some(PackKey(duid, iaid)) else None
  }

  function SplitKey(key: Bytes): Option<IaKey> {
    if |key| != SECONDARY_IA_KEY_LEN || key[0] == 0 || key[0] > MAX_DUID_LEN then None
    else Some((key[1..1 + key[0]], FromBe32(key[1 + MAX_DUID_LEN..])))
  }

  /** Splitting undoes packing, so distinct associations never share a key. */
  lemma SplitPack(duid: Bytes, iaid: Iaid)
    requires Storable(duid)
    ensures SplitKey(PackKey(duid, iaid)) == Some((duid, iaid))
  {
    var key := PackKey(duid, iaid);
    assert key[1..1 + |duid|] == duid;
    assert key[1 + MAX_DUID_LEN..] == ToBe32(iaid);
  }

  // ------------------------------------------------------------------ representation

  type Primary = map<Bytes, IaValue>
  type Additional = map<Bytes, AdditionalIaValue>
  /** The second map with its packed keys read back as (DUID, IAID). */
  type Slots = map<IaKey, AdditionalIaValue>
  /** For each DUID, the IAIDs of its additional associations in list order. */
  type Chains = map<Bytes, seq<Iaid>>

  /** `key` is the packed form of an association in `s`. */
  ghost predicate UnpacksTo(key: Bytes, s: Slots) {
    && SplitKey(key).Some?
    && SplitKey(key).value in s
    && SecondaryKey(SplitKey(key).value.0, SplitKey(key).value.1) == Some(key)
  }

  ghost predicate PackedEntry(a: Additional, s: Slots, d: Bytes, i: Iaid)
    requires (d, i) in s
  {
    Storable(d) && PackKey(d, i) in a && a[PackKey(d, i)] == s[(d, i)]
  }

  /** `s` is the second map `a` under its unpacked keys. */
  ghost predicate Packed(a: Additional, s: Slots) {
    && (forall d: Bytes, i: Iaid {:trigger PackedEntry(a, s, d, i)} :: (d, i) in s ==> PackedEntry(a, s, d, i))
    && (forall key {:trigger UnpacksTo(key, s)} :: key in a ==> UnpacksTo(key, s))
  }

  /** Looking a packed key up is looking the association up. */
  lemma PackedAt(a: Additional, s: Slots, d: Bytes, i: Iaid)
    requires Packed(a, s) && Storable(d)
    ensures PackKey(d, i) in a <==> (d, i) in s
    ensures (d, i) in s ==> a[PackKey(d, i)] == s[(d, i)]
  {
    SplitPack(d, i);
    if (d, i) in s {
      assert PackedEntry(a, s, d, i);
    }
    if PackKey(d, i) in a {
      assert UnpacksTo(PackKey(d, i), s);
    }
  }

  lemma PackedUpdate(a: Additional, s: Slots, d: Bytes, i: Iaid, v: AdditionalIaValue)
    requires Packed(a, s) && Storable(d)
    ensures Packed(a[PackKey(d, i) := v], s[(d, i) := v])
  {
    var packed := PackKey(d, i);
    var a', s' := a[packed := v], s[(d, i) := v];
    SplitPack(d, i);
    forall x: Bytes, y: Iaid | (x, y) in s'
      ensures PackedEntry(a', s', x, y)
    {
      if (x, y) != (d, i) {
        assert PackedEntry(a, s, x, y);
        SplitPack(x, y);
      }
    }
    forall key | key in a'
      ensures UnpacksTo(key, s')
    {
      assert key != packed ==> UnpacksTo(key, s);
    }
  }

  lemma PackedRemove(a: Additional, s: Slots, d: Bytes, i: Iaid)
    requires Packed(a, s) && Storable(d)
    ensures Packed(a - {PackKey(d, i)}, s - {(d, i)})
  {
    var packed := PackKey(d, i);
    var a', s' := a - {packed}, s - {(d, i)};
    SplitPack(d, i);
    forall x: Bytes, y: Iaid | (x, y) in s'
      ensures PackedEntry(a', s', x, y)
    {
      assert PackedEntry(a, s, x, y);
      SplitPack(x, y);
    }
    forall key | key in a'
      ensures UnpacksTo(key, s')
    {
      assert UnpacksTo(key, s);
    }
  }

  /** The entry of `c[j]` is present and its two links name its neighbours. */
  ghost predicate NodeLinked(s: Slots, d: Bytes, c: seq<Iaid>, j: nat)
    requires j < |c|
  {
    && (d, c[j]) in s
    && s[(d, c[j])].value.iaid == c[j]
    && s[(d, c[j])].value.link == After(c, j)
    && s[(d, c[j])].previous == (if j == 0 then c[0] else c[j - 1])
  }

  ghost predicate ChainLinked(v: IaValue, s: Slots, d: Bytes, c: seq<Iaid>) {
    && Distinct(c)
    && v.iaid !in c
    && v.link == (if c == [] then v.iaid else c[0])
    && forall j :: 0 <= j < |c| ==> NodeLinked(s, d, c, j)
  }

  /** Every DUID's primary entry heads a correctly threaded list, and no entry is off its list. */
  ghost predicate WellFormed(p: Primary, s: Slots, chains: Chains) {
    && chains.Keys == p.Keys
    && (forall d :: d in p ==> Storable(d) && ChainLinked(p[d], s, d, chains[d]))
    && (forall q :: q in s ==> q.0 in chains && q.1 in chains[q.0])
  }

  /** `c` without its entry at `j`. */
  function Without(c: seq<Iaid>, j: nat): seq<Iaid>
    requires j < |c|
  {
    c[..j] + c[j + 1..]
  }

  /** Neighbour of `c[j]` towards the head, as the deletion loops track it. */
  function Before(c: seq<Iaid>, j: nat): Option<Iaid>
    requires j < |c|
  {
    if j == 0 then None else Some(c[j - 1])
  }

  /** Neighbour of `c[j]` towards the end; itself when it is the last. */
  function After(c: seq<Iaid>, j: nat): Iaid
    requires j < |c|
  {
    if j + 1 < |c| then c[j + 1] else c[j]
  }

  // ------------------------------------------------------------------ abstraction

  function Heads(p: Primary): set<IaKey> {
    set d | d in p :: (d, p[d].iaid)
  }

  function Domain(p: Primary, s: Slots): set<IaKey> {
    Heads(p) + s.Keys
  }

  /** The plain map the linked maps stand for. */
  function Abs(p: Primary, s: Slots): map<IaKey, Binding> {
    map q | q in Domain(p, s) :: if q in s then s[q].value.Bound() else p[q.0].Bound()
  }

  lemma AbsHas(p: Primary, s: Slots, q: IaKey)
    ensures q in Abs(p, s) <==> q in s || (q.0 in p && p[q.0].iaid == q.1)
  {
    if q.0 in p && p[q.0].iaid == q.1 {
      assert q == (q.0, p[q.0].iaid);
    }
  }

  // ------------------------------------------------------------------ one-DUID steps

  /** Two stores agree on everything that concerns DUIDs other than `d`. */
  ghost predicate SameElsewhere(p: Primary, s: Slots, chains: Chains,
                                p': Primary, s': Slots, chains': Chains, d: Bytes) {
    && (forall x :: x != d ==> (x in p <==> x in p') && (x in chains <==> x in chains'))
    && (forall x :: x != d && x in p ==> p[x] == p'[x])
    && (forall x :: x != d && x in chains ==> x in chains' && chains[x] == chains'[x])
    && (forall q: IaKey :: q.0 != d ==> (q in s <==> q in s'))
    && (forall q: IaKey :: q.0 != d && q in s ==> q in s' && s[q] == s'[q])
  }

  /** `d` itself is absent or properly threaded, and its entries are exactly its list. */
  ghost predicate ThreadedAt(p: Primary, s: Slots, chains: Chains, d: Bytes) {
    && (d in p <==> d in chains)
    && (d in p ==> Storable(d) && ChainLinked(p[d], s, d, chains[d]))
    && (forall i :: (d, i) in s ==> d in chains && i in chains[d])
  }

  /** A step on one DUID keeps the whole store well formed. */
  lemma LocalStep(p: Primary, s: Slots, chains: Chains,
                  p': Primary, s': Slots, chains': Chains, d: Bytes)
    requires WellFormed(p, s, chains)
    requires SameElsewhere(p, s, chains, p', s', chains', d)
    requires ThreadedAt(p', s', chains', d)
    ensures WellFormed(p', s', chains')
  {
    forall x | x in p' && x != d
      ensures Storable(x) && ChainLinked(p'[x], s', x, chains'[x])
    {
      forall j | 0 <= j < |chains[x]|
        ensures NodeLinked(s', x, chains[x], j)
      {
        assert NodeLinked(s, x, chains[x], j);
        assert (x, chains[x][j]).0 != d;
      }
    }
    forall q | q in s'
      ensures q.0 in chains' && q.1 in chains'[q.0]
    {
      if q.0 == d {
        assert q == (d, q.1);
      }
    }
  }

  /** The list of `d` with the new association `v` threaded in front. */
  function Pushed(s: Slots, d: Bytes, c: seq<Iaid>, v: IaValue): Slots
    requires c != [] ==> (d, c[0]) in s
  {
    if c == [] then
      s[(d, v.iaid) := AdditionalIaValue(v.(link := v.iaid), v.iaid)]
    else
      s[(d, c[0]) := s[(d, c[0])].(previous := v.iaid)]
       [(d, v.iaid) := AdditionalIaValue(v.(link := c[0]), v.iaid)]
  }

  lemma PushedLinks(u: IaValue, s: Slots, d: Bytes, c: seq<Iaid>, v: IaValue)
    requires ChainLinked(u, s, d, c)
    requires v.iaid != u.iaid && v.iaid !in c
    requires c != [] ==> (d, c[0]) in s
    ensures ChainLinked(u.(link := v.iaid), Pushed(s, d, c, v), d, [v.iaid] + c)
  {
    var c' := [v.iaid] + c;
    forall j | 0 <= j < |c'|
      ensures NodeLinked(Pushed(s, d, c, v), d, c', j)
    {
      if j > 0 {
        assert c'[j] == c[j - 1];
        assert NodeLinked(s, d, c, j - 1);
      }
    }
  }

  lemma PushKeeps(p: Primary, s: Slots, chains: Chains, d: Bytes, v: IaValue)
    requires WellFormed(p, s, chains) && d in p
    requires p[d].iaid != v.iaid && (d, v.iaid) !in s
    requires chains[d] != [] ==> (d, chains[d][0]) in s
    ensures WellFormed(p[d := p[d].(link := v.iaid)], Pushed(s, d, chains[d], v), chains[d := [v.iaid] + chains[d]])
  {
    var c := chains[d];
    var p', s', chains' := p[d := p[d].(link := v.iaid)], Pushed(s, d, c, v), chains[d := [v.iaid] + c];
    forall j | 0 <= j < |c|
      ensures c[j] != v.iaid
    {
      assert NodeLinked(s, d, c, j);
    }
    PushedLinks(p[d], s, d, c, v);
    LocalStep(p, s, chains, p', s', chains', d);
  }

  /** The list of `d` with `current` cut out between its neighbours. */
  function Unlinked(s: Slots, d: Bytes, current: Iaid, previous: Option<Iaid>, next: Iaid): Slots
    requires previous.Some? ==> (d, previous.value) in s && previous.value != current
    requires next != current ==> (d, next) in s
  {
    var s1 := s - {(d, current)};
    var s2 := if previous.None? then s1 else
      var k := (d, previous.value);
      s1[k := s1[k].(value := s1[k].value.(link := if next != current then next else previous.value))];
    if next == current then s2 else
      s2[(d, next) := s2[(d, next)].(previous := if previous.Some? then previous.value else next)]
  }

  /** What the deletion loops rely on when they cut `c[j]` out. */
  lemma Neighbours(u: IaValue, s: Slots, d: Bytes, c: seq<Iaid>, j: nat)
    requires ChainLinked(u, s, d, c) && j < |c|
    ensures (d, c[j]) in s && s[(d, c[j])].value.iaid == c[j] && s[(d, c[j])].value.link == After(c, j)
    ensures s[(d, c[j])].previous == (if j == 0 then c[j] else c[j - 1])
    ensures After(c, j) != c[j] <==> j + 1 < |c|
    ensures j > 0 ==> (d, c[j - 1]) in s && c[j - 1] != c[j]
    ensures j + 1 < |c| ==> (d, c[j + 1]) in s && c[j + 1] != c[j]
  {
    assert NodeLinked(s, d, c, j);
    assert j > 0 ==> NodeLinked(s, d, c, j - 1);
    assert j + 1 < |c| ==> NodeLinked(s, d, c, j + 1);
  }

  ghost predicate CanUnlink(s: Slots, d: Bytes, c: seq<Iaid>, j: nat) {
    && j < |c|
    && (j > 0 ==> (d, c[j - 1]) in s && c[j - 1] != c[j])
    && (After(c, j) != c[j] ==> (d, After(c, j)) in s)
  }

  lemma UnlinkedNode(u: IaValue, s: Slots, d: Bytes, c: seq<Iaid>, j: nat, m: nat)
    requires CanUnlink(s, d, c, j) && ChainLinked(u, s, d, c)
    requires m < |c| - 1
    ensures NodeLinked(Unlinked(s, d, c[j], Before(c, j), After(c, j)), d, Without(c, j), m)
  {
    var m' := if m < j then m else m + 1;
    assert Without(c, j)[m] == c[m'];
    assert NodeLinked(s, d, c, m');
    assert NodeLinked(s, d, c, j);
  }

  lemma UnlinkedLinks(u: IaValue, s: Slots, d: Bytes, c: seq<Iaid>, j: nat, u': IaValue)
    requires CanUnlink(s, d, c, j) && ChainLinked(u, s, d, c)
    requires u' == if j > 0 then u else u.(link := if After(c, 0) != c[0] then After(c, 0) else u.iaid)
    ensures ChainLinked(u', Unlinked(s, d, c[j], Before(c, j), After(c, j)), d, Without(c, j))
  {
    forall m | 0 <= m < |Without(c, j)|
      ensures NodeLinked(Unlinked(s, d, c[j], Before(c, j), After(c, j)), d, Without(c, j), m)
    {
      UnlinkedNode(u, s, d, c, j, m);
    }
  }

  /** The primary entry after `c[j]` left its list. */
  function Relinked(u: IaValue, c: seq<Iaid>, j: nat): IaValue
    requires j < |c|
  {
    if j > 0 then u else u.(link := if After(c, 0) != c[0] then After(c, 0) else u.iaid)
  }

  lemma UnlinkedStay(s: Slots, d: Bytes, c: seq<Iaid>, j: nat, i: Iaid)
    requires CanUnlink(s, d, c, j)
    requires (d, i) in Unlinked(s, d, c[j], Before(c, j), After(c, j)) && i in c
    ensures i in Without(c, j)
  {
    var m :| 0 <= m < |c| && c[m] == i;
    assert m != j;
    assert Without(c, j)[if m < j then m else m - 1] == i;
  }

  /** Cutting one entry out of its list keeps the store well formed. */
  lemma UnlinkKeeps(p: Primary, s: Slots, chains: Chains, d: Bytes, j: nat)
    requires WellFormed(p, s, chains) && d in p && CanUnlink(s, d, chains[d], j)
    ensures WellFormed(p[d := Relinked(p[d], chains[d], j)],
                       Unlinked(s, d, chains[d][j], Before(chains[d], j), After(chains[d], j)),
                       chains[d := Without(chains[d], j)])
  {
    var c := chains[d];
    var p' := p[d := Relinked(p[d], c, j)];
    var s', chains' := Unlinked(s, d, c[j], Before(c, j), After(c, j)), chains[d := Without(c, j)];
    UnlinkedLinks(p[d], s, d, c, j, p'[d]);
    forall i | (d, i) in s'
      ensures i in Without(c, j)
    {
      UnlinkedStay(s, d, c, j, i);
    }
    LocalStep(p, s, chains, p', s', chains', d);
  }

  /** The list of `d` after its head moved to the primary map. */
  function Promoted(s: Slots, d: Bytes, c: seq<Iaid>): Slots
    requires c != [] && (|c| > 1 ==> (d, c[1]) in s && c[1] != c[0])
  {
    var s1 := s - {(d, c[0])};
    if |c| == 1 then s1 else s1[(d, c[1]) := s1[(d, c[1])].(previous := s1[(d, c[1])].value.iaid)]
  }

  lemma PromotedLinks(u: IaValue, s: Slots, d: Bytes, c: seq<Iaid>)
    requires ChainLinked(u, s, d, c) && c != [] && (d, c[0]) in s
    requires |c| > 1 ==> (d, c[1]) in s && c[1] != c[0]
    ensures ChainLinked(s[(d, c[0])].value, Promoted(s, d, c), d, c[1..])
  {
    assert NodeLinked(s, d, c, 0);
    forall m | 0 <= m < |c| - 1
      ensures NodeLinked(Promoted(s, d, c), d, c[1..], m)
    {
      assert NodeLinked(s, d, c, m + 1);
    }
  }

  /** Moving the list head into the primary map keeps the store well formed. */
  lemma PromoteKeeps(p: Primary, s: Slots, chains: Chains, d: Bytes)
    requires WellFormed(p, s, chains) && d in p && chains[d] != []
    requires (d, chains[d][0]) in s
    requires |chains[d]| > 1 ==> (d, chains[d][1]) in s && chains[d][1] != chains[d][0]
    ensures WellFormed(p[d := s[(d, chains[d][0])].value], Promoted(s, d, chains[d]), chains[d := chains[d][1..]])
  {
    var c := chains[d];
    var p', s', chains' := p[d := s[(d, c[0])].value], Promoted(s, d, c), chains[d := c[1..]];
    PromotedLinks(p[d], s, d, c);
    forall i | (d, i) in s'
      ensures i in chains'[d]
    {
      var m :| 0 <= m < |c| && c[m] == i;
      assert m != 0;
      assert c[1..][m - 1] == i;
    }
    LocalStep(p, s, chains, p', s', chains', d);
  }

  /** Forgetting a DUID that has no list keeps the store well formed. */
  lemma DropKeeps(p: Primary, s: Slots, chains: Chains, d: Bytes)
    requires WellFormed(p, s, chains) && d in p && chains[d] == []
    ensures WellFormed(p - {d}, s, chains - {d})
  {
    LocalStep(p, s, chains, p - {d}, s, chains - {d}, d);
  }

  /** What the linked maps say about one association. */
  function Lookup(p: Primary, s: Slots, q: IaKey): Option<Binding> {
    if q in s then Some(s[q].value.Bound())
    else if q.0 in p && p[q.0].iaid == q.1 then Some(p[q.0].Bound())
    else None
  }

  function Find<K, V>(m: map<K, V>, k: K): Option<V> {
    if k in m then Some(m[k]) else None
  }

  lemma AbsFind(p: Primary, s: Slots, q: IaKey)
    ensures Find(Abs(p, s), q) == Lookup(p, s, q)
  {
    AbsHas(p, s, q);
  }

  /** A map is the abstraction as soon as it agrees with every lookup. */
  lemma AbsIs(p: Primary, s: Slots, m: map<IaKey, Binding>)
    requires forall q :: Find(m, q) == Lookup(p, s, q)
    ensures Abs(p, s) == m
  {
    forall q: IaKey
      ensures Find(m, q) == Find(Abs(p, s), q)
    {
      AbsFind(p, s, q);
    }
    assert forall q :: q in m <==> Find(m, q).Some?;
    assert forall q :: q in Abs(p, s) <==> Find(Abs(p, s), q).Some?;
  }

  // ------------------------------------------------------------------ steps and the plain map

  /** A step that sets association `q`. */
  lemma AbsSet(p: Primary, s: Slots, p': Primary, s': Slots, q: IaKey, v: Binding)
    requires Lookup(p', s', q) == Some(v)
    requires forall r :: r != q ==> Lookup(p', s', r) == Lookup(p, s, r)
    ensures Abs(p', s') == Abs(p, s)[q := v]
  {
    var m := Abs(p, s)[q := v];
    forall r: IaKey
      ensures Find(m, r) == Lookup(p', s', r)
    {
      AbsFind(p, s, r);
    }
    AbsIs(p', s', m);
  }

  /** A step that deletes association `q`. */
  lemma AbsDelete(p: Primary, s: Slots, p': Primary, s': Slots, q: IaKey)
    requires Lookup(p', s', q) == None
    requires forall r :: r != q ==> Lookup(p', s', r) == Lookup(p, s, r)
    ensures Abs(p', s') == Abs(p, s) - {q}
  {
    var m := Abs(p, s) - {q};
    forall r: IaKey
      ensures Find(m, r) == Lookup(p', s', r)
    {
      AbsFind(p, s, r);
    }
    AbsIs(p', s', m);
  }

  /** The first association of a DUID. */
  lemma StartStep(p: Primary, s: Slots, chains: Chains, d: Bytes, v: IaValue)
    requires WellFormed(p, s, chains) && Storable(d) && d !in p && v.link == v.iaid
    ensures WellFormed(p[d := v], s, chains[d := []])
    ensures Abs(p[d := v], s) == Abs(p, s)[(d, v.iaid) := v.Bound()]
  {
    LocalStep(p, s, chains, p[d := v], s, chains[d := []], d);
    AbsSet(p, s, p[d := v], s, (d, v.iaid), v.Bound());
  }

  /** A new value for the primary association. */
  lemma ReplacePrimaryStep(p: Primary, s: Slots, chains: Chains, d: Bytes, v: IaValue)
    requires WellFormed(p, s, chains) && d in p && v.iaid == p[d].iaid && v.link == p[d].link
    ensures WellFormed(p[d := v], s, chains)
    ensures Abs(p[d := v], s) == Abs(p, s)[(d, v.iaid) := v.Bound()]
  {
    LocalStep(p, s, chains, p[d := v], s, chains, d);
    AbsSet(p, s, p[d := v], s, (d, v.iaid), v.Bound());
  }

  /** A new value for an additional association. */
  lemma ReplaceAdditionalStep(p: Primary, s: Slots, chains: Chains, d: Bytes, e: AdditionalIaValue)
    requires WellFormed(p, s, chains) && (d, e.value.iaid) in s
    requires e == s[(d, e.value.iaid)].(value := e.value) && e.value.link == s[(d, e.value.iaid)].value.link
    ensures WellFormed(p, s[(d, e.value.iaid) := e], chains)
    ensures Abs(p, s[(d, e.value.iaid) := e]) == Abs(p, s)[(d, e.value.iaid) := e.value.Bound()]
  {
    var s' := s[(d, e.value.iaid) := e];
    var c := chains[d];
    forall j | 0 <= j < |c|
      ensures NodeLinked(s', d, c, j)
    {
      assert NodeLinked(s, d, c, j);
    }
    LocalStep(p, s, chains, p, s', chains, d);
    AbsSet(p, s, p, s', (d, e.value.iaid), e.value.Bound());
  }

  /** A further association of a known DUID. */
  lemma PushAbs(p: Primary, s: Slots, d: Bytes, c: seq<Iaid>, v: IaValue)
    requires d in p && p[d].iaid != v.iaid
    requires c != [] ==> (d, c[0]) in s
    ensures Abs(p[d := p[d].(link := v.iaid)], Pushed(s, d, c, v)) == Abs(p, s)[(d, v.iaid) := v.Bound()]
  {
    var p', s' := p[d := p[d].(link := v.iaid)], Pushed(s, d, c, v);
    forall r: IaKey | r != (d, v.iaid)
      ensures Lookup(p', s', r) == Lookup(p, s, r)
    {
    }
    AbsSet(p, s, p', s', (d, v.iaid), v.Bound());
  }

  /** An additional association leaves. */
  lemma UnlinkAbs(p: Primary, s: Slots, d: Bytes, c: seq<Iaid>, j: nat)
    requires d in p && CanUnlink(s, d, c, j) && p[d].iaid != c[j]
    ensures Abs(p[d := Relinked(p[d], c, j)], Unlinked(s, d, c[j], Before(c, j), After(c, j)))
         == Abs(p, s) - {(d, c[j])}
  {
    var p', s' := p[d := Relinked(p[d], c, j)], Unlinked(s, d, c[j], Before(c, j), After(c, j));
    forall r: IaKey | r != (d, c[j])
      ensures Lookup(p', s', r) == Lookup(p, s, r)
    {
    }
    AbsDelete(p, s, p', s', (d, c[j]));
  }

  /** The primary association leaves and the list head takes its place. */
  lemma PromoteAbs(p: Primary, s: Slots, d: Bytes, c: seq<Iaid>)
    requires d in p && c != [] && (d, c[0]) in s && (d, p[d].iaid) !in s
    requires s[(d, c[0])].value.iaid == c[0]
    requires |c| > 1 ==> (d, c[1]) in s && c[1] != c[0]
    ensures Abs(p[d := s[(d, c[0])].value], Promoted(s, d, c)) == Abs(p, s) - {(d, p[d].iaid)}
  {
    var p', s' := p[d := s[(d, c[0])].value], Promoted(s, d, c);
    forall r: IaKey | r != (d, p[d].iaid)
      ensures Lookup(p', s', r) == Lookup(p, s, r)
    {
    }
    AbsDelete(p, s, p', s', (d, p[d].iaid));
  }

  /** The only association of a DUID leaves. */
  lemma DropAbs(p: Primary, s: Slots, d: Bytes)
    requires d in p && (d, p[d].iaid) !in s
    ensures Abs(p - {d}, s) == Abs(p, s) - {(d, p[d].iaid)}
  {
    forall r: IaKey | r != (d, p[d].iaid)
      ensures Lookup(p - {d}, s, r) == Lookup(p, s, r)
    {
    }
    AbsDelete(p, s, p - {d}, s, (d, p[d].iaid));
  }

  // ------------------------------------------------------------------ steps on the packed map

  /** What the primary entry's link says about the list. */
  lemma HeadOf(u: IaValue, a: Additional, s: Slots, d: Bytes, c: seq<Iaid>)
    requires Storable(d) && Packed(a, s) && ChainLinked(u, s, d, c)
    ensures u.link != u.iaid <==> c != []
    ensures c != [] ==> u.link == c[0] && (d, c[0]) in s && PackKey(d, c[0]) in a
    ensures c != [] ==> a[PackKey(d, c[0])] == s[(d, c[0])]
  {
    if c != [] {
      Neighbours(u, s, d, c, 0);
      PackedAt(a, s, d, c[0]);
    }
  }

  lemma PackedPush(a: Additional, s: Slots, d: Bytes, c: seq<Iaid>, v: IaValue)
    requires Storable(d) && Packed(a, s)
    requires c != [] ==> (d, c[0]) in s && PackKey(d, c[0]) in a && a[PackKey(d, c[0])] == s[(d, c[0])]
    ensures c == [] ==>
      Packed(a[PackKey(d, v.iaid) := AdditionalIaValue(v.(link := v.iaid), v.iaid)], Pushed(s, d, c, v))
    ensures c != [] ==>
      Packed(a[PackKey(d, c[0]) := a[PackKey(d, c[0])].(previous := v.iaid)]
              [PackKey(d, v.iaid) := AdditionalIaValue(v.(link := c[0]), v.iaid)], Pushed(s, d, c, v))
  {
    if c == [] {
      PackedUpdate(a, s, d, v.iaid, AdditionalIaValue(v.(link := v.iaid), v.iaid));
    } else {
      var head := a[PackKey(d, c[0])].(previous := v.iaid);
      PackedUpdate(a, s, d, c[0], head);
      PackedUpdate(a[PackKey(d, c[0]) := head], s[(d, c[0]) := head], d, v.iaid,
                   AdditionalIaValue(v.(link := c[0]), v.iaid));
    }
  }

  /** The packed map after threading `v` in front of the list headed by `u`. */
  function PushedPacked(u: IaValue, a: Additional, d: Bytes, v: IaValue): Additional
    requires Storable(d) && (u.link != u.iaid ==> PackKey(d, u.link) in a)
  {
    if u.link == u.iaid then
      a[PackKey(d, v.iaid) := AdditionalIaValue(v.(link := v.iaid), v.iaid)]
    else
      a[PackKey(d, u.link) := a[PackKey(d, u.link)].(previous := v.iaid)]
       [PackKey(d, v.iaid) := AdditionalIaValue(v.(link := u.link), v.iaid)]
  }

  /** A further association of a known DUID. */
  lemma PushStep(p: Primary, a: Additional, s: Slots, chains: Chains, d: Bytes, v: IaValue)
    requires Packed(a, s) && WellFormed(p, s, chains) && d in p
    requires p[d].iaid != v.iaid && (d, v.iaid) !in s
    ensures Storable(d) && (p[d].link != p[d].iaid ==> PackKey(d, p[d].link) in a)
    ensures chains[d] != [] ==> (d, chains[d][0]) in s
    ensures Packed(PushedPacked(p[d], a, d, v), Pushed(s, d, chains[d], v))
    ensures WellFormed(p[d := p[d].(link := v.iaid)], Pushed(s, d, chains[d], v), chains[d := [v.iaid] + chains[d]])
    ensures Abs(p[d := p[d].(link := v.iaid)], Pushed(s, d, chains[d], v)) == Abs(p, s)[(d, v.iaid) := v.Bound()]
  {
    HeadOf(p[d], a, s, d, chains[d]);
    PushKeeps(p, s, chains, d, v);
    PushAbs(p, s, d, chains[d], v);
    PackedPush(a, s, d, chains[d], v);
  }

  /** The packed map after the list head was promoted. */
  function PromotedPacked(head: IaValue, a: Additional, d: Bytes): Additional
    requires Storable(d)
    requires head.link != head.iaid ==> PackKey(d, head.link) in a - {PackKey(d, head.iaid)}
  {
    var rest := a - {PackKey(d, head.iaid)};
    if head.link == head.iaid then rest else
      var next := rest[PackKey(d, head.link)];
      rest[PackKey(d, head.link) := next.(previous := next.value.iaid)]
  }

  /** The primary association leaves and the list head takes its place. */
  lemma PromoteStep(p: Primary, a: Additional, s: Slots, chains: Chains, d: Bytes)
    requires Packed(a, s) && WellFormed(p, s, chains) && d in p && p[d].link != p[d].iaid
    ensures Storable(d) && chains[d] != [] && PackKey(d, p[d].link) in a
    ensures
      var c, head := chains[d], a[PackKey(d, p[d].link)].value;
      && head.iaid == p[d].link
      && (head.link != head.iaid ==> PackKey(d, head.link) in a - {PackKey(d, head.iaid)})
      && (|c| > 1 ==> (d, c[1]) in s && c[1] != c[0])
      && Packed(PromotedPacked(head, a, d), Promoted(s, d, c))
      && WellFormed(p[d := head], Promoted(s, d, c), chains[d := c[1..]])
      && Abs(p[d := head], Promoted(s, d, c)) == Abs(p, s) - {(d, p[d].iaid)}
  {
    var c := chains[d];
    HeadOf(p[d], a, s, d, c);
    Neighbours(p[d], s, d, c, 0);
    PromoteKeeps(p, s, chains, d);
    PromoteAbs(p, s, d, c);
    PackedRemove(a, s, d, c[0]);
    if |c| > 1 {
      Neighbours(p[d], s, d, c, 1);
      var a1, s1 := a - {PackKey(d, c[0])}, s - {(d, c[0])};
      PackedAt(a1, s1, d, c[1]);
      PackedUpdate(a1, s1, d, c[1], s1[(d, c[1])].(previous := s1[(d, c[1])].value.iaid));
    }
  }

  /** The only association of a DUID leaves. */
  lemma DropStep(p: Primary, s: Slots, chains: Chains, d: Bytes)
    requires WellFormed(p, s, chains) && d in p && p[d].link == p[d].iaid
    ensures chains[d] == []
    ensures WellFormed(p - {d}, s, chains - {d})
    ensures Abs(p - {d}, s) == Abs(p, s) - {(d, p[d].iaid)}
  {
    DropKeeps(p, s, chains, d);
    DropAbs(p, s, d);
  }

  /** The packed map after `current` was cut out between its neighbours. */
  function UnlinkedPacked(a: Additional, d: Bytes, current: Iaid, previous: Option<Iaid>, next: Iaid): Additional
    requires Storable(d)
    requires previous.Some? ==> PackKey(d, previous.value) in a - {PackKey(d, current)}
    requires next != current ==> PackKey(d, next) in a - {PackKey(d, current)}
  {
    var a1 := a - {PackKey(d, current)};
    var a2 := if previous.None? then a1 else
      var k := PackKey(d, previous.value);
      a1[k := a1[k].(value := a1[k].value.(link := if next != current then next else previous.value))];
    if next == current then a2 else
      a2[PackKey(d, next) := a2[PackKey(d, next)].(previous := if previous.Some? then previous.value else next)]
  }

  lemma PackedUnlink(a: Additional, s: Slots, d: Bytes, current: Iaid, previous: Option<Iaid>, next: Iaid)
    requires Storable(d) && Packed(a, s)
    requires previous.Some? ==> (d, previous.value) in s && previous.value != current
    requires next != current ==> (d, next) in s
    ensures previous.Some? ==> PackKey(d, previous.value) in a - {PackKey(d, current)}
    ensures next != current ==> PackKey(d, next) in a - {PackKey(d, current)}
    ensures Packed(UnlinkedPacked(a, d, current, previous, next), Unlinked(s, d, current, previous, next))
  {
    var a1, s1 := a - {PackKey(d, current)}, s - {(d, current)};
    PackedRemove(a, s, d, current);
    if previous.Some? {
      PackedAt(a1, s1, d, previous.value);
    }
    if next != current {
      PackedAt(a1, s1, d, next);
    }
    var a2, s2 := a1, s1;
    if previous.Some? {
      var v := s1[(d, previous.value)];
      v := v.(value := v.value.(link := if next != current then next else previous.value));
      PackedUpdate(a1, s1, d, previous.value, v);
      a2, s2 := a1[PackKey(d, previous.value) := v], s1[(d, previous.value) := v];
    }
    if next != current {
      PackedAt(a2, s2, d, next);
      PackedUpdate(a2, s2, d, next, s2[(d, next)].(previous := if previous.Some? then previous.value else next));
    }
  }

  // ------------------------------------------------------------------ counting

  lemma HeadsSize(p: Primary)
    ensures |Heads(p)| == |p|
  {
    var f := d => (d, if d in p then p[d].iaid else 0);
    ImageSize(p.Keys, f);
    assert Heads(p) == Image(p.Keys, f);
    assert |p| == |p.Keys|;
  }

  lemma {:induction false} SlotsSize(a: Additional, s: Slots)
    requires Packed(a, s)
    ensures |s| == |a|
    decreases |s|
  {
    forall key | key in a
      ensures SplitKey(key).Some? && SplitKey(key).value in s
    {
      assert UnpacksTo(key, s);
    }
    if s == map[] {
      assert a == map[];
    } else {
      var q :| q in s;
      assert PackedEntry(a, s, q.0, q.1);
      PackedRemove(a, s, q.0, q.1);
      RemovedSize(s, q);
      RemovedSize(a, PackKey(q.0, q.1));
      SlotsSize(a - {PackKey(q.0, q.1)}, s - {q});
    }
  }

  /** The two maps together hold each association once. */
  lemma StoreSize(p: Primary, a: Additional, s: Slots, chains: Chains)
    requires Packed(a, s) && WellFormed(p, s, chains)
    ensures |Abs(p, s)| == |p| + |a|
  {
    hide Packed, WellFormed, Abs, Heads;
    HeadsSize(p);
    SlotsSize(a, s);
    HeadsApart(p, s, chains);
    AbsKeys(p, s);
    MapSize(Abs(p, s), Heads(p), s);
  }

  lemma AbsKeys(p: Primary, s: Slots)
    ensures Abs(p, s).Keys == Heads(p) + s.Keys
  {
  }

  lemma MapSize<K, V, W>(m: map<K, V>, heads: set<K>, s: map<K, W>)
    requires m.Keys == heads + s.Keys && heads !! s.Keys
    ensures |m| == |heads| + |s|
  {
    assert |m| == |m.Keys| && |s| == |s.Keys|;
  }

  /** No association is both a primary and an additional one. */
  lemma HeadsApart(p: Primary, s: Slots, chains: Chains)
    requires WellFormed(p, s, chains)
    ensures Heads(p) !! s.Keys
  {
  }

  // ------------------------------------------------------------------ bulk deletion

  function Addresses(m: map<IaKey, Binding>): set<u128> {
    set q | q in m :: m[q].ip
  }

  /** Addresses of the associations of `m` that `m'` no longer has. */
  function Dropped(m: map<IaKey, Binding>, m': map<IaKey, Binding>): set<u128> {
    set q | q in m && q !in m' :: m[q].ip
  }

  function Unexpired(m: map<IaKey, Binding>, now: u64): map<IaKey, Binding> {
    map q | q in m && m[q].expiry > now :: m[q]
  }

  ghost predicate SubMap<K, V>(m': map<K, V>, m: map<K, V>) {
    forall q :: q in m' ==> q in m && m'[q] == m[q]
  }

  predicate Eligible(v: Binding, now: u64, start: u128, end: u128) {
    v.expiry > now && start <= v.ip <= end
  }

  /**
   `m` keeps unexpired, in-range associations of `m0` at pairwise different addresses not in `used0`;
   an eligible association is missing only because its address was taken.
   */
  ghost predicate Revalidated(m0: map<IaKey, Binding>, m: map<IaKey, Binding>, now: u64, start: u128, end: u128,
                              used0: set<u128>, used: set<u128>) {
    && SubMap(m, m0)
    && (forall q :: q in m ==> Eligible(m[q], now, start, end) && m[q].ip !in used0)
    && (forall q, r :: q in m && r in m && q != r ==> m[q].ip != m[r].ip)
    && used == used0 + Addresses(m)
    && (forall q :: q in m0 && q !in m && Eligible(m0[q], now, start, end) ==> m0[q].ip in used)
  }

  /** The two tests a bulk deletion applies while walking the store. */
  datatype Sweep = Expiry(now: u64) | Revalidation(now: u64, start: u128, end: u128) {

    /** Whether an association stays, given the address index so far. */
    predicate Accepts(v: Binding, used: set<u128>) {
      match this
      case Expiry(now) => v.expiry > now
      case Revalidation(now, start, end) => Eligible(v, now, start, end) && v.ip !in used
    }

    /** Address index after the verdict on an association at `ip`. */
    function Index(accepted: bool, ip: u128, used: set<u128>): set<u128> {
      match this
      case Expiry(_) => if accepted then used else used - {ip}
      case Revalidation(_, _, _) => if accepted then used + {ip} else used
    }

    /** State of a sweep over `m0` that has reached `m`, accepted `kept` and turned index `used0` into `used`. */
    ghost predicate Reached(m0: map<IaKey, Binding>, m: map<IaKey, Binding>, kept: set<IaKey>, used0: set<u128>, used: set<u128>) {
      && SubMap(m, m0)
      && kept <= m.Keys
      && match this
         case Expiry(now) =>
           && (forall q :: q in kept ==> m[q].expiry > now)
           && (forall q :: q in m0 && q !in m ==> m0[q].expiry <= now)
           && used == used0 - Dropped(m0, m)
         case Revalidation(now, start, end) =>
           && used0 <= used
           && (forall q :: q in kept ==> Eligible(m[q], now, start, end) && m[q].ip in used && m[q].ip !in used0)
           && (forall q, r :: q in kept && r in kept && q != r ==> m[q].ip != m[r].ip)
           && (forall ip :: ip in used ==> ip in used0 || exists q :: q in kept && m[q].ip == ip)
           && (forall q :: q in m0 && q !in m ==> !Eligible(m0[q], now, start, end) || m0[q].ip in used)
    }

    lemma Start(m: map<IaKey, Binding>, used: set<u128>)
      ensures Reached(m, m, {}, used, used)
    {
      assert Dropped(m, m) == {};
    }

    lemma Accept(m0: map<IaKey, Binding>, m: map<IaKey, Binding>, kept: set<IaKey>, used0: set<u128>, used: set<u128>, q: IaKey)
      requires Reached(m0, m, kept, used0, used) && q in m && Accepts(m[q], used)
      ensures Reached(m0, m, kept + {q}, used0, Index(true, m[q].ip, used))
    {
    }

    /** A finished expiry sweep is a filter of the plain map. */
    lemma ExpiryEnd(m0: map<IaKey, Binding>, m: map<IaKey, Binding>, kept: set<IaKey>, used0: set<u128>, used: set<u128>)
      requires Expiry? && Reached(m0, m, kept, used0, used) && m.Keys <= kept
      ensures m == Unexpired(m0, now) && used == used0 - Dropped(m0, m)
    {
    }

    /** What a finished revalidation keeps, and why it dropped the rest. */
    lemma RevalidationEnd(m0: map<IaKey, Binding>, m: map<IaKey, Binding>, kept: set<IaKey>, used0: set<u128>, used: set<u128>)
      requires Revalidation? && Reached(m0, m, kept, used0, used) && m.Keys <= kept
      ensures Revalidated(m0, m, now, start, end, used0, used)
    {
      assert kept == m.Keys;
    }

    lemma Reject(m0: map<IaKey, Binding>, m: map<IaKey, Binding>, kept: set<IaKey>, used0: set<u128>, used: set<u128>, q: IaKey)
      requires Reached(m0, m, kept, used0, used) && q in m && q !in kept && !Accepts(m[q], used)
      ensures Reached(m0, m - {q}, kept, used0, Index(false, m[q].ip, used))
    {
      if Expiry? {
        assert Dropped(m0, m - {q}) == Dropped(m0, m) + {m[q].ip};
      }
    }
  }

  /** Exactly the first `j` list entries of `d` have been accepted. */
  ghost predicate KeptUpTo(kept: set<IaKey>, d: Bytes, c: seq<Iaid>, j: nat) {
    && j <= |c|
    && (forall k :: 0 <= k < j ==> (d, c[k]) in kept)
    && (forall k :: j <= k < |c| ==> (d, c[k]) !in kept)
  }

  lemma KeptWithout(kept: set<IaKey>, d: Bytes, c: seq<Iaid>, j: nat)
    requires j < |c| && KeptUpTo(kept, d, c, j)
    ensures KeptUpTo(kept, d, Without(c, j), j)
  {
  }

  lemma KeptNext(kept: set<IaKey>, d: Bytes, c: seq<Iaid>, j: nat)
    requires Distinct(c) && j < |c| && KeptUpTo(kept, d, c, j)
    ensures KeptUpTo(kept + {(d, c[j])}, d, c, j + 1)
  {
  }

  /** `kept'` extends `kept` by associations of `d` only. */
  ghost predicate GrownAt(kept: set<IaKey>, kept': set<IaKey>, d: Bytes) {
    kept <= kept' && forall q :: q in kept' && q.0 != d ==> q in kept
  }

  /** Accepting the list entry the walk stands on. */
  lemma AcceptListed(sw: Sweep, m0: map<IaKey, Binding>, m: map<IaKey, Binding>, kept0: set<IaKey>, kept: set<IaKey>,
                     used0: set<u128>, used: set<u128>, d: Bytes, c: seq<Iaid>, j: nat)
    requires GrownAt(kept0, kept, d)
    requires sw.Reached(m0, m, kept, used0, used) && Distinct(c) && j < |c| && KeptUpTo(kept, d, c, j)
    requires (d, c[j]) in m && sw.Accepts(m[(d, c[j])], used)
    ensures sw.Reached(m0, m, kept + {(d, c[j])}, used0, sw.Index(true, m[(d, c[j])].ip, used))
    ensures KeptUpTo(kept + {(d, c[j])}, d, c, j + 1) && GrownAt(kept0, kept + {(d, c[j])}, d)
  {
    KeptNext(kept, d, c, j);
    sw.Accept(m0, m, kept, used0, used, (d, c[j]));
  }

  /** Cutting `c[j]` out moves its successor to position `j`. */
  lemma WithoutAt(c: seq<Iaid>, j: nat)
    requires j < |c|
    ensures |Without(c, j)| == |c| - 1
    ensures j + 1 < |c| ==> Without(c, j)[j] == After(c, j) && Before(Without(c, j), j) == Before(c, j)
  {
  }

  lemma ListedIn(p: Primary, s: Slots, chains: Chains, d: Bytes, j: nat)
    requires WellFormed(p, s, chains) && d in p && j < |chains[d]|
    ensures (d, chains[d][j]) in s && (d, chains[d][j]) in Abs(p, s)
    ensures Abs(p, s)[(d, chains[d][j])] == s[(d, chains[d][j])].value.Bound()
  {
    Neighbours(p[d], s, d, chains[d], j);
    AbsFind(p, s, (d, chains[d][j]));
  }

  /** `kept` holds the primary association of `d` and nothing else of `d`. */
  ghost predicate OnlyPrimaryKept(kept: set<IaKey>, p: Primary, d: Bytes)
    requires d in p
  {
    forall i :: (d, i) in kept <==> i == p[d].iaid
  }

  /** Before its list is walked, no list entry of `d` has been accepted. */
  lemma KeptStart(kept: set<IaKey>, p: Primary, s: Slots, chains: Chains, d: Bytes)
    requires WellFormed(p, s, chains) && d in p && OnlyPrimaryKept(kept, p, d)
    ensures KeptUpTo(kept, d, chains[d], 0)
  {
    assert p[d].iaid !in chains[d];
  }

  /** Once its whole list was accepted, everything `d` holds was. */
  lemma KeptAll(kept: set<IaKey>, p: Primary, s: Slots, chains: Chains, d: Bytes)
    requires WellFormed(p, s, chains) && d in p && (d, p[d].iaid) in kept
    requires KeptUpTo(kept, d, chains[d], |chains[d]|)
    ensures forall q :: q in Abs(p, s) && q.0 == d ==> q in kept
  {
    forall q: IaKey | q in Abs(p, s) && q.0 == d
      ensures q in kept
    {
      AbsFind(p, s, q);
      if q in s {
        var k :| 0 <= k < |chains[d]| && chains[d][k] == q.1;
        assert q == (d, chains[d][k]);
      }
    }
  }

  lemma UpdateElsewhere<K, V>(m: map<K, V>, k: K, v: V)
    ensures m[k := v] - {k} == m - {k}
  {
  }

  lemma ElsewhereSame<K, V>(m: map<K, V>, m': map<K, V>, k: K)
    requires m - {k} == m' - {k}
    ensures forall x :: x != k ==> (x in m <==> x in m')
    ensures forall x :: x != k && x in m ==> m[x] == m'[x]
  {
    forall x | x != k
      ensures x in m <==> x in m'
      ensures x in m ==> m[x] == m'[x]
    {
      assert x in m <==> x in m - {k};
      assert x in m' <==> x in m' - {k};
    }
  }

  /** First pass: DUIDs in `todo` are untouched, the others kept exactly their primary association. */
  ghost predicate PrimariesSwept(kept: set<IaKey>, p: Primary, todo: set<Bytes>) {
    && todo <= p.Keys
    && (forall q :: q in kept ==> q.0 !in todo)
    && (forall d :: d in p && d !in todo ==> OnlyPrimaryKept(kept, p, d))
  }

  lemma PrimarySwept(kept: set<IaKey>, kept': set<IaKey>, p: Primary, p': Primary, todo: set<Bytes>, d: Bytes)
    requires PrimariesSwept(kept, p, todo) && d in todo && p - {d} == p' - {d}
    requires kept' == if d in p' then kept + {(d, p'[d].iaid)} else kept
    ensures PrimariesSwept(kept', p', todo - {d})
  {
    ElsewhereSame(p, p', d);
    forall x | x in p' && x !in todo - {d}
      ensures OnlyPrimaryKept(kept', p', x)
    {
      if x != d {
        assert OnlyPrimaryKept(kept, p, x);
      } else {
        assert forall i :: (d, i) !in kept;
      }
    }
  }

  /** Second pass: DUIDs in `todo` kept only their primary association, the others everything they hold. */
  ghost predicate ListsSwept(kept: set<IaKey>, p: Primary, m: map<IaKey, Binding>, todo: set<Bytes>) {
    && todo <= p.Keys
    && (forall d :: d in todo ==> OnlyPrimaryKept(kept, p, d))
    && (forall q :: q in m && q.0 !in todo ==> q in kept)
  }

  lemma ListsStart(kept: set<IaKey>, p: Primary, s: Slots, chains: Chains)
    requires WellFormed(p, s, chains) && PrimariesSwept(kept, p, {})
    ensures ListsSwept(kept, p, Abs(p, s), p.Keys)
  {
    forall q: IaKey | q in Abs(p, s)
      ensures q.0 in p
    {
      AbsHas(p, s, q);
    }
  }

  lemma ListSwept(kept: set<IaKey>, kept': set<IaKey>, p: Primary, p': Primary,
                  m: map<IaKey, Binding>, m': map<IaKey, Binding>, todo: set<Bytes>, d: Bytes)
    requires ListsSwept(kept, p, m, todo) && d in todo && d in p' && p - {d} == p' - {d}
    requires m'.Keys <= m.Keys
    requires forall q: IaKey :: q.0 != d ==> (q in kept <==> q in kept')
    requires forall q :: q in m' && q.0 == d ==> q in kept'
    ensures ListsSwept(kept', p', m', todo - {d})
  {
    ElsewhereSame(p, p', d);
    forall x | x in todo - {d}
      ensures OnlyPrimaryKept(kept', p', x)
    {
      assert OnlyPrimaryKept(kept, p, x);
      forall i
        ensures (x, i) in kept' <==> i == p'[x].iaid
      {
        assert (x, i).0 != d;
      }
    }
  }

  // ------------------------------------------------------------------ iteration

  /** The pairs that iterating over both maps yields, with its filter on the second one. */
  function Listing(p: Primary, a: Additional): set<(IaKey, Binding)> {
    (set d | d in p :: ((d, p[d].iaid), p[d].Bound())) +
    (set key | key in a && SplitKey(key).Some? && SplitKey(key).value.1 == a[key].value.iaid
       :: (SplitKey(key).value, a[key].value.Bound()))
  }

  lemma SlotIaid(p: Primary, s: Slots, chains: Chains, q: IaKey)
    requires WellFormed(p, s, chains) && q in s
    ensures s[q].value.iaid == q.1 && q.0 in p && p[q.0].iaid != q.1
  {
    var c := chains[q.0];
    var j :| 0 <= j < |c| && c[j] == q.1;
    assert NodeLinked(s, q.0, c, j);
  }

  /** Iteration yields every association of the plain map and nothing else. */
  lemma ListingIsContents(p: Primary, a: Additional, s: Slots, chains: Chains, q: IaKey, v: Binding)
    requires Packed(a, s) && WellFormed(p, s, chains)
    ensures (q, v) in Listing(p, a) <==> Find(Abs(p, s), q) == Some(v)
  {
    AbsFind(p, s, q);
    if q in s {
      assert PackedEntry(a, s, q.0, q.1);
      SplitPack(q.0, q.1);
      SlotIaid(p, s, chains, q);
      var key := PackKey(q.0, q.1);
      assert (SplitKey(key).value, a[key].value.Bound()) in Listing(p, a);
    }
    if q.0 in p && p[q.0].iaid == q.1 {
      assert ((q.0, p[q.0].iaid), p[q.0].Bound()) in Listing(p, a);
    }
    if (q, v) in Listing(p, a) && !(q.0 in p && (q, v) == ((q.0, p[q.0].iaid), p[q.0].Bound())) {
      var key :| key in a && SplitKey(key).Some? && (q, v) == (SplitKey(key).value, a[key].value.Bound());
      assert UnpacksTo(key, s);
      PackedAt(a, s, q.0, q.1);
    }
  }

  /** `e` bounds every expiry of `m` from below, and tightly. */
  ghost predicate IsEarliest(m: map<IaKey, Binding>, e: u64) {
    && (forall q :: q in m ==> e <= m[q].expiry)
    && (e == U64_MAX || exists q :: q in m && m[q].expiry == e)
  }

  method EarliestPrimary(p: Primary) returns (e: u64)
    ensures forall d :: d in p ==> e <= p[d].expiry
    ensures e == U64_MAX || exists d :: d in p && p[d].expiry == e
  {
    e := U64_MAX;
    var todo := p.Keys;
    while todo != {}
      invariant todo <= p.Keys
      invariant forall d :: d in p && d !in todo ==> e <= p[d].expiry
      invariant e == U64_MAX || exists d :: d in p && p[d].expiry == e
      decreases todo
    {
      var d :| d in todo;
      todo := todo - {d};
      e := Min(e, p[d].expiry);
    }
  }

  method EarliestAdditional(a: Additional, bound: u64) returns (e: u64)
    ensures e <= bound && forall k :: k in a ==> e <= a[k].value.expiry
    ensures e == bound || exists k :: k in a && a[k].value.expiry == e
  {
    e := bound;
    var todo := a.Keys;
    while todo != {}
      invariant todo <= a.Keys && e <= bound
      invariant forall k :: k in a && k !in todo ==> e <= a[k].value.expiry
      invariant e == bound || exists k :: k in a && a[k].value.expiry == e
      decreases todo
    {
      var k :| k in todo;
      todo := todo - {k};
      e := Min(e, a[k].value.expiry);
    }
  }

  lemma EarliestOf(p: Primary, a: Additional, s: Slots, chains: Chains, bound: u64, e: u64)
    requires Packed(a, s) && WellFormed(p, s, chains)
    requires forall d :: d in p ==> bound <= p[d].expiry
    requires bound == U64_MAX || exists d :: d in p && p[d].expiry == bound
    requires e <= bound && forall k :: k in a ==> e <= a[k].value.expiry
    requires e == bound || exists k :: k in a && a[k].value.expiry == e
    ensures IsEarliest(Abs(p, s), e)
  {
    forall q: IaKey | q in Abs(p, s)
      ensures e <= Abs(p, s)[q].expiry
    {
      AbsFind(p, s, q);
      if q in s {
        assert PackedEntry(a, s, q.0, q.1);
      }
    }
    if e == bound < U64_MAX {
      var d :| d in p && p[d].expiry == e;
      AbsFind(p, s, (d, p[d].iaid));
      assert (d, p[d].iaid) !in s;
    } else if e < bound {
      var k :| k in a && a[k].value.expiry == e;
      assert UnpacksTo(k, s);
      var q := SplitKey(k).value;
      PackedAt(a, s, q.0, q.1);
      AbsFind(p, s, q);
    }
  }

  lemma NoPrimaryNoSlot(p: Primary, s: Slots, chains: Chains)
    requires WellFormed(p, s, chains) && p == map[]
    ensures s == map[]
  {
    assert forall q :: q in s ==> q.0 in chains;
  }

  /** Where the walk over a DUID's list begins. */
  lemma ListStart(p: Primary, s: Slots, chains: Chains, d: Bytes)
    requires WellFormed(p, s, chains) && d in p
    ensures d in chains && Distinct(chains[d])
    ensures p[d].link != p[d].iaid ==> chains[d] != [] && chains[d][0] == p[d].link
  {
  }

  class IaMap {
    var primary: Primary
    var additional: Additional
    ghost var slots: Slots
    ghost var chains: Chains

    ghost predicate Valid()
      reads this
    {
      Packed(additional, slots) && WellFormed(primary, slots, chains)
    }

    ghost function Contents(): map<IaKey, Binding>
      reads this
    {
      Abs(primary, slots)
    }

    constructor ()
      ensures Valid() && Contents() == map[]
    {
      primary, additional, slots, chains := map[], map[], map[], map[];
    }

    method Get(duid: Bytes, iaid: Iaid) returns (r: Option<IaValue>)
      requires Valid()
      ensures r.Some? <==> (duid, iaid) in Contents()
      ensures r.Some? ==> r.value.iaid == iaid && r.value.Bound() == Contents()[(duid, iaid)]
    {
      AbsHas(primary, slots, (duid, iaid));
      if duid !in primary {
        return None;
      }
      if primary[duid].iaid == iaid {
        return Some(primary[duid]);
      }
      var key := SecondaryKey(duid, iaid);
      PackedAt(additional, slots, duid, iaid);
      if key.None? || key.value !in additional {
        return None;
      }
      ghost var j :| 0 <= j < |chains[duid]| && chains[duid][j] == iaid;
      assert NodeLinked(slots, duid, chains[duid], j);
      return Some(additional[key.value].value);
    }

    /** Records an association; a repeated one keeps its place in the list. */
    method Insert(duid: Bytes, value: IaValue) returns (replaced: Option<IaValue>)
      requires Valid()
      modifies this
      ensures Valid()
      ensures !Storable(duid) ==> replaced == None && Contents() == old(Contents())
      ensures Storable(duid) ==> Contents() == old(Contents())[(duid, value.iaid) := value.Bound()]
      ensures Storable(duid) ==> (replaced.Some? <==> (duid, value.iaid) in old(Contents()))
      ensures replaced.Some? ==> replaced.value.Bound() == old(Contents())[(duid, value.iaid)]
    {
      if !Storable(duid) {
        return None;
      }
      AbsHas(primary, slots, (duid, value.iaid));
      if duid !in primary {
        StartList(duid, value);
        return None;
      }
      if primary[duid].iaid == value.iaid {
        replaced := Some(primary[duid]);
        ReplacePrimary(duid, value);
        return;
      }
      var key := PackKey(duid, value.iaid);
      PackedAt(additional, slots, duid, value.iaid);
      if key in additional {
        replaced := Some(additional[key].value);
        ReplaceAdditional(duid, value);
        return;
      }
      PushFront(duid, value);
      return None;
    }

    /** Replaces the whole representation by a well-formed one. */
    method Install(p: Primary, a: Additional, ghost s: Slots, ghost c: Chains)
      requires Packed(a, s) && WellFormed(p, s, c)
      modifies this
      ensures Valid() && Contents() == Abs(p, s)
      ensures primary == p && additional == a && slots == s && chains == c
    {
      primary, additional, slots, chains := p, a, s, c;
    }

    method StartList(duid: Bytes, value: IaValue)
      requires Valid() && Storable(duid) && duid !in primary
      modifies this
      ensures Valid()
      ensures Contents() == old(Contents())[(duid, value.iaid) := value.Bound()]
    {
      StartStep(primary, slots, chains, duid, value.(link := value.iaid));
      Install(primary[duid := value.(link := value.iaid)], additional, slots, chains[duid := []]);
    }

    method ReplacePrimary(duid: Bytes, value: IaValue)
      requires Valid() && duid in primary && primary[duid].iaid == value.iaid
      modifies this
      ensures Valid()
      ensures Contents() == old(Contents())[(duid, value.iaid) := value.Bound()]
    {
      var entry := value.(link := primary[duid].link);
      ReplacePrimaryStep(primary, slots, chains, duid, entry);
      Install(primary[duid := entry], additional, slots, chains);
    }

    method ReplaceAdditional(duid: Bytes, value: IaValue)
      requires Valid() && Storable(duid) && (duid, value.iaid) in slots
      modifies this
      ensures Valid()
      ensures Contents() == old(Contents())[(duid, value.iaid) := value.Bound()]
    {
      PackedAt(additional, slots, duid, value.iaid);
      var key := PackKey(duid, value.iaid);
      var entry := additional[key].(value := value.(link := additional[key].value.link));
      PackedUpdate(additional, slots, duid, value.iaid, entry);
      ReplaceAdditionalStep(primary, slots, chains, duid, entry);
      Install(primary, additional[key := entry], slots[(duid, value.iaid) := entry], chains);
    }

    /** Threads a new additional association in front of the list of `duid`. */
    method PushFront(duid: Bytes, value: IaValue)
      requires Valid() && duid in primary
      requires primary[duid].iaid != value.iaid && (duid, value.iaid) !in slots
      modifies this
      ensures Valid()
      ensures Contents() == old(Contents())[(duid, value.iaid) := value.Bound()]
    {
      PushStep(primary, additional, slots, chains, duid, value);
      var u, newIaid, links := primary[duid], value.iaid, additional;
      var next := newIaid;
      if u.link != u.iaid {
        var oldKey := PackKey(duid, u.link);
        links := links[oldKey := links[oldKey].(previous := newIaid)];
        next := u.link;
      }
      links := links[PackKey(duid, newIaid) := AdditionalIaValue(value.(link := next), newIaid)];
      assert links == PushedPacked(u, additional, duid, value);
      Install(primary[duid := u.(link := newIaid)], links,
              Pushed(slots, duid, chains[duid], value), chains[duid := [newIaid] + chains[duid]]);
    }

    /** Removes the primary association; the list head, if there is one, takes its place. */
    method DropPrimary(duid: Bytes)
      requires Valid() && duid in primary
      modifies this
      ensures Valid()
      ensures Contents() == old(Contents() - {(duid, primary[duid].iaid)})
      ensures primary - {duid} == old(primary - {duid})
      ensures duid in primary <==> old(primary[duid].link != primary[duid].iaid)
      ensures duid in primary ==> duid in chains && |chains[duid]| < old(|chains[duid]|)
    {
      var u := primary[duid];
      if u.link == u.iaid {
        DropStep(primary, slots, chains, duid);
        Install(primary - {duid}, additional, slots, chains - {duid});
        return;
      }
      PromoteHead(duid);
    }

    method PromoteHead(duid: Bytes)
      requires Valid() && duid in primary && primary[duid].link != primary[duid].iaid
      modifies this
      ensures Valid()
      ensures Contents() == old(Contents() - {(duid, primary[duid].iaid)})
      ensures primary - {duid} == old(primary - {duid})
      ensures duid in primary && duid in chains && |chains[duid]| < old(|chains[duid]|)
    {
      PromoteStep(primary, additional, slots, chains, duid);
      var headKey := PackKey(duid, primary[duid].link);
      var promoted := additional[headKey].value;
      var links := additional - {headKey};
      if promoted.link != promoted.iaid {
        var nextKey := PackKey(duid, promoted.link);
        links := links[nextKey := links[nextKey].(previous := links[nextKey].value.iaid)];
      }
      assert links == PromotedPacked(promoted, additional, duid);
      UpdateElsewhere(primary, duid, promoted);
      Install(primary[duid := promoted], links, Promoted(slots, duid, chains[duid]), chains[duid := chains[duid][1..]]);
    }

    /** Cuts `current` out of its list, given its neighbours. */
    method Unlink(duid: Bytes, current: Iaid, previous: Option<Iaid>, next: Iaid, ghost j: nat)
      requires Valid() && duid in primary && j < |chains[duid]|
      requires current == chains[duid][j] && previous == Before(chains[duid], j) && next == After(chains[duid], j)
      modifies this
      ensures Valid()
      ensures Contents() == old(Contents()) - {(duid, current)}
      ensures duid in chains && chains[duid] == Without(old(chains[duid]), j)
      ensures primary - {duid} == old(primary - {duid})
      ensures duid in primary && primary[duid].Bound() == old(primary[duid].Bound()) && primary[duid].iaid == old(primary[duid].iaid)
    {
      Neighbours(primary[duid], slots, duid, chains[duid], j);
      UnlinkKeeps(primary, slots, chains, duid, j);
      UnlinkAbs(primary, slots, duid, chains[duid], j);
      PackedUnlink(additional, slots, duid, current, previous, next);
      var hasNext := next != current;
      var u, links := primary[duid], additional - {PackKey(duid, current)};
      if previous.Some? {
        var previousKey := PackKey(duid, previous.value);
        var before := links[previousKey];
        links := links[previousKey := before.(value := before.value.(link := if hasNext then next else previous.value))];
      } else {
        u := u.(link := if hasNext then next else u.iaid);
      }
      if hasNext {
        var nextKey := PackKey(duid, next);
        links := links[nextKey := links[nextKey].(previous := if previous.Some? then previous.value else next)];
      }
      assert links == UnlinkedPacked(additional, duid, current, previous, next);
      assert u == Relinked(primary[duid], chains[duid], j);
      UpdateElsewhere(primary, duid, u);
      Install(primary[duid := u], links, Unlinked(slots, duid, current, previous, next),
              chains[duid := Without(chains[duid], j)]);
    }

    /** Removes any association in constant time. */
    method Remove(duid: Bytes, iaid: Iaid) returns (removed: Option<IaValue>)
      requires Valid()
      modifies this
      ensures Valid()
      ensures Contents() == old(Contents()) - {(duid, iaid)}
      ensures removed.Some? <==> (duid, iaid) in old(Contents())
      ensures removed.Some? ==> removed.value.Bound() == old(Contents())[(duid, iaid)]
    {
      AbsHas(primary, slots, (duid, iaid));
      if duid !in primary {
        return None;
      }
      if primary[duid].iaid == iaid {
        removed := Some(primary[duid]);
        DropPrimary(duid);
        return;
      }
      var key := PackKey(duid, iaid);
      PackedAt(additional, slots, duid, iaid);
      if key !in additional {
        return None;
      }
      var entry := additional[key];
      ghost var j :| 0 <= j < |chains[duid]| && chains[duid][j] == iaid;
      Neighbours(primary[duid], slots, duid, chains[duid], j);
      Unlink(duid, iaid, if entry.previous == iaid then None else Some(entry.previous), entry.value.link, j);
      return Some(entry.value);
    }

    /** Overwrites the expiry of one association, as callers do through a mutable reference. */
    method SetExpiry(duid: Bytes, iaid: Iaid, expiry: u64) returns (found: bool)
      requires Valid()
      modifies this
      ensures Valid()
      ensures found <==> (duid, iaid) in old(Contents())
      ensures Contents() == if found then
                old(Contents())[(duid, iaid) := Binding(old(Contents())[(duid, iaid)].ip, expiry)] else old(Contents())
    {
      AbsHas(primary, slots, (duid, iaid));
      if duid !in primary {
        return false;
      }
      if primary[duid].iaid == iaid {
        ReplacePrimary(duid, primary[duid].(expiry := expiry));
        return true;
      }
      var key := PackKey(duid, iaid);
      PackedAt(additional, slots, duid, iaid);
      if key !in additional {
        return false;
      }
      ghost var j :| 0 <= j < |chains[duid]| && chains[duid][j] == iaid;
      Neighbours(primary[duid], slots, duid, chains[duid], j);
      ReplaceAdditional(duid, additional[key].value.(expiry := expiry));
      return true;
    }

    /** Number of associations. */
    method Len() returns (n: nat)
      requires Valid()
      ensures n == |Contents()|
    {
      StoreSize(primary, additional, slots, chains);
      n := |primary| + |additional|;
    }

    /** Applies the sweep to one DUID's primary association, promoting list heads as they are rejected. */
    method SweepPrimary(duid: Bytes, sw: Sweep, used: set<u128>,
                        ghost m0: map<IaKey, Binding>, ghost kept: set<IaKey>, ghost used0: set<u128>)
      returns (index: set<u128>, ghost kept': set<IaKey>)
      requires Valid() && duid in primary
      requires sw.Reached(m0, Contents(), kept, used0, used) && (forall i :: (duid, i) !in kept)
      modifies this
      ensures Valid()
      ensures sw.Reached(m0, Contents(), kept', used0, index)
      ensures primary - {duid} == old(primary - {duid})
      ensures kept' == if duid in primary then kept + {(duid, primary[duid].iaid)} else kept
    {
      index, kept' := used, kept;
      var more := true;
      while more && !sw.Accepts(primary[duid].Bound(), index)
        invariant Valid() && (more <==> duid in primary) && (more ==> duid in chains)
        invariant sw.Reached(m0, Contents(), kept, used0, index)
        invariant primary - {duid} == old(primary - {duid})
        decreases more, if more then |chains[duid]| else 0
      {
        index, more := SweepHead(duid, sw, index, m0, kept, used0);
      }
      if more {
        AbsFind(primary, slots, (duid, primary[duid].iaid));
        sw.Accept(m0, Contents(), kept, used0, index, (duid, primary[duid].iaid));
        index := sw.Index(true, primary[duid].ip, index);
        kept' := kept + {(duid, primary[duid].iaid)};
      }
    }

    /** Drops one rejected primary association. */
    method SweepHead(duid: Bytes, sw: Sweep, used: set<u128>,
                     ghost m0: map<IaKey, Binding>, ghost kept: set<IaKey>, ghost used0: set<u128>)
      returns (index: set<u128>, more: bool)
      requires Valid() && duid in primary && !sw.Accepts(primary[duid].Bound(), used)
      requires sw.Reached(m0, Contents(), kept, used0, used) && (forall i :: (duid, i) !in kept)
      modifies this
      ensures Valid()
      ensures sw.Reached(m0, Contents(), kept, used0, index)
      ensures primary - {duid} == old(primary - {duid})
      ensures more <==> duid in primary
      ensures more ==> duid in chains && |chains[duid]| < old(|chains[duid]|)
    {
      AbsFind(primary, slots, (duid, primary[duid].iaid));
      sw.Reject(m0, Contents(), kept, used0, used, (duid, primary[duid].iaid));
      index, more := sw.Index(false, primary[duid].ip, used), primary[duid].link != primary[duid].iaid;
      DropPrimary(duid);
    }

    /** The list entry at position `j`, found through its packed key. */
    method ReadAt(duid: Bytes, current: Iaid, ghost j: nat) returns (entry: IaValue)
      requires Valid() && duid in primary && j < |chains[duid]| && current == chains[duid][j]
      ensures entry.link == After(chains[duid], j)
      ensures entry.link != current <==> j + 1 < |chains[duid]|
      ensures (duid, current) in Contents() && Contents()[(duid, current)] == entry.Bound()
    {
      ListedIn(primary, slots, chains, duid, j);
      Neighbours(primary[duid], slots, duid, chains[duid], j);
      PackedAt(additional, slots, duid, current);
      entry := additional[PackKey(duid, current)].value;
    }

    /** Cuts a rejected list entry out. */
    method SweepAt(duid: Bytes, previous: Option<Iaid>, current: Iaid, entry: IaValue, ghost j: nat, sw: Sweep,
                   used: set<u128>, ghost m0: map<IaKey, Binding>, ghost kept: set<IaKey>, ghost used0: set<u128>)
      returns (index: set<u128>)
      requires Valid() && duid in primary && j < |chains[duid]|
      requires current == chains[duid][j] && previous == Before(chains[duid], j) && entry.link == After(chains[duid], j)
      requires (duid, current) in Contents() && Contents()[(duid, current)] == entry.Bound()
      requires !sw.Accepts(entry.Bound(), used)
      requires sw.Reached(m0, Contents(), kept, used0, used) && KeptUpTo(kept, duid, chains[duid], j)
      modifies this
      ensures Valid()
      ensures sw.Reached(m0, Contents(), kept, used0, index)
      ensures duid in primary && primary[duid].iaid == old(primary[duid].iaid) && primary - {duid} == old(primary - {duid})
      ensures Contents().Keys <= old(Contents().Keys)
      ensures duid in chains && |chains[duid]| == old(|chains[duid]|) - 1 && KeptUpTo(kept, duid, chains[duid], j)
      ensures j < |chains[duid]| ==> chains[duid][j] == entry.link && Before(chains[duid], j) == previous
    {
      WithoutAt(chains[duid], j);
      KeptWithout(kept, duid, chains[duid], j);
      sw.Reject(m0, Contents(), kept, used0, used, (duid, current));
      Unlink(duid, current, previous, entry.link, j);
      index := sw.Index(false, entry.ip, used);
    }

    /** Applies the sweep to one DUID's list, walking it once. */
    method SweepList(duid: Bytes, sw: Sweep, used: set<u128>,
                     ghost m0: map<IaKey, Binding>, ghost kept: set<IaKey>, ghost used0: set<u128>)
      returns (index: set<u128>, ghost kept': set<IaKey>)
      requires Valid() && duid in primary && primary[duid].link != primary[duid].iaid
      requires sw.Reached(m0, Contents(), kept, used0, used) && KeptUpTo(kept, duid, chains[duid], 0)
      modifies this
      ensures Valid()
      ensures sw.Reached(m0, Contents(), kept', used0, index)
      ensures duid in primary && primary[duid].iaid == old(primary[duid].iaid) && primary - {duid} == old(primary - {duid})
      ensures Contents().Keys <= old(Contents().Keys)
      ensures duid in chains && KeptUpTo(kept', duid, chains[duid], |chains[duid]|)
      ensures GrownAt(kept, kept', duid)
    {
      hide WellFormed, Packed, Abs, Sweep.Reached, KeptUpTo, Sweep.Accepts, Sweep.Index, Distinct;
      ListStart(primary, slots, chains, duid);
      index, kept' := used, kept;
      var previous: Option<Iaid>, current, finished := None, primary[duid].link, false;
      ghost var j, before := 0, Contents();
      while !finished
        invariant Valid() && duid in primary && duid in chains
        invariant primary[duid].iaid == old(primary[duid].iaid) && primary - {duid} == old(primary - {duid})
        invariant sw.Reached(m0, Contents(), kept', used0, index) && Contents().Keys <= before.Keys
        invariant KeptUpTo(kept', duid, chains[duid], j)
        invariant GrownAt(kept, kept', duid)
        invariant finished ==> j == |chains[duid]|
        invariant !finished ==> j < |chains[duid]| && current == chains[duid][j] && previous == Before(chains[duid], j)
        decreases !finished, |chains[duid]| - j
      {
        var entry := ReadAt(duid, current, j);
        if !sw.Accepts(entry.Bound(), index) {
          index := SweepAt(duid, previous, current, entry, j, sw, index, m0, kept', used0);
        } else {
          ListStart(primary, slots, chains, duid);
          AcceptListed(sw, m0, Contents(), kept, kept', used0, index, duid, chains[duid], j);
          index, kept' := sw.Index(true, entry.ip, index), kept' + {(duid, current)};
          previous, j := Some(current), j + 1;
        }
        if entry.link != current {
          current := entry.link;
        } else {
          finished := true;
        }
      }
    }

    /** Handles one DUID in the second pass: nothing to do without a list. */
    method SweepRest(duid: Bytes, sw: Sweep, used: set<u128>,
                     ghost m0: map<IaKey, Binding>, ghost kept: set<IaKey>, ghost used0: set<u128>)
      returns (index: set<u128>, ghost kept': set<IaKey>)
      requires Valid() && duid in primary && OnlyPrimaryKept(kept, primary, duid)
      requires sw.Reached(m0, Contents(), kept, used0, used)
      modifies this
      ensures Valid() && sw.Reached(m0, Contents(), kept', used0, index)
      ensures duid in primary && primary - {duid} == old(primary - {duid})
      ensures Contents().Keys <= old(Contents().Keys)
      ensures forall q: IaKey :: q.0 != duid ==> (q in kept <==> q in kept')
      ensures forall q :: q in Contents() && q.0 == duid ==> q in kept'
    {
      index, kept' := used, kept;
      KeptStart(kept, primary, slots, chains, duid);
      if primary[duid].link != primary[duid].iaid {
        index, kept' := SweepList(duid, sw, used, m0, kept, used0);
      }
      KeptAll(kept', primary, slots, chains, duid);
    }

    method SweepPrimaries(sw: Sweep, used: set<u128>) returns (index: set<u128>, ghost kept: set<IaKey>)
      requires Valid()
      modifies this
      ensures Valid() && sw.Reached(old(Contents()), Contents(), kept, used, index)
      ensures PrimariesSwept(kept, primary, {})
    {
      index, kept := used, {};
      sw.Start(Contents(), used);
      var todo := primary.Keys;
      while todo != {}
        invariant Valid() && sw.Reached(old(Contents()), Contents(), kept, used, index)
        invariant PrimariesSwept(kept, primary, todo)
        decreases todo
      {
        var duid :| duid in todo;
        ghost var p, k := primary, kept;
        index, kept := SweepPrimary(duid, sw, index, old(Contents()), kept, used);
        PrimarySwept(k, kept, p, primary, todo, duid);
        todo := todo - {duid};
      }
    }

    method SweepLists(sw: Sweep, used: set<u128>,
                      ghost m0: map<IaKey, Binding>, ghost before: set<IaKey>, ghost used0: set<u128>)
      returns (index: set<u128>, ghost kept: set<IaKey>)
      requires Valid() && sw.Reached(m0, Contents(), before, used0, used)
      requires PrimariesSwept(before, primary, {})
      modifies this
      ensures Valid() && sw.Reached(m0, Contents(), kept, used0, index)
      ensures Contents().Keys <= kept
    {
      index, kept := used, before;
      ListsStart(kept, primary, slots, chains);
      var todo := primary.Keys;
      while todo != {}
        invariant Valid() && sw.Reached(m0, Contents(), kept, used0, index)
        invariant ListsSwept(kept, primary, Contents(), todo)
        decreases todo
      {
        var duid :| duid in todo;
        ghost var p, k, m := primary, kept, Contents();
        index, kept := SweepRest(duid, sw, index, m0, kept, used0);
        ListSwept(k, kept, p, primary, m, Contents(), todo, duid);
        todo := todo - {duid};
      }
    }

    /** Drops every expired association and frees exactly the addresses of the dropped ones. */
    method RemoveExpired(now: u64, used: set<u128>) returns (index: set<u128>)
      requires Valid()
      modifies this
      ensures Valid()
      ensures Contents() == Unexpired(old(Contents()), now)
      ensures index == used - Dropped(old(Contents()), Contents())
    {
      index := RunSweep(Expiry(now), used);
    }

    /** Drops expired, out-of-range and duplicate associations of a restored store. */
    method RetainValid(now: u64, start: u128, end: u128, used: set<u128>) returns (index: set<u128>)
      requires Valid()
      modifies this
      ensures Valid()
      ensures Revalidated(old(Contents()), Contents(), now, start, end, used, index)
    {
      index := RunSweep(Revalidation(now, start, end), used);
    }

    method RunSweep(sw: Sweep, used: set<u128>) returns (index: set<u128>)
      requires Valid()
      modifies this
      ensures Valid()
      ensures sw.Expiry? ==> Contents() == Unexpired(old(Contents()), sw.now)
      ensures sw.Expiry? ==> index == used - Dropped(old(Contents()), Contents())
      ensures sw.Revalidation? ==> Revalidated(old(Contents()), Contents(), sw.now, sw.start, sw.end, used, index)
    {
      ghost var m0, kept := Contents(), {};
      index, kept := SweepPrimaries(sw, used);
      index, kept := SweepLists(sw, index, m0, kept, used);
      if sw.Expiry? {
        sw.ExpiryEnd(m0, Contents(), kept, used, index);
      } else {
        sw.RevalidationEnd(m0, Contents(), kept, used, index);
      }
    }

    /** Earliest expiry, or the end of time when the store is empty. */
    method NextExpiry() returns (earliest: u64)
      requires Valid()
      ensures IsEarliest(Contents(), earliest)
    {
      var e := EarliestPrimary(primary);
      earliest := EarliestAdditional(additional, e);
      EarliestOf(primary, additional, slots, chains, e, earliest);
    }

    method IsEmpty() returns (empty: bool)
      requires Valid()
      ensures empty <==> Contents() == map[]
    {
      StoreSize(primary, additional, slots, chains);
      empty := primary == map[];
      if empty {
        NoPrimaryNoSlot(primary, slots, chains);
        SlotsSize(additional, slots);
      }
    }
  }

  // ------------------------------------------------------------------ whole runs

  datatype Op = Put(duid: Bytes, value: IaValue) | Delete(duid: Bytes, iaid: Iaid) | Touch(duid: Bytes, iaid: Iaid, expiry: u64)

  /** The same operations on a plain map. */
  function Plain(m: map<IaKey, Binding>, op: Op): map<IaKey, Binding> {
    match op
    case Put(d, v) => if Storable(d) then m[(d, v.iaid) := v.Bound()] else m
    case Delete(d, i) => m - {(d, i)}
    case Touch(d, i, e) => if (d, i) in m then m[(d, i) := Binding(m[(d, i)].ip, e)] else m
  }

  function PlainRun(ops: seq<Op>): map<IaKey, Binding> {
    if ops == [] then map[] else Plain(PlainRun(ops[..|ops| - 1]), ops[|ops| - 1])
  }

  method Apply(store: IaMap, op: Op)
    requires store.Valid()
    modifies store
    ensures store.Valid() && store.Contents() == Plain(old(store.Contents()), op)
  {
    match op {
      case Put(d, v) =>
        var _ := store.Insert(d, v);
      case Delete(d, i) =>
        var _ := store.Remove(d, i);
      case Touch(d, i, e) =>
        var _ := store.SetExpiry(d, i, e);
    }
  }

  /** From the empty store, every operation sequence leaves what it leaves in a plain map. */
  method Replay(ops: seq<Op>) returns (store: IaMap)
    ensures store.Valid() && store.Contents() == PlainRun(ops)
  {
    store := new IaMap();
    for n := 0 to |ops|
      invariant fresh(store) && store.Valid() && store.Contents() == PlainRun(ops[..n])
    {
      assert ops[..n + 1][..n] == ops[..n];
      Apply(store, ops[n]);
    }
    assert ops[..|ops|] == ops;
  }
}
