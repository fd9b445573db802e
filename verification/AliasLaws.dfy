/** Alias chains by their records (RFC 1034, RFC 6672): where a name leads, and when an answer holds what was asked. */
module AliasLaws {
  import opened Basics
  import opened Dns
  import opened Aliases

  /** A CNAME of the name. */
  predicate Cname(r: Record, cls: u16, name: Name, target: Name) {
    r.class_ == cls && r.name == name && r.data == RData.Cname(target)
  }

  /** A record that may stand beside a CNAME: the CNAME itself, a signature, an NSEC record. */
  predicate MayAccompany(r: Record) {
    r.rtype in {5, 46, 47}
  }

  /** The name has a CNAME. */
  ghost predicate HasCname(answers: Records, cls: u16, name: Name) {
    exists r, target :: r in answers && Cname(r, cls, name, target)
  }

  /** All CNAMEs of the name have this target, and nothing stands beside them that may not. */
  ghost predicate LeadsTo(answers: Records, cls: u16, name: Name, target: Name) {
    && (exists r :: r in answers && Cname(r, cls, name, target))
    && (forall r, other :: r in answers && Cname(r, cls, name, other) ==> other == target)
    && (forall r :: r in answers && r.class_ == cls && r.name == name ==> MayAccompany(r))
  }

  /** A DNAME at the last labels of the name, which are not all of it. */
  predicate Dname(r: Record, cls: u16, name: Name, front: Name, owner: Name, target: Name) {
    r.class_ == cls && r.name == owner && r.data == RData.Dname(target) && front != [] && name == front + owner
  }

  /** The owner is the closest name above that has a DNAME. */
  ghost predicate Closest(answers: Records, cls: u16, name: Name, front: Name, owner: Name, target: Name) {
    && (exists r :: r in answers && Dname(r, cls, name, front, owner, target))
    && (forall r, f, o, t :: r in answers && Dname(r, cls, name, f, o, t) ==> |o| <= |owner|)
  }

  /** All DNAMEs of the owner have this target. */
  ghost predicate Agreed(answers: Records, cls: u16, owner: Name, target: Name) {
    forall r, t :: r in answers && r.class_ == cls && r.name == owner && r.data == RData.Dname(t) ==> t == target
  }

  /** Bytes of a name on the wire. */
  function Size(labels: seq<Label>): nat {
    if labels == [] then 1 else 1 + |labels[0]| + Size(labels[1..])
  }

  /** Labels of 1 to 63 bytes, 255 bytes in all. */
  predicate Fits(labels: seq<Label>) {
    (forall i :: 0 <= i < |labels| ==> 1 <= |labels[i]| <= 63) && Size(labels) <= 255
  }

  /** Where a name leads, by its own CNAME or else by the closest DNAME above. */
  ghost predicate Redirected(answers: Records, cls: u16, name: Name, to: Name) {
    if HasCname(answers, cls, name) then LeadsTo(answers, cls, name, to)
    else exists front, owner, target :: Closest(answers, cls, name, front, owner, target) && Agreed(answers, cls, owner, target) && to == front + target && Fits(to)
  }

  /** Records contradict each other. */
  ghost predicate Contradicts(answers: Records, cls: u16, name: Name) {
    if HasCname(answers, cls, name) then forall to :: !LeadsTo(answers, cls, name, to)
    else exists front, owner, target :: Closest(answers, cls, name, front, owner, target) && !Agreed(answers, cls, owner, target)
  }

  lemma {:induction false} SizeIs(labels: seq<Label>)
    ensures WireLength(labels) == Size(labels)
  {
    if labels != [] {
      SizeIs(labels[1..]);
    }
  }

  lemma FitsIs(labels: seq<Label>)
    ensures FromLabels(labels) == if Fits(labels) then Some(labels) else None
  {
    SizeIs(labels);
  }

  lemma CnameIs(answers: Records, cls: u16, name: Name)
    ensures HasCname(answers, cls, name) <==> exists r :: r in answers && IsCname(r, cls, name)
    ensures forall r :: IsCname(r, cls, name) <==> Cname(r, cls, name, if r.data.Cname? then r.data.target else [])
  {
    if r :| r in answers && IsCname(r, cls, name) {
      assert Cname(r, cls, name, r.data.target);
    }
  }

  lemma CnameLaw(answers: Records, cls: u16, name: Name)
    requires HasCname(answers, cls, name)
    ensures forall to :: Alias(answers, cls, name) == AliasTo(to) <==> LeadsTo(answers, cls, name, to)
    ensures Alias(answers, cls, name) == Conflict <==> forall to :: !LeadsTo(answers, cls, name, to)
  {
    CnameIs(answers, cls, name);
    var c :| c in answers && IsCname(c, cls, name);
    assert Cname(c, cls, name, c.data.target);
    forall r | r in answers && r.class_ == cls && r.name == name
      ensures MayAccompany(r) <==> !Excludes(r, cls, name)
    {
    }
    assert forall r :: r in answers && IsCname(r, cls, name) ==> Cname(r, cls, name, r.data.target);
  }

  lemma DnameIs(r: Record, cls: u16, name: Name)
    ensures Redirects(r, cls, name) <==> exists front, owner, target :: Dname(r, cls, name, front, owner, target)
    ensures Redirects(r, cls, name) ==> Dname(r, cls, name, name[..|name| - |r.name|], r.name, r.data.target)
    ensures forall front, owner, target :: Dname(r, cls, name, front, owner, target) ==>
      front == name[..|name| - |r.name|] && owner == r.name && r.data == RData.Dname(target)
  {
    if Redirects(r, cls, name) {
      assert name == name[..|name| - |r.name|] + r.name;
      assert Dname(r, cls, name, name[..|name| - |r.name|], r.name, r.data.target);
    }
    forall front, owner, target | Dname(r, cls, name, front, owner, target)
      ensures Redirects(r, cls, name) && front == name[..|name| - |r.name|] && owner == r.name
    {
      assert name[|front|..] == owner;
    }
  }

  lemma ClosestIs(answers: Records, cls: u16, name: Name, front: Name, owner: Name, target: Name)
    ensures Closest(answers, cls, name, front, owner, target) <==>
      exists d :: Deepest(answers, cls, name, d) && Dname(d, cls, name, front, owner, target)
  {
    hide Dname, Redirects;
    forall r
      ensures Redirects(r, cls, name) <==> exists f, o, t :: Dname(r, cls, name, f, o, t)
      ensures forall f, o, t :: Dname(r, cls, name, f, o, t) ==> o == r.name
    {
      DnameIs(r, cls, name);
    }
    if Closest(answers, cls, name, front, owner, target) {
      var d :| d in answers && Dname(d, cls, name, front, owner, target);
      forall r | r in answers && Redirects(r, cls, name)
        ensures |r.name| <= |d.name|
      {
        var f, o, t :| Dname(r, cls, name, f, o, t);
      }
      assert Deepest(answers, cls, name, d);
    }
  }

  lemma AgreedIs(answers: Records, cls: u16, name: Name, d: Record, front: Name, owner: Name, target: Name)
    requires Deepest(answers, cls, name, d) && Dname(d, cls, name, front, owner, target)
    ensures Agreed(answers, cls, owner, target) <==> !exists r :: r in answers && Disagrees(r, d)
  {
    if !Agreed(answers, cls, owner, target) {
      var r, t :| r in answers && r.class_ == cls && r.name == owner && r.data == RData.Dname(t) && t != target;
      assert Disagrees(r, d);
    }
    if r :| r in answers && Disagrees(r, d) {
      assert r.data == RData.Dname(r.data.target);
    }
  }

  lemma GraftIs(name: Name, d: Record, cls: u16, front: Name, owner: Name, target: Name)
    requires Dname(d, cls, name, front, owner, target)
    ensures d.data.Dname? && |name| > |d.name| && Grafted(name, d) == if Fits(front + target) then AliasTo(front + target) else NoAlias
  {
    DnameIs(d, cls, name);
    FitsIs(front + target);
  }

  lemma DnameLaw(answers: Records, cls: u16, name: Name)
    requires !HasCname(answers, cls, name)
    ensures forall to :: Alias(answers, cls, name) == AliasTo(to) <==> Redirected(answers, cls, name, to)
    ensures Alias(answers, cls, name) == Conflict <==> Contradicts(answers, cls, name)
  {
    hide Dname, Redirects, Disagrees, Grafted, Fits, HasCname, Agreed, Closest;
    CnameIs(answers, cls, name);
    forall front, owner, target
      ensures Closest(answers, cls, name, front, owner, target) <==> exists d :: Deepest(answers, cls, name, d) && Dname(d, cls, name, front, owner, target)
    {
      ClosestIs(answers, cls, name, front, owner, target);
    }
    if exists d :: Deepest(answers, cls, name, d) {
      var d :| Deepest(answers, cls, name, d);
      DnameIs(d, cls, name);
      forall e, front, owner, target | Deepest(answers, cls, name, e) && Dname(e, cls, name, front, owner, target)
        ensures Agreed(answers, cls, owner, target) <==> Alias(answers, cls, name) != Conflict
        ensures Agreed(answers, cls, owner, target) ==> Alias(answers, cls, name) == if Fits(front + target) then AliasTo(front + target) else NoAlias
      {
        OneDname(answers, cls, name, e, front, owner, target);
      }
      var f, o, t :| Dname(d, cls, name, f, o, t);
      assert Closest(answers, cls, name, f, o, t);
    }
  }

  lemma OneDname(answers: Records, cls: u16, name: Name, e: Record, front: Name, owner: Name, target: Name)
    requires !(exists r :: r in answers && IsCname(r, cls, name)) && Deepest(answers, cls, name, e) && Dname(e, cls, name, front, owner, target)
    ensures Agreed(answers, cls, owner, target) <==> Alias(answers, cls, name) != Conflict
    ensures Agreed(answers, cls, owner, target) ==> Alias(answers, cls, name) == if Fits(front + target) then AliasTo(front + target) else NoAlias
  {
    hide Dname, Disagrees, Grafted, Fits, Agreed, IsCname;
    AgreedIs(answers, cls, name, e, front, owner, target);
    GraftIs(name, e, cls, front, owner, target);
    forall d | Deepest(answers, cls, name, d)
      ensures (exists r :: r in answers && Disagrees(r, e)) <==> (exists r :: r in answers && Disagrees(r, d))
      ensures !(exists r :: r in answers && Disagrees(r, e)) ==> Grafted(name, e) == Grafted(name, d)
    {
      DeepestAgree(answers, cls, name, e, d);
    }
    GraftedNeverConflicts(name, e);
  }

  lemma GraftedNeverConflicts(name: Name, d: Record)
    requires d.data.Dname? && |name| > |d.name|
    ensures Grafted(name, d) != Conflict
  {
  }

  /** A name leads exactly where its records say, and to a contradiction exactly when they contradict each other. */
  lemma AliasLaw(answers: Records, cls: u16, name: Name)
    ensures forall to :: Alias(answers, cls, name) == AliasTo(to) <==> Redirected(answers, cls, name, to)
    ensures Alias(answers, cls, name) == Conflict <==> Contradicts(answers, cls, name)
  {
    hide Alias, HasCname, LeadsTo, Closest, Agreed, Fits;
    if HasCname(answers, cls, name) {
      CnameLaw(answers, cls, name);
    } else {
      DnameLaw(answers, cls, name);
    }
  }

  // ------------------------------------------------------------------ chains

  /** A chain of aliases from the question's name. */
  ghost predicate Chain(q: Question, answers: Records, chain: seq<Name>) {
    && chain != [] && chain[0] == q.name
    && forall i :: 0 < i < |chain| ==> Redirected(answers, q.qclass, chain[i - 1], chain[i])
  }

  lemma {:induction false} WalkChain(q: Question, answers: Records, i: nat) returns (chain: seq<Name>)
    requires Walk(q, answers, i).Some?
    ensures Chain(q, answers, chain) && |chain| == i + 1 && chain[i] == Walk(q, answers, i).value
  {
    hide Alias, Redirected;
    if i == 0 {
      chain := [q.name];
    } else {
      var front := WalkChain(q, answers, i - 1);
      AliasLaw(answers, q.qclass, front[i - 1]);
      chain := front + [Walk(q, answers, i).value];
    }
  }

  lemma {:induction false} ChainWalk(q: Question, answers: Records, chain: seq<Name>, i: nat)
    requires Chain(q, answers, chain) && i < |chain|
    ensures Walk(q, answers, i) == Some(chain[i])
  {
    hide Alias, Redirected;
    if i > 0 {
      ChainWalk(q, answers, chain, i - 1);
      AliasLaw(answers, q.qclass, chain[i - 1]);
    }
  }

  /** The section has a record of the type asked for, or of any type if any is asked for, at the name. */
  ghost predicate Answers(q: Question, answers: Records, name: Name) {
    !Contradicts(answers, q.qclass, name) && exists r :: r in answers && r.class_ == q.qclass && r.name == name && (q.qtype == 255 || r.rtype == q.qtype)
  }

  /** An answer holds what was asked exactly when a chain of at most sixteen names leads to it. */
  lemma RequestedLaw(q: Question, answers: Records)
    ensures Requested(q, answers) <==> exists chain :: Chain(q, answers, chain) && |chain| <= 16 && Answers(q, answers, chain[|chain| - 1])
  {
    hide Alias, Walk, Redirected, Contradicts;
    if Requested(q, answers) {
      var i :| 0 <= i < 16 && MatchesAt(q, answers, i);
      var chain := WalkChain(q, answers, i);
      AliasLaw(answers, q.qclass, chain[i]);
    }
    if chain :| Chain(q, answers, chain) && |chain| <= 16 && Answers(q, answers, chain[|chain| - 1]) {
      var i := |chain| - 1;
      ChainWalk(q, answers, chain, i);
      AliasLaw(answers, q.qclass, chain[i]);
      assert MatchesAt(q, answers, i);
    }
  }
}
