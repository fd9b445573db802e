/**
 Following aliases through the answer section: whether an answer holds what was asked, and at
 which name the chain ends.
 */
module Aliases {
  import opened Basics
  import opened Dns

  const MAX_ALIASES := 16

  datatype AliasResult = NoAlias | AliasTo(name: Name) | Conflict

  type Records = seq<Record>

  predicate At(r: Record, cls: u16, name: Name) {
    r.class_ == cls && r.name == name
  }

  predicate IsCname(r: Record, cls: u16, name: Name) {
    At(r, cls, name) && r.data.Cname?
  }

  /** A record that may not stand beside an alias. */
  predicate Excludes(r: Record, cls: u16, name: Name) {
    At(r, cls, name) && r.rtype != CNAME && r.rtype != RRSIG && r.rtype != NSEC
  }

  /** A DNAME of a proper ancestor of `name`. */
  predicate Redirects(r: Record, cls: u16, name: Name) {
    r.class_ == cls && r.data.Dname? && |name| > |r.name| && Suffix(name, |r.name|) == r.name
  }

  predicate Disagrees(r: Record, d: Record)
    requires d.data.Dname?
  {
    At(r, d.class_, d.name) && r.data.Dname? && r.data.target != d.data.target
  }

  function Grafted(name: Name, d: Record): AliasResult
    requires d.data.Dname? && |name| > |d.name|
  {
    var n := FromLabels(name[..|name| - |d.name|] + d.data.target);
    if n.Some? then AliasTo(n.value) else NoAlias
  }

  ghost predicate Deepest(answers: Records, cls: u16, name: Name, d: Record) {
    d in answers && Redirects(d, cls, name) && forall r :: r in answers && Redirects(r, cls, name) ==> |r.name| <= |d.name|
  }

  /** Where `name` leads: its only CNAME, or the DNAME of its closest ancestor; contradictory records lead nowhere. */
  ghost function Alias(answers: Records, cls: u16, name: Name): AliasResult {
    if exists r :: r in answers && IsCname(r, cls, name) then
      var c :| c in answers && IsCname(c, cls, name);
      if exists r :: r in answers && (Excludes(r, cls, name) || (IsCname(r, cls, name) && r.data.target != c.data.target)) then Conflict
      else AliasTo(c.data.target)
    else if exists d :: Deepest(answers, cls, name, d) then
      var d :| Deepest(answers, cls, name, d);
      if exists r :: r in answers && Disagrees(r, d) then Conflict else Grafted(name, d)
    else NoAlias
  }

  /** Whichever closest DNAME is picked, the outcome is the same. */
  lemma DeepestAgree(answers: Records, cls: u16, name: Name, d: Record, e: Record)
    requires Deepest(answers, cls, name, d) && Deepest(answers, cls, name, e)
    ensures (exists r :: r in answers && Disagrees(r, d)) <==> (exists r :: r in answers && Disagrees(r, e))
    ensures !(exists r :: r in answers && Disagrees(r, d)) ==> Grafted(name, d) == Grafted(name, e)
  {
    assert d.name == e.name;
    if exists r :: r in answers && Disagrees(r, d) {
      var r :| r in answers && Disagrees(r, d);
      assert Disagrees(r, e) || Disagrees(d, e);
    }
    if exists r :: r in answers && Disagrees(r, e) {
      var r :| r in answers && Disagrees(r, e);
      assert Disagrees(r, d) || Disagrees(e, d);
    }
    assert Disagrees(e, d) || e.data.target == d.data.target;
  }

  /** Reads the first CNAME's target off the section; `conflict` when another one differs. */
  method CnameTarget(answers: Records, cls: u16, name: Name) returns (target: Option<Name>, conflict: bool)
    ensures conflict ==> exists r, q :: r in answers && q in answers && IsCname(r, cls, name) && IsCname(q, cls, name) && r.data.target != q.data.target
    ensures !conflict && target.None? ==> forall r :: r in answers ==> !IsCname(r, cls, name)
    ensures !conflict && target.Some? ==> exists r :: r in answers && IsCname(r, cls, name)
    ensures !conflict && target.Some? ==> forall r :: r in answers && IsCname(r, cls, name) ==> r.data.target == target.value
  {
    target, conflict := None, false;
    for i := 0 to |answers|
      invariant target.None? ==> forall j :: 0 <= j < i ==> !IsCname(answers[j], cls, name)
      invariant target.Some? ==> exists j :: 0 <= j < i && IsCname(answers[j], cls, name)
      invariant target.Some? ==> forall j :: 0 <= j < i && IsCname(answers[j], cls, name) ==> answers[j].data.target == target.value
    {
      if IsCname(answers[i], cls, name) {
        if target.Some? && target.value != answers[i].data.target {
          return None, true;
        }
        target := Some(answers[i].data.target);
      }
    }
  }

  /** The last of the longest redirecting DNAMEs. */
  method DeepestDname(answers: Records, cls: u16, name: Name) returns (best: Option<Record>)
    ensures best.Some? ==> Deepest(answers, cls, name, best.value)
    ensures best.None? ==> forall r :: r in answers ==> !Redirects(r, cls, name)
  {
    best := None;
    for i := 0 to |answers|
      invariant best.None? ==> forall j :: 0 <= j < i ==> !Redirects(answers[j], cls, name)
      invariant best.Some? ==> best.value in answers && Redirects(best.value, cls, name)
      invariant best.Some? ==> forall j :: 0 <= j < i && Redirects(answers[j], cls, name) ==> |answers[j].name| <= |best.value.name|
    {
      if Redirects(answers[i], cls, name) && (best.None? || |answers[i].name| >= |best.value.name|) {
        best := Some(answers[i]);
      }
    }
  }

  method NextAlias(answers: Records, cls: u16, name: Name) returns (a: AliasResult)
    ensures a == Alias(answers, cls, name)
  {
    var target, conflict := CnameTarget(answers, cls, name);
    if conflict {
      return Conflict;
    }
    if target.Some? {
      if exists r :: r in answers && Excludes(r, cls, name) {
        return Conflict;
      }
      return AliasTo(target.value);
    }
    var d := DeepestDname(answers, cls, name);
    if d.None? {
      return NoAlias;
    }
    forall e | Deepest(answers, cls, name, e)
      ensures (exists r :: r in answers && Disagrees(r, d.value)) <==> (exists r :: r in answers && Disagrees(r, e))
      ensures !(exists r :: r in answers && Disagrees(r, d.value)) ==> Grafted(name, d.value) == Grafted(name, e)
    {
      DeepestAgree(answers, cls, name, d.value, e);
    }
    if exists r :: r in answers && Disagrees(r, d.value) {
      return Conflict;
    }
    return Grafted(name, d.value);
  }

  // ------------------------------------------------------------------ the chain

  /** The `i`-th name on the chain from the question. */
  ghost function Walk(q: Question, answers: Records, i: nat): Option<Name> {
    if i == 0 then Some(q.name)
    else
      var p := Walk(q, answers, i - 1);
      if p.None? then None
      else
        var a := Alias(answers, q.qclass, p.value);
        if a.AliasTo? then Some(a.name) else None
  }

  /** The section holds what was asked, at `name`. */
  predicate Matches(q: Question, answers: Records, name: Name) {
    exists r :: r in answers && At(r, q.qclass, name) && (q.qtype == ANY || r.rtype == q.qtype)
  }

  ghost predicate MatchesAt(q: Question, answers: Records, i: nat) {
    var n := Walk(q, answers, i);
    n.Some? && !Alias(answers, q.qclass, n.value).Conflict? && Matches(q, answers, n.value)
  }

  /** Following fewer than sixteen aliases reaches a record of the type asked for. */
  ghost predicate Requested(q: Question, answers: Records) {
    exists i :: 0 <= i < MAX_ALIASES && MatchesAt(q, answers, i)
  }

  ghost predicate EndsAt(q: Question, answers: Records, i: nat) {
    var n := Walk(q, answers, i);
    n.Some? && Alias(answers, q.qclass, n.value).NoAlias?
  }

  lemma {:induction false} WalkEnds(q: Question, answers: Records, i: nat, m: nat)
    requires i <= m && Walk(q, answers, i).None?
    ensures Walk(q, answers, m).None?
  {
    hide Alias;
    if i < m {
      WalkEnds(q, answers, i, m - 1);
    }
  }

  /** A chain that comes back to a name stays among the names it has seen. */
  lemma {:induction false} WalkCycles(q: Question, answers: Records, j: nat, i: nat, m: nat) returns (k: nat)
    requires j < i <= m && Walk(q, answers, j) == Walk(q, answers, i)
    ensures k < i && Walk(q, answers, m) == Walk(q, answers, k)
  {
    hide Alias;
    if i == m {
      k := j;
    } else {
      k := WalkCycles(q, answers, j, i, m - 1);
      k := if k + 1 == i then j else k + 1;
    }
  }

  lemma CycleFindsNothing(q: Question, answers: Records, j: nat, i: nat)
    requires j < i && Walk(q, answers, j) == Walk(q, answers, i) && Walk(q, answers, i).Some?
    requires forall k :: 0 <= k < i ==> !MatchesAt(q, answers, k)
    ensures !Requested(q, answers)
  {
    hide Alias, Walk, Matches;
    forall m | i <= m < MAX_ALIASES
      ensures !MatchesAt(q, answers, m)
    {
      var k := WalkCycles(q, answers, j, i, m);
      assert !MatchesAt(q, answers, k);
    }
  }

  lemma CycleNeverEnds(q: Question, answers: Records, j: nat, i: nat)
    requires j < i && Walk(q, answers, j) == Walk(q, answers, i) && Walk(q, answers, i).Some?
    requires forall k :: 0 <= k < i ==> !EndsAt(q, answers, k)
    ensures forall m :: 0 <= m < MAX_ALIASES ==> !EndsAt(q, answers, m)
  {
    hide Alias, Walk;
    forall m | i <= m < MAX_ALIASES
      ensures !EndsAt(q, answers, m)
    {
      var k := WalkCycles(q, answers, j, i, m);
      assert !EndsAt(q, answers, k);
    }
  }

  /** Past the end of the chain there is no match. */
  lemma StopFindsNothing(q: Question, answers: Records, i: nat)
    requires Walk(q, answers, i).Some? && !Alias(answers, q.qclass, Walk(q, answers, i).value).AliasTo?
    requires forall k :: 0 <= k <= i ==> !MatchesAt(q, answers, k)
    ensures !Requested(q, answers)
  {
    hide Alias, Matches;
    forall m | i < m < MAX_ALIASES
      ensures !MatchesAt(q, answers, m)
    {
      WalkEnds(q, answers, i + 1, m);
    }
  }

  /** Stopping at a repeated name is a shortcut: it changes no answer. */
  method HasRequestedAnswer(q: Question, answers: Records) returns (ok: bool)
    ensures ok <==> Requested(q, answers)
  {
    hide Alias, Matches;
    var current, seen := q.name, {};
    for i := 0 to MAX_ALIASES
      invariant Walk(q, answers, i) == Some(current)
      invariant forall k :: 0 <= k < i ==> !MatchesAt(q, answers, k)
      invariant forall n :: n in seen ==> exists k :: 0 <= k < i && Walk(q, answers, k) == Some(n)
    {
      var alias := NextAlias(answers, q.qclass, current);
      if alias.Conflict? {
        StopFindsNothing(q, answers, i);
        return false;
      }
      if Matches(q, answers, current) {
        assert MatchesAt(q, answers, i);
        return true;
      }
      if current in seen {
        ghost var j :| 0 <= j < i && Walk(q, answers, j) == Some(current);
        CycleFindsNothing(q, answers, j, i);
        return false;
      }
      seen := seen + {current};
      if alias.NoAlias? {
        StopFindsNothing(q, answers, i);
        return false;
      }
      current := alias.name;
    }
    return false;
  }

  /** The name at which the chain ends; none for a cycle, a contradiction or a chain of sixteen. */
  method TerminalAnswerName(q: Question, answers: Records) returns (name: Option<Name>)
    ensures name.Some? ==> exists i :: 0 <= i < MAX_ALIASES && EndsAt(q, answers, i) && Walk(q, answers, i) == name
    ensures name.None? ==> forall i :: 0 <= i < MAX_ALIASES ==> !EndsAt(q, answers, i)
  {
    hide Alias;
    var current, seen := q.name, {};
    for i := 0 to MAX_ALIASES
      invariant Walk(q, answers, i) == Some(current)
      invariant forall k :: 0 <= k < i ==> !EndsAt(q, answers, k)
      invariant forall n :: n in seen ==> exists k :: 0 <= k < i && Walk(q, answers, k) == Some(n)
    {
      if current in seen {
        ghost var j :| 0 <= j < i && Walk(q, answers, j) == Some(current);
        CycleNeverEnds(q, answers, j, i);
        return None;
      }
      seen := seen + {current};
      var alias := NextAlias(answers, q.qclass, current);
      match alias {
        case AliasTo(next) => current := next;
        case NoAlias => assert EndsAt(q, answers, i); return Some(current);
        case Conflict =>
          forall m | i < m < MAX_ALIASES
            ensures !EndsAt(q, answers, m)
          {
            WalkEnds(q, answers, i + 1, m);
          }
          return None;
      }
    }
    return None;
  }

  /** A chain ends at one name at most. */
  lemma EndIsUnique(q: Question, answers: Records, i: nat, j: nat)
    requires EndsAt(q, answers, i) && EndsAt(q, answers, j)
    ensures i == j
  {
    hide Alias;
    if i < j {
      WalkEnds(q, answers, i + 1, j);
    } else if j < i {
      WalkEnds(q, answers, j + 1, i);
    }
  }
}
