/**
 Leader completeness: what a majority has confirmed in its leader's term is in the log of every
 later leader. It needs one thing of the voters, that they still hold the last entry of their log.
 */
module RaftSafety {
  import opened Basics
  import opened Raft
  import opened RaftLogs
  import opened RaftElection

  // ------------------------------------------------------------------ invariant

  /** Position `i` of the log that won term `t` was written in that term. */
  predicate Own(h: History, t: nat, i: nat) {
    t in h.log && 1 <= i <= |h.log[t]| && h.log[t][i - 1].term == t
  }

  /** A log holds everything up to that position. */
  ghost predicate Has(h: History, log: Log, t: nat, i: nat)
    requires Own(h, t, i)
  {
    Prefix(h.log[t][..i], log)
  }

  /** Some leader between the terms does not have it. */
  ghost predicate Lost(h: History, t: nat, i: nat, bound: nat)
    requires Own(h, t, i)
  {
    exists u :: u in h.log && t < u <= bound && !Has(h, h.log[u], t, i)
  }

  ghost predicate KeptIn(h: History, log: Log, bound: nat, t: nat, i: nat)
    requires Own(h, t, i)
  {
    Has(h, log, t, i) || Lost(h, t, i, bound)
  }

  /** What a node confirmed it still has, unless a later leader lacks it. */
  ghost predicate KeepOk(h: History, j: NodeId, n: Node) {
    forall t: nat, i: nat :: Own(h, t, i) && Level(h, j, t) >= i ==> KeptIn(h, n.log, n.term, t, i)
  }

  /** The same for the log a node had when it voted. */
  ghost predicate BallotSafe(h: History, j: NodeId, u: nat)
    requires (j, u) in h.ballots
  {
    forall t: nat, i: nat :: Own(h, t, i) && t < u && Level(h, j, t) >= i ==> KeptIn(h, h.ballots[(j, u)].log, u, t, i)
  }

  /** A vote went to a candidate whose log was not behind. */
  ghost predicate BallotUp(h: History, j: NodeId, u: nat)
    requires (j, u) in h.ballots
  {
    var c := h.ballots[(j, u)].candidate;
    j != c ==>
      && VotedFor(h, c, u, c)
      && UpToDate(LastTerm(h.ballots[(c, u)].log), |h.ballots[(c, u)].log|, LastTerm(h.ballots[(j, u)].log), |h.ballots[(j, u)].log|)
  }

  ghost predicate QuorumOf(ids: set<NodeId>, q: set<NodeId>) {
    q <= ids && |q| >= Quorum(ids)
  }

  /** Every node of `q` has confirmed the position or may still do so. */
  ghost predicate Choosable(nodes: map<NodeId, Node>, h: History, q: set<NodeId>, t: nat, i: nat) {
    forall j :: j in q ==> j in nodes && (Level(h, j, t) >= i || nodes[j].term <= t)
  }

  /** If a majority can still confirm a position, the later leader has it. */
  ghost predicate ChosenOk(ids: set<NodeId>, nodes: map<NodeId, Node>, h: History, t: nat, u: nat, i: nat)
    requires Own(h, t, i) && u in h.log
  {
    forall q :: QuorumOf(ids, q) && Choosable(nodes, h, q, t, i) ==> Has(h, h.log[u], t, i)
  }

  ghost predicate LevelOk(nodes: map<NodeId, Node>, h: History, j: NodeId, t: nat) {
    Level(h, j, t) > 0 ==> t in h.log && Level(h, j, t) <= |h.log[t]| && j in nodes && t <= nodes[j].term
  }

  ghost predicate SafeInv(s: State) {
    && (forall j: NodeId, t: nat :: LevelOk(s.nodes, s.h, j, t))
    && (forall t :: t in s.h.leader && t in s.h.log ==> Level(s.h, s.h.leader[t], t) == |s.h.log[t]|)
    && (forall j :: j in s.nodes ==> KeepOk(s.h, j, s.nodes[j]))
    && (forall j, u :: (j, u) in s.h.ballots ==> BallotSafe(s.h, j, u) && BallotUp(s.h, j, u))
    && (forall t: nat, u: nat, i: nat :: Own(s.h, t, i) && u in s.h.log && t < u ==> ChosenOk(s.ids, s.nodes, s.h, t, u, i))
  }

  // ------------------------------------------------------------------ steps that record nothing

  lemma LostLater(h: History, t: nat, i: nat, bound: nat, bound': nat)
    requires Own(h, t, i) && Lost(h, t, i, bound) && bound <= bound'
    ensures Lost(h, t, i, bound')
  {
  }

  /** A node with the same log in the same or a later term. */
  lemma QuietSafe(s: State, n: NodeId, node: Node, out: set<Msg>)
    requires SafeInv(s) && n in s.nodes && node.log == s.nodes[n].log && node.term >= s.nodes[n].term
    ensures SafeInv(Put(s, n, node, out))
  {
    hide Has, BallotSafe, BallotUp, Lost;
    var s' := Put(s, n, node, out);
    forall j: NodeId, t: nat
      ensures LevelOk(s'.nodes, s'.h, j, t)
    {
      assert LevelOk(s.nodes, s.h, j, t);
    }
    forall j | j in s'.nodes
      ensures KeepOk(s'.h, j, s'.nodes[j])
    {
      assert KeepOk(s.h, j, s.nodes[j]);
      forall t: nat, i: nat | Own(s.h, t, i) && Level(s.h, j, t) >= i
        ensures KeptIn(s.h, s'.nodes[j].log, s'.nodes[j].term, t, i)
      {
        assert KeptIn(s.h, s.nodes[j].log, s.nodes[j].term, t, i);
        if Lost(s.h, t, i, s.nodes[j].term) {
          LostLater(s.h, t, i, s.nodes[j].term, s'.nodes[j].term);
        }
      }
    }
    forall t: nat, u: nat, i: nat | Own(s.h, t, i) && u in s.h.log && t < u
      ensures ChosenOk(s.ids, s'.nodes, s.h, t, u, i)
    {
      assert ChosenOk(s.ids, s.nodes, s.h, t, u, i);
      forall q | QuorumOf(s.ids, q) && Choosable(s'.nodes, s.h, q, t, i)
        ensures Has(s.h, s.h.log[u], t, i)
      {
        assert Choosable(s.nodes, s.h, q, t, i);
      }
    }
  }

  // ------------------------------------------------------------------ votes

  /** Recording a vote changes nothing else. */
  lemma CastSafe(s: State, n: NodeId, u: nat, b: Ballot)
    requires SafeInv(s) && n in s.nodes && u == s.nodes[n].term && b.log == s.nodes[n].log
    requires b.candidate != n ==>
      && VotedFor(s.h, b.candidate, u, b.candidate)
      && UpToDate(LastTerm(s.h.ballots[(b.candidate, u)].log), |s.h.ballots[(b.candidate, u)].log|, LastTerm(b.log), |b.log|)
    ensures SafeInv(s.(h := Cast(s.h, n, u, b)))
  {
    hide Has, Lost;
    var h := Cast(s.h, n, u, b);
    forall j: NodeId, t: nat
      ensures LevelOk(s.nodes, h, j, t)
    {
      assert LevelOk(s.nodes, s.h, j, t);
    }
    CastSame(s.h, h);
    forall j | j in s.nodes
      ensures KeepOk(h, j, s.nodes[j])
    {
      assert KeepOk(s.h, j, s.nodes[j]);
      assert forall t: nat, i: nat :: Own(h, t, i) && Level(h, j, t) >= i ==> Own(s.h, t, i) && Level(s.h, j, t) >= i;
    }
    forall j, v | (j, v) in h.ballots
      ensures BallotSafe(h, j, v) && BallotUp(h, j, v)
    {
      if (j, v) in s.h.ballots {
        assert BallotSafe(s.h, j, v) && BallotUp(s.h, j, v);
      } else {
        assert KeepOk(s.h, n, s.nodes[n]);
      }
      assert forall t: nat, i: nat :: Own(h, t, i) && Level(h, j, t) >= i ==> Own(s.h, t, i) && Level(s.h, j, t) >= i;
    }
    forall t: nat, w: nat, i: nat | Own(h, t, i) && w in h.log && t < w
      ensures ChosenOk(s.ids, s.nodes, h, t, w, i)
    {
      assert ChosenOk(s.ids, s.nodes, s.h, t, w, i);
      assert forall q :: Choosable(s.nodes, h, q, t, i) ==> Choosable(s.nodes, s.h, q, t, i);
    }
  }

  /** With the same logs, having and losing are the same. */
  lemma CastSame(h: History, h': History)
    requires h'.log == h.log
    ensures forall t: nat, i: nat, log :: Own(h, t, i) ==> (Has(h', log, t, i) <==> Has(h, log, t, i))
    ensures forall t: nat, i: nat, bound: nat :: Own(h, t, i) ==> (Lost(h', t, i, bound) <==> Lost(h, t, i, bound))
  {
    forall t: nat, i: nat, bound: nat | Own(h, t, i)
      ensures Lost(h', t, i, bound) <==> Lost(h, t, i, bound)
    {
      if Lost(h, t, i, bound) {
        var u :| u in h.log && t < u <= bound && !Has(h, h.log[u], t, i);
        assert !Has(h', h'.log[u], t, i);
      }
      if Lost(h', t, i, bound) {
        var u :| u in h'.log && t < u <= bound && !Has(h', h'.log[u], t, i);
        assert !Has(h, h.log[u], t, i);
      }
    }
  }

  lemma StandSafe(s: State, n: NodeId)
    requires SafeInv(s) && n in s.nodes
    ensures SafeInv(Stand(s, n))
  {
    hide SafeInv;
    var node := ToCandidate(n, s.nodes[n]);
    QuietSafe(s, n, node, {});
    CastSafe(Put(s, n, node, {}), n, node.term, Ballot(n, node.log));
  }

  /** The condition on voters: the last entry of a nonempty log is still held. */
  predicate HoldsLast(n: Node) {
    LastLogTerm(n) == LastTerm(n.log)
  }

  lemma VoteSafe(s: State, m: Msg)
    requires Inv(s) && SafeInv(s) && m in s.msgs && m.RequestVote? && m.to in s.nodes && m.from != m.to
    requires Grants(s.nodes[m.to], m.term, m.from, m.lastIndex, m.lastTerm) && HoldsLast(s.nodes[m.to])
    ensures SafeInv(Vote(s, m.to, m.from))
  {
    hide SafeInv, Inv;
    AtMsg(s, m);
    var n, node := m.to, s.nodes[m.to].(voted := Some(m.from));
    QuietSafe(s, n, node, {VoteResp(n, m.from, node.term, true)});
    CastSafe(Put(s, n, node, {VoteResp(n, m.from, node.term, true)}), n, node.term, Ballot(m.from, node.log));
  }

  // ------------------------------------------------------------------ taking entries

  lemma TakenKeeps(h: History, was: Log, prev: nat, entries: Log, u: nat, t: nat, i: nat)
    requires Own(h, t, i) && t <= u && u in h.log && Has(h, was, t, i)
    requires prev <= |was| && prev + |entries| <= |h.log[u]| && entries == h.log[u][prev..prev + |entries|] && was[..prev] == h.log[u][..prev]
    ensures Has(h, Merge(was, prev, entries), t, i) || (t < u && !Has(h, h.log[u], t, i))
  {
    MergedWithLeader(was, prev, entries, h.log[u]);
    var r, end, x, c := Merge(was, prev, entries), prev + |entries|, h.log[t][..i], Conflict(was, prev, entries);
    if c.None? {
      assert r[..|was|][..i] == r[..i];
    } else if c.value > i {
      assert r[..c.value - 1][..i] == r[..i] && was[..c.value - 1][..i] == was[..i];
    } else {
      assert was[..i][c.value - 1] == was[c.value - 1] && x[c.value - 1] == was[c.value - 1];
      assert r[c.value - 1] == h.log[u][c.value - 1];
      assert |h.log[u]| >= i ==> h.log[u][..i][c.value - 1] == h.log[u][c.value - 1];
    }
  }

  /** What the node that took the entries can say of everything it confirmed, these entries included. */
  lemma TakeKeepOk(h: History, h': History, j: NodeId, was: Node, node: Node, prev: nat, entries: Log)
    requires KeepOk(h, j, was) && node.term == was.term && was.term in h.log && h'.log == h.log
    requires prev <= |was.log| && prev + |entries| <= |h.log[was.term]| && entries == h.log[was.term][prev..prev + |entries|]
    requires was.log[..prev] == h.log[was.term][..prev] && node.log == Merge(was.log, prev, entries)
    requires forall t: nat :: Level(h', j, t) == if t == was.term then Max(Level(h, j, t), prev + |entries|) else Level(h, j, t)
    requires forall t: nat :: Level(h, j, t) > 0 ==> t <= was.term
    ensures KeepOk(h', j, node)
  {
    hide Lost, Merge;
    CastSame(h, h');
    forall t: nat, i: nat | Own(h', t, i) && Level(h', j, t) >= i
      ensures KeptIn(h', node.log, node.term, t, i)
    {
      var l, end := h.log[was.term], prev + |entries|;
      MergedWithLeader(was.log, prev, entries, l);
      if t == was.term && i <= end {
        assert node.log[..end][..i] == node.log[..i] && l[..end][..i] == l[..i];
        assert Has(h, node.log, t, i);
      } else {
        assert KeptIn(h, was.log, was.term, t, i);
        if Has(h, was.log, t, i) {
          TakenKeeps(h, was.log, prev, entries, was.term, t, i);
          if t < was.term && !Has(h, l, t, i) {
            LostBy(h, t, i, was.term, node.term);
          }
        }
      }
    }
  }

  lemma LostBy(h: History, t: nat, i: nat, u: nat, bound: nat)
    requires Own(h, t, i) && u in h.log && t < u <= bound && !Has(h, h.log[u], t, i)
    ensures Lost(h, t, i, bound)
  {
  }

  /** A node confirms more of its leader's log, for good reason. */
  lemma RaiseSafe(s: State, n: NodeId, node: Node, out: set<Msg>, index: nat)
    requires Inv(s) && SafeInv(s) && n in s.nodes && node.term == s.nodes[n].term && node.term in s.h.log && index <= |s.h.log[node.term]|
    requires KeepOk(Raised(s.h, n, node.term, index), n, node)
    ensures SafeInv(Put(s, n, node, out).(h := Raised(s.h, n, node.term, index)))
  {
    hide Has, Lost, Inv, BallotUp, BallotSafe, KeepOk;
    VotesCastIn(s, n);
    LevelBound(s, node.term);
    var h' := Raised(s.h, n, node.term, index);
    var s' := Put(s, n, node, out).(h := h');
    CastSame(s.h, h');
    forall j: NodeId, t: nat
      ensures LevelOk(s'.nodes, h', j, t)
    {
      assert LevelOk(s.nodes, s.h, j, t);
    }
    forall j | j in s'.nodes
      ensures KeepOk(h', j, s'.nodes[j])
    {
      if j != n {
        assert KeepOk(s.h, j, s.nodes[j]);
        KeepSame(s.h, h', j, s.nodes[j]);
      }
    }
    forall j, u | (j, u) in h'.ballots
      ensures BallotSafe(h', j, u) && BallotUp(h', j, u)
    {
      assert BallotSafe(s.h, j, u) && BallotUp(s.h, j, u);
      BallotSame(s.h, h', j, u);
    }
    forall t: nat, u: nat, i: nat | Own(h', t, i) && u in h'.log && t < u
      ensures ChosenOk(s.ids, s'.nodes, h', t, u, i)
    {
      assert ChosenOk(s.ids, s.nodes, s.h, t, u, i);
      assert forall q :: Choosable(s'.nodes, h', q, t, i) ==> Choosable(s.nodes, s.h, q, t, i);
    }
  }

  lemma TakeSafe(s: State, m: Msg)
    requires Inv(s) && SafeInv(s) && m in s.msgs && m.Append? && m.to in s.nodes && m.from != m.to && m.term == s.nodes[m.to].term
    requires Fits(s.nodes[m.to], m.prev, m.prevTerm, m.entries)
    ensures m.prev <= |s.nodes[m.to].log| && SafeInv(Take(s, m.to, m.from, m.prev, m.entries, m.leaderCommit))
  {
    hide Has, Lost, Merge, Inv, SafeInv;
    FitsAgrees(s, m);
    var n, was, end := m.to, s.nodes[m.to], m.prev + |m.entries|;
    var node := Taken(was, m.prev, m.entries, m.leaderCommit);
    LevelsBelow(s, n);
    KeepsAt(s, n);
    TakeKeepOk(s.h, Raised(s.h, n, was.term, end), n, was, node, m.prev, m.entries);
    RaiseSafe(s, n, node, {AppendResp(n, m.from, node.term, true, end)}, end);
  }

  lemma KeepsAt(s: State, n: NodeId)
    requires SafeInv(s) && n in s.nodes
    ensures KeepOk(s.h, n, s.nodes[n])
  {
  }

  // ------------------------------------------------------------------ snapshots

  /** The beginning of the leader's log, put in place of a log that differs from it there, loses only what that leader lacks. */
  lemma InstalledKeeps(h: History, was: Log, u: nat, index: nat, t: nat, i: nat)
    requires Own(h, t, i) && t <= u && u in h.log && 1 <= index <= |h.log[u]| && Has(h, was, t, i)
    requires |was| < index || was[index - 1].term != h.log[u][index - 1].term
    ensures Has(h, h.log[u][..index], t, i) || (t < u && !Has(h, h.log[u], t, i))
  {
    var l, x := h.log[u], h.log[t][..i];
    if i > index {
      assert was[..i][index - 1] == was[index - 1] && x[index - 1] == was[index - 1];
      assert |l| >= i ==> l[..i][index - 1] == l[index - 1];
    } else if |l| >= i && l[..i] == x {
      assert l[..index][..i] == l[..i];
    }
  }

  lemma InstallKeepOk(s: State, n: NodeId)
    requires Inv(s) && SafeInv(s) && n in s.nodes && Waiting(s.nodes[n])
    ensures KeepOk(Raised(s.h, n, s.nodes[n].term, s.nodes[n].incoming.value.index), n, Installed(s.nodes[n], s.nodes[n].incoming.value))
  {
    hide Lost, Inv, SafeInv, LogOk;
    var was, i := s.nodes[n], s.nodes[n].incoming.value;
    var node, h, h' := Installed(was, i), s.h, Raised(s.h, n, was.term, i.index);
    InstalledLog(s, n);
    LevelsBelow(s, n);
    KeepsAt(s, n);
    CastSame(h, h');
    var l := h.log[was.term];
    forall t: nat, k: nat | Own(h', t, k) && Level(h', n, t) >= k
      ensures KeptIn(h', node.log, node.term, t, k)
    {
      if t == was.term && k <= i.index {
        assert node.log[..i.index][..k] == node.log[..k] && l[..i.index][..k] == l[..k];
        assert Has(h, node.log, t, k);
      } else {
        assert KeptIn(h, was.log, was.term, t, k);
        if Has(h, was.log, t, k) && node.log != was.log {
          InstalledKeeps(h, was.log, was.term, i.index, t, k);
          if t < was.term && !Has(h, l, t, k) {
            LostBy(h, t, k, was.term, node.term);
          }
        }
      }
    }
  }

  lemma InstallSafe(s: State, n: NodeId)
    requires Inv(s) && SafeInv(s) && n in s.nodes && Waiting(s.nodes[n])
    ensures SafeInv(Install(s, n))
  {
    hide Inv, SafeInv, KeepOk, LogOk;
    var was, i := s.nodes[n], s.nodes[n].incoming.value;
    InstalledLog(s, n);
    InstallKeepOk(s, n);
    RaiseSafe(s, n, Installed(was, i), {SnapshotResp(n, i.from, was.term, i.index)}, i.index);
  }

  /** A node that has the beginning of its leader's log may say so. */
  lemma AffirmSafe(s: State, n: NodeId, leader: NodeId, index: nat)
    requires Inv(s) && SafeInv(s) && n in s.nodes && s.nodes[n].term in s.h.log
    requires index <= |s.nodes[n].log| && index <= |s.h.log[s.nodes[n].term]| && s.nodes[n].log[..index] == s.h.log[s.nodes[n].term][..index]
    ensures SafeInv(Affirm(s, n, leader, index))
  {
    hide Inv, SafeInv, Lost;
    var was, h, h' := s.nodes[n], s.h, Raised(s.h, n, s.nodes[n].term, index);
    var node := was.(incoming := None);
    KeepsAt(s, n);
    CastSame(h, h');
    forall t: nat, k: nat | Own(h', t, k) && Level(h', n, t) >= k
      ensures KeptIn(h', node.log, node.term, t, k)
    {
      if t == was.term && k <= index {
        assert node.log[..index][..k] == node.log[..k] && h.log[t][..index][..k] == h.log[t][..k];
        assert Has(h, node.log, t, k);
      } else {
        assert KeptIn(h, was.log, was.term, t, k);
      }
    }
    RaiseSafe(s, n, node, {SnapshotResp(n, leader, node.term, index)}, index);
  }

  lemma BallotSame(h: History, h': History, j: NodeId, u: nat)
    requires h'.ballots == h.ballots && h'.log == h.log && (j, u) in h.ballots && BallotUp(h, j, u) && BallotSafe(h, j, u)
    requires forall t: nat :: t < u ==> Level(h', j, t) == Level(h, j, t)
    ensures BallotUp(h', j, u) && BallotSafe(h', j, u)
  {
    hide Has, Lost;
    CastSame(h, h');
    forall t: nat, i: nat | Own(h', t, i) && t < u && Level(h', j, t) >= i
      ensures KeptIn(h', h'.ballots[(j, u)].log, u, t, i)
    {
      assert KeptIn(h, h.ballots[(j, u)].log, u, t, i);
    }
  }

  lemma KeepSame(h: History, h': History, j: NodeId, n: Node)
    requires h'.log == h.log && KeepOk(h, j, n)
    requires forall t: nat :: Level(h', j, t) == Level(h, j, t)
    ensures KeepOk(h', j, n)
  {
    hide Has, Lost;
    CastSame(h, h');
    forall t: nat, i: nat | Own(h', t, i) && Level(h', j, t) >= i
      ensures KeptIn(h', n.log, n.term, t, i)
    {
      assert KeptIn(h, n.log, n.term, t, i);
    }
  }

  lemma LevelsBelow(s: State, j: NodeId)
    requires SafeInv(s) && j in s.nodes
    ensures forall t: nat :: Level(s.h, j, t) > 0 ==> t <= s.nodes[j].term
  {
    hide KeepOk, BallotSafe, BallotUp, ChosenOk;
    forall t: nat
      ensures Level(s.h, j, t) > 0 ==> t <= s.nodes[j].term
    {
      assert LevelOk(s.nodes, s.h, j, t);
    }
  }

  /** A node has voted only in terms up to its own. */
  lemma VotesCastIn(s: State, n: NodeId)
    requires Inv(s)
    ensures forall u :: (n, u) in s.h.ballots ==> n in s.nodes && u <= s.nodes[n].term
  {
    VotesAreCast(s);
  }

  // ------------------------------------------------------------------ a leader's log grows

  /** New entries of the leader's own term cannot make up for what the log lacked. */
  lemma StillLacks(h: History, h': History, u: nat, more: Log, t: nat, i: nat)
    requires Own(h, t, i) && u in h.log && t < u && h'.log == h.log[u := h.log[u] + more] && LogOk(h.log, h.log[t], t)
    requires forall k :: 0 <= k < |more| ==> more[k].term == u
    ensures Own(h', t, i) && (Has(h', h'.log[u], t, i) <==> Has(h, h.log[u], t, i))
  {
    var l, x := h.log[u], h.log[t][..i];
    if i <= |l| {
      assert (l + more)[..i] == l[..i];
    } else if i <= |l + more| {
      assert (l + more)[|l|] == more[0];
      assert EntryOk(h.log, h.log[t], |l|, t);
      assert x[|l|].term <= t;
      assert (l + more)[..i][|l|] == more[0];
    }
  }

  /** What concerned the history before the growth concerns it after, and the other way round. */
  lemma GrownSame(h: History, h': History, u: nat, more: Log)
    requires u in h.log && h'.log == h.log[u := h.log[u] + more] && (forall k :: 0 <= k < |more| ==> more[k].term == u)
    requires forall t :: t in h.log ==> LogOk(h.log, h.log[t], t)
    ensures forall t: nat, i: nat :: Own(h, t, i) ==> Own(h', t, i) && h'.log[t][..i] == h.log[t][..i]
    ensures forall t: nat, i: nat :: Own(h', t, i) && (t == u ==> i <= |h.log[u]|) ==> Own(h, t, i)
    ensures forall t: nat, i: nat, log :: Own(h, t, i) ==> Own(h', t, i) && (Has(h', log, t, i) <==> Has(h, log, t, i))
    ensures forall t: nat, i: nat, bound: nat :: Own(h, t, i) ==> Own(h', t, i) && (Lost(h', t, i, bound) <==> Lost(h, t, i, bound))
  {
    hide LogOk, Has;
    forall t: nat, i: nat | Own(h, t, i)
      ensures Own(h', t, i) && h'.log[t][..i] == h.log[t][..i]
    {
      assert (h.log[u] + more)[..|h.log[u]|] == h.log[u];
      assert t == u ==> (h.log[u] + more)[..i] == h.log[u][..i];
    }
    forall t: nat, i: nat, log | Own(h, t, i)
      ensures Own(h', t, i) && (Has(h', log, t, i) <==> Has(h, log, t, i))
    {
      assert h'.log[t][..i] == h.log[t][..i];
      HasCut(h, h', log, t, i);
    }
    forall t: nat, i: nat, bound: nat | Own(h, t, i)
      ensures Own(h', t, i) && (Lost(h', t, i, bound) <==> Lost(h, t, i, bound))
    {
      if Lost(h, t, i, bound) {
        var v :| v in h.log && t < v <= bound && !Has(h, h.log[v], t, i);
        if v == u {
          StillLacks(h, h', u, more, t, i);
        }
        assert !Has(h', h'.log[v], t, i);
      }
      if Lost(h', t, i, bound) {
        var v :| v in h'.log && t < v <= bound && !Has(h', h'.log[v], t, i);
        if v == u {
          StillLacks(h, h', u, more, t, i);
        }
        assert !Has(h, h.log[v], t, i);
      }
    }
  }

  lemma HasCut(h: History, h': History, log: Log, t: nat, i: nat)
    requires Own(h, t, i) && Own(h', t, i) && h'.log[t][..i] == h.log[t][..i]
    ensures Has(h', log, t, i) <==> Has(h, log, t, i)
  {
  }

  /** Every recorded log is good. */
  lemma LogsAreOk(s: State)
    requires Inv(s)
    ensures forall t :: t in s.h.log ==> LogOk(s.h.log, s.h.log[t], t)
  {
    hide LogOk, MsgOk, NodeOk, BallotOk;
    forall t | t in s.h.log
      ensures LogOk(s.h.log, s.h.log[t], t)
    {
      assert TermOk(s.ids, s.nodes, s.h, t);
    }
  }

  /** A majority has moved past every term that was won later; none of it confirms `i` in term `t`. */
  lemma PastTerm(s: State, t: nat, u: nat, i: nat, level: (NodeId, nat) -> nat, q: set<NodeId>)
    requires Inv(s) && u in s.h.leader && t < u && QuorumOf(s.ids, q)
    requires forall j :: j in q ==> level(j, t) >= i || (j in s.nodes && s.nodes[j].term <= t)
    ensures exists k :: k in q && k in s.nodes && s.nodes[k].term > t && level(k, t) >= i
  {
    hide LogOk, MsgOk, NodeOk;
    assert TermOk(s.ids, s.nodes, s.h, u);
    var k := QuorumsMeet(s.ids, q, s.h.electors[u]);
    assert VotedFor(s.h, k, u, s.h.leader[u]);
    assert BallotOk(s.nodes, s.h, k, u);
  }

  lemma ExtendKeepOk(h: History, h': History, u: nat, more: Log, n: NodeId, j: NodeId, was: Node, node: Node)
    requires u in h.log && h'.log == h.log[u := h.log[u] + more] && (forall k :: 0 <= k < |more| ==> more[k].term == u)
    requires forall t :: t in h.log ==> LogOk(h.log, h.log[t], t)
    requires KeepOk(h, j, was) && node.term == was.term
    requires forall t: nat :: j != n || t != u ==> Level(h', j, t) == Level(h, j, t)
    requires j != n ==> node.log == was.log && Level(h, j, u) <= |h.log[u]|
    requires j == n ==> was.log == h.log[u] && node.log == h'.log[u]
    ensures KeepOk(h', j, node)
  {
    hide LogOk, Lost;
    GrownSame(h, h', u, more);
    forall t: nat, i: nat | Own(h', t, i) && Level(h', j, t) >= i
      ensures KeptIn(h', node.log, node.term, t, i)
    {
      if j == n && t == u {
        assert Has(h', node.log, t, i);
      } else {
        assert Own(h, t, i) && KeptIn(h, was.log, was.term, t, i);
        if j == n && Has(h, was.log, t, i) {
          assert node.log[..i] == was.log[..i];
        }
      }
    }
  }

  lemma ExtendBallot(h: History, h': History, u: nat, more: Log, n: NodeId, j: NodeId, v: nat)
    requires u in h.log && h'.log == h.log[u := h.log[u] + more] && (forall k :: 0 <= k < |more| ==> more[k].term == u)
    requires forall t :: t in h.log ==> LogOk(h.log, h.log[t], t)
    requires h'.ballots == h.ballots && (j, v) in h.ballots && BallotSafe(h, j, v) && BallotUp(h, j, v)
    requires forall t: nat :: t < v ==> Level(h', j, t) == Level(h, j, t)
    requires u < v ==> Level(h, j, u) <= |h.log[u]|
    ensures BallotSafe(h', j, v) && BallotUp(h', j, v)
  {
    hide LogOk, Lost, Has;
    GrownSame(h, h', u, more);
    forall t: nat, i: nat | Own(h', t, i) && t < v && Level(h', j, t) >= i
      ensures KeptIn(h', h'.ballots[(j, v)].log, v, t, i)
    {
      assert Own(h, t, i) && KeptIn(h, h.ballots[(j, v)].log, v, t, i);
    }
  }

  lemma ExtendChosen(s: State, n: NodeId, s': State, u: nat, more: Log, t: nat, w: nat, i: nat)
    requires Inv(s) && SafeInv(s) && n in s.nodes && s.nodes[n].role == Leader && s.nodes[n].term == u
    requires u in s.h.log && s'.h.log == s.h.log[u := s.h.log[u] + more] && (forall k :: 0 <= k < |more| ==> more[k].term == u)
    requires s'.h.leader == s.h.leader && s'.ids == s.ids && s'.nodes.Keys == s.nodes.Keys
    requires forall j :: j in s.nodes ==> s'.nodes[j].term == s.nodes[j].term
    requires forall j: NodeId, v: nat :: j != n || v != u ==> Level(s'.h, j, v) == Level(s.h, j, v)
    requires Own(s'.h, t, i) && w in s'.h.log && t < w
    ensures ChosenOk(s'.ids, s'.nodes, s'.h, t, w, i)
  {
    hide LogOk, Lost, Inv, SafeInv, Has;
    LogsAreOk(s);
    GrownSame(s.h, s'.h, u, more);
    SameKeys(s);
    LevelBound(s, u);
    forall q | QuorumOf(s.ids, q) && Choosable(s'.nodes, s'.h, q, t, i)
      ensures Has(s'.h, s'.h.log[w], t, i)
    {
      if t == u && i > |s.h.log[u]| {
        PastTerm(s, t, w, i, (j, v) => Level(s'.h, j, v), q);
      } else {
        assert Own(s.h, t, i);
        ChosenAt(s, t, w, i);
        assert Choosable(s.nodes, s.h, q, t, i);
        assert Has(s.h, s.h.log[w], t, i);
        if w == u {
          StillLacks(s.h, s'.h, u, more, t, i);
        }
      }
    }
  }

  lemma ChosenAt(s: State, t: nat, u: nat, i: nat)
    requires SafeInv(s) && Own(s.h, t, i) && u in s.h.log && t < u
    ensures ChosenOk(s.ids, s.nodes, s.h, t, u, i)
  {
  }

  /** Nobody has confirmed more of a log than there is. */
  lemma LevelBound(s: State, t: nat)
    requires SafeInv(s)
    ensures forall j: NodeId :: Level(s.h, j, t) <= if t in s.h.log then |s.h.log[t]| else 0
  {
    hide KeepOk, BallotSafe, BallotUp, ChosenOk;
    forall j: NodeId
      ensures Level(s.h, j, t) <= if t in s.h.log then |s.h.log[t]| else 0
    {
      assert LevelOk(s.nodes, s.h, j, t);
    }
  }

  lemma SameKeys(s: State)
    requires Inv(s)
    ensures s.h.log.Keys == s.h.leader.Keys && s.h.electors.Keys == s.h.leader.Keys && s.nodes.Keys == s.ids
  {
  }

  lemma ExtendSafe(s: State, n: NodeId, batch: seq<Bytes>)
    requires Inv(s) && SafeInv(s) && n in s.nodes && s.nodes[n].role == Leader
    ensures SafeInv(Extend(s, n, batch))
  {
    hide LogOk, Lost, Has, Inv, BallotSafe, BallotUp, KeepOk, ChosenOk, CommitFrom;
    var s', was, more := Extend(s, n, batch), s.nodes[n], Stamped(s.nodes[n].term, batch);
    var u := was.term;
    AtLeader(s, n);
    LogsAreOk(s);
    SameKeys(s);
    VotesCastIn(s, n);
    LevelBound(s, u);
    forall j: NodeId, t: nat
      ensures LevelOk(s'.nodes, s'.h, j, t)
    {
      assert LevelOk(s.nodes, s.h, j, t);
    }
    forall j | j in s'.nodes
      ensures KeepOk(s'.h, j, s'.nodes[j])
    {
      ExtendKeepOk(s.h, s'.h, u, more, n, j, s.nodes[j], s'.nodes[j]);
    }
    forall j, v | (j, v) in s'.h.ballots
      ensures BallotSafe(s'.h, j, v) && BallotUp(s'.h, j, v)
    {
      ExtendBallot(s.h, s'.h, u, more, n, j, v);
    }
    forall t: nat, w: nat, i: nat | Own(s'.h, t, i) && w in s'.h.log && t < w
      ensures ChosenOk(s'.ids, s'.nodes, s'.h, t, w, i)
    {
      ExtendChosen(s, n, s', u, more, t, w, i);
    }
  }

  lemma AtLeader(s: State, n: NodeId)
    requires Inv(s) && n in s.nodes && s.nodes[n].role == Leader
    ensures LeaderOk(s.h, n, s.nodes[n])
  {
    hide LogOk, MsgOk, TermOk, BallotOk;
    assert NodeOk(s.h, n, s.nodes[n]);
  }

  // ------------------------------------------------------------------ a new leader

  /** A new term with its leader's log leaves everything said about older terms as it was; a lack shows up at most more often. */
  lemma WonSame(h: History, h': History, u: nat, log: Log)
    requires u !in h.log && h'.log == h.log[u := log]
    ensures forall t: nat, i: nat :: Own(h, t, i) ==> Own(h', t, i) && h'.log[t][..i] == h.log[t][..i]
    ensures forall t: nat, i: nat :: Own(h', t, i) && t != u ==> Own(h, t, i)
    ensures forall t: nat, i: nat, l :: Own(h, t, i) ==> Own(h', t, i) && (Has(h', l, t, i) <==> Has(h, l, t, i))
    ensures forall t: nat, i: nat, bound: nat :: Own(h, t, i) && Lost(h, t, i, bound) ==> Own(h', t, i) && Lost(h', t, i, bound)
  {
    hide Has;
    forall t: nat, i: nat, l | Own(h, t, i)
      ensures Own(h', t, i) && (Has(h', l, t, i) <==> Has(h, l, t, i))
    {
      HasCut(h, h', l, t, i);
    }
    forall t: nat, i: nat, bound: nat | Own(h, t, i) && Lost(h, t, i, bound)
      ensures Own(h', t, i) && Lost(h', t, i, bound)
    {
      var v :| v in h.log && t < v <= bound && !Has(h, h.log[v], t, i);
      assert !Has(h', h'.log[v], t, i);
    }
  }

  lemma LastOf(logs: Logs, log: Log, t: nat)
    requires LogOk(logs, log, t) && log != []
    ensures
      var s := LastTerm(log);
      1 <= s <= t && s in logs && Prefix(log, logs[s]) && logs[s][|log| - 1].term == s
  {
    assert EntryOk(logs, log, |log| - 1, t);
    assert log[..|log|] == log;
  }

  /** A log with position `i` of term `t` ends in a term not below. */
  lemma HasLastTerm(h: History, log: Log, t: nat, i: nat)
    requires Own(h, t, i) && Has(h, log, t, i) && Sorted(log)
    ensures log != [] && LastTerm(log) >= t
  {
    assert log[..i][i - 1] == log[i - 1] && h.log[t][..i][i - 1] == h.log[t][i - 1];
  }

  /** Entries of a leader's log that come before one of its own terms are of earlier terms. */
  lemma LongEnough(h: History, t: nat, i: nat, s: nat, n: nat)
    requires Own(h, t, i) && s in h.log && t < s && Has(h, h.log[s], t, i) && LogOk(h.log, h.log[t], t)
    requires 0 < n <= |h.log[s]| && h.log[s][n - 1].term == s
    ensures i < n
  {
    forall k | 0 <= k < i
      ensures h.log[s][k].term <= t
    {
      assert EntryOk(h.log, h.log[t], k, t);
      assert h.log[s][..i][k] == h.log[s][k] && h.log[t][..i][k] == h.log[t][k];
    }
  }

  /** The comparison of last entries does its job: a candidate not behind a voter that has the position has it too. */
  lemma UpToDateHas(h: History, t: nat, i: nat, u: nat, mine: Log, theirs: Log)
    requires Own(h, t, i) && Has(h, mine, t, i) && LogOk(h.log, mine, u) && LogOk(h.log, theirs, u) && LogOk(h.log, h.log[t], t)
    requires UpToDate(LastTerm(theirs), |theirs|, LastTerm(mine), |mine|)
    requires forall s :: s in h.log && t < s <= u ==> Has(h, h.log[s], t, i)
    ensures Has(h, theirs, t, i)
  {
    HasLastTerm(h, mine, t, i);
    LastOf(h.log, mine, u);
    assert theirs != [];
    LastOf(h.log, theirs, u);
    var s := LastTerm(theirs);
    var l := h.log[s];
    if s == LastTerm(mine) {
      assert l[..|mine|] == mine && l[..|theirs|] == theirs;
      assert theirs[..i] == l[..i] && mine[..i] == l[..i];
    } else {
      LongEnough(h, t, i, s, |theirs|);
      assert theirs[..i] == l[..|theirs|][..i] == l[..i];
    }
  }

  /** The heart of the matter: a majority that can still confirm a position shares a voter with the new leader's majority. */
  lemma WinnerHas(s: State, n: NodeId, t: nat, i: nat, q: set<NodeId>)
    requires Inv(s) && SafeInv(s) && n in s.nodes && s.nodes[n].role == Candidate && |s.nodes[n].votes| >= Quorum(s.ids)
    requires Own(s.h, t, i) && t < s.nodes[n].term && QuorumOf(s.ids, q) && Choosable(s.nodes, s.h, q, t, i)
    ensures Has(s.h, s.nodes[n].log, t, i)
  {
    hide LogOk, Has, Inv, SafeInv, UpToDate;
    var u := s.nodes[n].term;
    NotWonYet(s, n);
    SameKeys(s);
    LogsAreOk(s);
    var k := QuorumsMeet(s.ids, q, s.nodes[n].votes);
    VoterFacts(s, n, k);
    forall v | v in s.h.log && t < v <= u
      ensures Has(s.h, s.h.log[v], t, i)
    {
      ChosenAt(s, t, v, i);
    }
    var mine := s.h.ballots[(k, u)].log;
    assert Has(s.h, mine, t, i) by {
      assert KeptIn(s.h, mine, u, t, i);
    }
    if k != n {
      UpToDateHas(s.h, t, i, u, mine, s.nodes[n].log);
    }
  }

  /** What is known of a vote a candidate counts. */
  lemma VoterFacts(s: State, n: NodeId, k: NodeId)
    requires Inv(s) && SafeInv(s) && n in s.nodes && s.nodes[n].role == Candidate && k in s.nodes[n].votes
    ensures
      var u := s.nodes[n].term;
      && VotedFor(s.h, k, u, n) && k in s.nodes && s.nodes[k].term >= u && BallotSafe(s.h, k, u)
      && LogOk(s.h.log, s.h.ballots[(k, u)].log, u) && LogOk(s.h.log, s.nodes[n].log, u)
      && VotedFor(s.h, n, u, n) && s.h.ballots[(n, u)].log == s.nodes[n].log
      && (k != n ==> UpToDate(LastTerm(s.nodes[n].log), |s.nodes[n].log|, LastTerm(s.h.ballots[(k, u)].log), |s.h.ballots[(k, u)].log|))
  {
    hide LogOk, MsgOk, TermOk, KeepOk, ChosenOk, BallotSafe;
    assert NodeOk(s.h, n, s.nodes[n]);
    assert BallotOk(s.nodes, s.h, k, s.nodes[n].term);
    assert BallotUp(s.h, k, s.nodes[n].term);
  }

  lemma WinKeepOk(h: History, h': History, u: nat, log: Log, n: NodeId, j: NodeId, was: Node, node: Node)
    requires u !in h.log && h'.log == h.log[u := log] && KeepOk(h, j, was) && node.term == was.term
    requires forall t: nat :: t != u ==> Level(h', j, t) == Level(h, j, t)
    requires j != n ==> node.log == was.log && Level(h', j, u) == 0
    requires j == n ==> node.log == log && Prefix(was.log, log)
    ensures KeepOk(h', j, node)
  {
    hide Lost;
    WonSame(h, h', u, log);
    forall t: nat, i: nat | Own(h', t, i) && Level(h', j, t) >= i
      ensures KeptIn(h', node.log, node.term, t, i)
    {
      if t == u {
        assert Has(h', node.log, t, i);
      } else {
        assert KeptIn(h, was.log, was.term, t, i);
        if j == n && Has(h, was.log, t, i) {
          assert log[..|was.log|][..i] == log[..i];
        }
      }
    }
  }

  lemma WinBallot(h: History, h': History, u: nat, log: Log, j: NodeId, v: nat)
    requires u !in h.log && h'.log == h.log[u := log]
    requires h'.ballots == h.ballots && (j, v) in h.ballots && BallotSafe(h, j, v) && BallotUp(h, j, v)
    requires forall t: nat :: t < v ==> Level(h', j, t) == Level(h, j, t)
    requires u < v ==> Level(h, j, u) == 0
    ensures BallotSafe(h', j, v) && BallotUp(h', j, v)
  {
    hide Lost, Has;
    WonSame(h, h', u, log);
    forall t: nat, i: nat | Own(h', t, i) && t < v && Level(h', j, t) >= i
      ensures KeptIn(h', h'.ballots[(j, v)].log, v, t, i)
    {
      assert Own(h, t, i) && KeptIn(h, h.ballots[(j, v)].log, v, t, i);
    }
  }

  lemma WinChosen(s: State, n: NodeId, s': State, t: nat, w: nat, i: nat)
    requires Inv(s) && SafeInv(s) && n in s.nodes && s.nodes[n].role == Candidate && |s.nodes[n].votes| >= Quorum(s.ids)
    requires s'.h.log == s.h.log[s.nodes[n].term := s.nodes[n].log + [Entry(s.nodes[n].term, [])]] && s'.ids == s.ids
    requires s'.nodes.Keys == s.nodes.Keys && forall j :: j in s.nodes ==> s'.nodes[j].term == s.nodes[j].term
    requires forall j: NodeId, v: nat :: j != n || v != s.nodes[n].term ==> Level(s'.h, j, v) == Level(s.h, j, v)
    requires Own(s'.h, t, i) && w in s'.h.log && t < w
    ensures ChosenOk(s'.ids, s'.nodes, s'.h, t, w, i)
  {
    hide LogOk, Lost, Inv, SafeInv, Has;
    var u, log := s.nodes[n].term, s.nodes[n].log;
    NotWonYet(s, n);
    SameKeys(s);
    WonSame(s.h, s'.h, u, log + [Entry(u, [])]);
    LevelBound(s, u);
    forall q | QuorumOf(s.ids, q) && Choosable(s'.nodes, s'.h, q, t, i)
      ensures Has(s'.h, s'.h.log[w], t, i)
    {
      if t == u {
        PastTerm(s, t, w, i, (j, v) => Level(s'.h, j, v), q);
      } else {
        assert Choosable(s.nodes, s.h, q, t, i);
        if w == u {
          WinnerHas(s, n, t, i, q);
          HasLonger(s.h, log, [Entry(u, [])], t, i);
        } else {
          ChosenAt(s, t, w, i);
        }
      }
    }
  }

  lemma HasLonger(h: History, log: Log, more: Log, t: nat, i: nat)
    requires Own(h, t, i) && Has(h, log, t, i)
    ensures Has(h, log + more, t, i)
  {
    assert (log + more)[..i] == log[..i];
  }

  /** What winning does, apart from commitment. */
  lemma WinShape(s: State, n: NodeId)
    requires n in s.nodes
    ensures
      var s', u, log := Win(s, n), s.nodes[n].term, s.nodes[n].log + [Entry(s.nodes[n].term, [])];
      && s'.ids == s.ids && s'.nodes.Keys == s.nodes.Keys && (forall j :: j in s.nodes && j != n ==> s'.nodes[j] == s.nodes[j])
      && s'.nodes[n].term == u && s'.nodes[n].log == log && s'.nodes[n].role == Leader
      && s'.nodes[n].commit == ToLeader(s.ids, n, s.nodes[n]).commit && (forall p :: MatchedAt(s'.nodes[n], p) == 0)
      && s' == State(s.ids, s.nodes[n := s'.nodes[n]], s.msgs + {}, s'.h)
      && s'.h.log == s.h.log[u := log] && s'.h.leader == s.h.leader[u := n] && s'.h.ballots == s.h.ballots
      && (forall j: NodeId, t: nat :: Level(s'.h, j, t) == if (j, t) == (n, u) then |log| else Level(s.h, j, t))
  {
    hide CommitFrom;
  }

  lemma WinLevels(s: State, n: NodeId)
    requires Inv(s) && SafeInv(s) && n in s.nodes && s.nodes[n].role == Candidate && |s.nodes[n].votes| >= Quorum(s.ids)
    ensures forall j: NodeId, t: nat :: LevelOk(Win(s, n).nodes, Win(s, n).h, j, t)
    ensures forall t :: t in Win(s, n).h.leader && t in Win(s, n).h.log ==> Level(Win(s, n).h, Win(s, n).h.leader[t], t) == |Win(s, n).h.log[t]|
  {
    hide Inv, BallotSafe, BallotUp, KeepOk, ChosenOk, Win;
    WinShape(s, n);
    NotWonYet(s, n);
    SameKeys(s);
    forall j: NodeId, t: nat
      ensures LevelOk(Win(s, n).nodes, Win(s, n).h, j, t)
    {
      assert LevelOk(s.nodes, s.h, j, t);
    }
  }

  lemma WinKeepsAll(s: State, n: NodeId, j: NodeId)
    requires Inv(s) && SafeInv(s) && n in s.nodes && s.nodes[n].role == Candidate && |s.nodes[n].votes| >= Quorum(s.ids)
    requires j in Win(s, n).nodes
    ensures KeepOk(Win(s, n).h, j, Win(s, n).nodes[j])
  {
    hide Inv, BallotSafe, BallotUp, ChosenOk, Win, Own, KeptIn;
    var u, log := s.nodes[n].term, s.nodes[n].log + [Entry(s.nodes[n].term, [])];
    WinShape(s, n);
    NotWonYet(s, n);
    SameKeys(s);
    LevelBound(s, u);
    assert Prefix(s.nodes[n].log, log) && Level(s.h, j, u) == 0;
    WinKeepOk(s.h, Win(s, n).h, u, log, n, j, s.nodes[j], Win(s, n).nodes[j]);
  }

  lemma WinBallots(s: State, n: NodeId, j: NodeId, v: nat)
    requires Inv(s) && SafeInv(s) && n in s.nodes && s.nodes[n].role == Candidate && |s.nodes[n].votes| >= Quorum(s.ids)
    requires (j, v) in Win(s, n).h.ballots
    ensures BallotSafe(Win(s, n).h, j, v) && BallotUp(Win(s, n).h, j, v)
  {
    hide Inv, KeepOk, ChosenOk, Win, BallotSafe, BallotUp;
    var u, log := s.nodes[n].term, s.nodes[n].log + [Entry(s.nodes[n].term, [])];
    WinShape(s, n);
    NotWonYet(s, n);
    SameKeys(s);
    LevelBound(s, u);
    VotesCastIn(s, n);
    assert Level(s.h, j, u) == 0;
    WinBallot(s.h, Win(s, n).h, u, log, j, v);
  }

  lemma WinSafe(s: State, n: NodeId)
    requires Inv(s) && SafeInv(s) && n in s.nodes && s.nodes[n].role == Candidate && |s.nodes[n].votes| >= Quorum(s.ids)
    ensures SafeInv(Win(s, n))
  {
    hide Inv, BallotSafe, BallotUp, KeepOk, ChosenOk, Win, Own, LevelOk;
    WinLevels(s, n);
    WinShape(s, n);
    var s' := Win(s, n);
    forall j | j in s'.nodes
      ensures KeepOk(s'.h, j, s'.nodes[j])
    {
      WinKeepsAll(s, n, j);
    }
    forall j, v | (j, v) in s'.h.ballots
      ensures BallotSafe(s'.h, j, v) && BallotUp(s'.h, j, v)
    {
      WinBallots(s, n, j, v);
    }
    forall t: nat, w: nat, i: nat | Own(s'.h, t, i) && w in s'.h.log && t < w
      ensures ChosenOk(s'.ids, s'.nodes, s'.h, t, w, i)
    {
      WinChosen(s, n, s', t, w, i);
    }
  }
}
