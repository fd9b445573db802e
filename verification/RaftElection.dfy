/** What every event of every run keeps about votes, leaders and logs. */
module RaftElection {
  import opened Basics
  import opened Raft
  import opened RaftLogs

  // ------------------------------------------------------------------ invariant

  /** A vote binds its voter for the term, and the voter's log was good. */
  ghost predicate BallotOk(nodes: map<NodeId, Node>, h: History, j: NodeId, t: nat)
    requires (j, t) in h.ballots
  {
    && j in nodes && 1 <= t <= nodes[j].term && LogOk(h.log, h.ballots[(j, t)].log, t)
    && (t == nodes[j].term ==> nodes[j].voted == Some(h.ballots[(j, t)].candidate))
  }

  predicate VotedFor(h: History, j: NodeId, t: nat, c: NodeId) {
    (j, t) in h.ballots && h.ballots[(j, t)].candidate == c
  }

  /** A candidate holds its own vote, cast with the log it has, and counts only votes for it; it has not won yet. */
  ghost predicate CandidateOk(h: History, j: NodeId, n: Node) {
    && VotedFor(h, j, n.term, j) && h.ballots[(j, n.term)].log == n.log
    && (forall k :: k in n.votes ==> VotedFor(h, k, n.term, j))
    && (n.term in h.leader ==> h.leader[n.term] != j)
  }

  ghost predicate LeaderOk(h: History, j: NodeId, n: Node) {
    n.term in h.leader && h.leader[n.term] == j && n.term in h.log && h.log[n.term] == n.log
  }

  /** A waiting snapshot stands for the beginning of its leader's log and reaches past the node's own. */
  ghost predicate IncomingOk(h: History, n: Node)
    requires n.incoming.Some?
  {
    var i := n.incoming.value;
    && n.term in h.log && 1 <= i.index <= |h.log[n.term]| && i.prefix == h.log[n.term][..i.index] && i.lastTerm == TermOf(h.log[n.term], i.index)
    && n.base < i.index && n.role == Follower
  }

  ghost predicate NodeOk(h: History, j: NodeId, n: Node) {
    && LogOk(h.log, n.log, n.term) && n.base <= n.applied <= n.commit && n.applied <= |n.log|
    && (n.incoming.Some? ==> n.incoming.value.term <= n.term) && (Waiting(n) ==> IncomingOk(h, n))
    && (n.voted.Some? ==> VotedFor(h, j, n.term, n.voted.value))
    && (n.role == Candidate ==> CandidateOk(h, j, n))
    && (n.role == Leader ==> LeaderOk(h, j, n))
  }

  /** A term's winner got a majority of votes, is not behind that term, and has a good log. */
  ghost predicate TermOk(ids: set<NodeId>, nodes: map<NodeId, Node>, h: History, t: nat)
    requires t in h.leader
  {
    && 1 <= t && t in h.log && t in h.electors && h.leader[t] in nodes && t <= nodes[h.leader[t]].term
    && h.electors[t] <= ids && |h.electors[t]| >= Quorum(ids)
    && (forall k :: k in h.electors[t] ==> VotedFor(h, k, t, h.leader[t]))
    && LogOk(h.log, h.log[t], t)
  }

  /** The term of the last entry of the whole log. */
  function LastTerm(log: Log): nat {
    TermOf(log, |log|)
  }

  ghost predicate MsgOk(h: History, m: Msg) {
    match m
    case VoteResp(from, to, term, granted) => granted ==> VotedFor(h, from, term, to)
    case RequestVote(from, _, term, lastIndex, lastTerm) =>
      && VotedFor(h, from, term, from) && lastIndex == |h.ballots[(from, term)].log|
      && lastTerm <= LastTerm(h.ballots[(from, term)].log)
    case Append(from, _, term, prev, prevTerm, entries, _) =>
      && term in h.leader && h.leader[term] == from && term in h.log && SegmentOf(h.log[term], prev, prevTerm, entries)
    case Snapshot(from, _, term, index, lastTerm, prefix) =>
      && term in h.leader && h.leader[term] == from && term in h.log && index <= |h.log[term]| && prefix == h.log[term][..index]
      && lastTerm == TermOf(h.log[term], index)
    case AppendResp(_, _, _, _, _) => true
    case SnapshotResp(_, _, _, _) => true
  }

  ghost predicate SegmentOf(log: Log, prev: nat, prevTerm: nat, entries: Log) {
    prev + |entries| <= |log| && entries == log[prev..prev + |entries|] && prevTerm == TermOf(log, prev)
  }

  ghost predicate Inv(s: State) {
    && s.nodes.Keys == s.ids && s.h.log.Keys == s.h.leader.Keys && s.h.electors.Keys == s.h.leader.Keys
    && (forall j :: j in s.nodes ==> NodeOk(s.h, j, s.nodes[j]))
    && (forall j, t :: (j, t) in s.h.ballots ==> BallotOk(s.nodes, s.h, j, t))
    && (forall t :: t in s.h.leader ==> TermOk(s.ids, s.nodes, s.h, t))
    && (forall m :: m in s.msgs ==> MsgOk(s.h, m))
  }

  // ------------------------------------------------------------------ one node moves, the rest stays

  /** Terms do not go back and a vote is not taken back. */
  predicate Advances(n: Node, n': Node) {
    n.term <= n'.term && (n'.term == n.term && n.voted.Some? ==> n'.voted == n.voted)
  }

  /** History after a step of `n`: everything recorded stays, and only what `n` leads changes. */
  ghost predicate Evolves(h: History, h': History, n: NodeId) {
    && (forall k :: k in h.ballots ==> k in h'.ballots && h'.ballots[k] == h.ballots[k])
    && (forall t :: t in h.leader ==> t in h'.leader && h'.leader[t] == h.leader[t])
    && (forall t :: t in h.electors ==> t in h'.electors && h'.electors[t] == h.electors[t])
    && (forall t :: t in h'.leader && t !in h.leader ==> h'.leader[t] == n)
    && Grows(h.log, h'.log) && h'.log.Keys == h'.leader.Keys && h'.electors.Keys == h'.leader.Keys
    && (forall t :: t in h.log && t in h.leader && h.leader[t] != n ==> h'.log[t] == h.log[t])
  }

  lemma MsgKept(h: History, h': History, n: NodeId, m: Msg)
    requires Evolves(h, h', n) && MsgOk(h, m)
    ensures MsgOk(h', m)
  {
    if m.Append? {
      var a, b := h.log[m.term], h'.log[m.term];
      assert Prefix(a, b);
      assert b[..|a|][m.prev..m.prev + |m.entries|] == b[m.prev..m.prev + |m.entries|];
      assert m.prev > 0 ==> b[..|a|][m.prev - 1] == b[m.prev - 1];
    }
    if m.Snapshot? {
      PrefixKept(h.log[m.term], h'.log[m.term], m.index);
    }
  }

  lemma PrefixKept(a: Log, b: Log, i: nat)
    requires Prefix(a, b) && i <= |a|
    ensures b[..i] == a[..i] && TermOf(b, i) == TermOf(a, i)
  {
    assert b[..|a|][..i] == b[..i];
    assert i > 0 ==> b[..|a|][i - 1] == b[i - 1];
  }

  lemma NodeKept(h: History, h': History, n: NodeId, j: NodeId, node: Node)
    requires Evolves(h, h', n) && NodeOk(h, j, node) && j != n && (forall t :: t in h.leader <==> t in h.log)
    ensures NodeOk(h', j, node)
  {
    hide LogOk;
    LogOkGrows(h.log, h'.log, node.log, node.term, node.term);
    if Waiting(node) {
      PrefixKept(h.log[node.term], h'.log[node.term], node.incoming.value.index);
    }
  }

  lemma TermKept(ids: set<NodeId>, nodes: map<NodeId, Node>, nodes': map<NodeId, Node>, h: History, h': History, n: NodeId, t: nat)
    requires Evolves(h, h', n) && t in h.leader && TermOk(ids, nodes, h, t)
    requires nodes'.Keys == nodes.Keys && (forall j :: j in nodes ==> nodes[j].term <= nodes'[j].term)
    requires h'.log[t] == h.log[t]
    ensures TermOk(ids, nodes', h', t)
  {
    hide LogOk;
    LogOkGrows(h.log, h'.log, h.log[t], t, t);
  }

  /** The whole invariant, from what the moving node has to show. */
  lemma PutKeeps(s: State, n: NodeId, node: Node, out: set<Msg>, h: History)
    requires Inv(s) && n in s.nodes && Advances(s.nodes[n], node) && Evolves(s.h, h, n) && NodeOk(h, n, node)
    requires forall m :: m in out ==> MsgOk(h, m)
    requires forall j, t :: (j, t) in h.ballots && (j, t) !in s.h.ballots ==> BallotOk(s.nodes[n := node], h, j, t)
    requires forall t :: t in h.leader && (t in s.h.leader ==> h.log[t] != s.h.log[t]) ==> TermOk(s.ids, s.nodes[n := node], h, t)
    ensures Inv(State(s.ids, s.nodes[n := node], s.msgs + out, h))
  {
    hide LogOk, MsgOk, TermOk, NodeOk, Advances;
    var nodes := s.nodes[n := node];
    AdvancesMeans(s.nodes[n], node);
    forall j | j in nodes
      ensures NodeOk(h, j, nodes[j])
    {
      if j != n {
        NodeKept(s.h, h, n, j, nodes[j]);
      }
    }
    forall j, t | (j, t) in h.ballots
      ensures BallotOk(nodes, h, j, t)
    {
      if (j, t) in s.h.ballots {
        assert BallotOk(s.nodes, s.h, j, t);
        LogOkGrows(s.h.log, h.log, h.ballots[(j, t)].log, t, t);
      }
    }
    forall t | t in h.leader
      ensures TermOk(s.ids, nodes, h, t)
    {
      if t in s.h.leader && h.log[t] == s.h.log[t] {
        TermKept(s.ids, s.nodes, nodes, s.h, h, n, t);
      }
    }
    forall m | m in s.msgs + out
      ensures MsgOk(h, m)
    {
      if m in s.msgs {
        MsgKept(s.h, h, n, m);
      }
    }
  }

  lemma AdvancesMeans(n: Node, n': Node)
    requires Advances(n, n')
    ensures n.term <= n'.term && (n'.term == n.term && n.voted.Some? ==> n'.voted == n.voted)
  {
  }

  lemma SameHistory(h: History, n: NodeId)
    requires h.log.Keys == h.leader.Keys && h.electors.Keys == h.leader.Keys
    ensures Evolves(h, h, n)
  {
    assert forall t :: t in h.log ==> h.log[t][..|h.log[t]|] == h.log[t];
  }

  /** A step that records nothing. */
  lemma PlainKeeps(s: State, n: NodeId, node: Node, out: set<Msg>)
    requires Inv(s) && n in s.nodes && Advances(s.nodes[n], node) && NodeOk(s.h, n, node)
    requires forall m :: m in out ==> MsgOk(s.h, m)
    ensures Inv(Put(s, n, node, out))
  {
    hide NodeOk, MsgOk, Advances;
    SameHistory(s.h, n);
    PutKeeps(s, n, node, out, s.h);
  }

  // ------------------------------------------------------------------ the steps

  lemma CommitBounds(ids: set<NodeId>, id: NodeId, n: Node, i: nat)
    requires i <= |n.log|
    ensures n.commit <= CommitFrom(ids, id, n, i)
  {
    hide Replicated;
    if i > n.commit {
      CommitBounds(ids, id, n, i - 1);
    }
  }

  lemma BumpKeeps(s: State, n: NodeId, term: nat)
    requires Inv(s) && n in s.nodes
    ensures Inv(Bump(s, n, term))
  {
    hide LogOk, MsgOk, TermOk;
    assert NodeOk(s.h, n, s.nodes[n]);
    if term > s.nodes[n].term {
      SameHistory(s.h, n);
      LogOkGrows(s.h.log, s.h.log, s.nodes[n].log, s.nodes[n].term, term);
      PlainKeeps(s, n, Bumped(s.nodes[n], term), {});
    }
  }

  lemma StandKeeps(s: State, n: NodeId)
    requires Inv(s) && n in s.nodes
    ensures Inv(Stand(s, n)) && Stand(s, n).nodes[n].role == Candidate
  {
    hide LogOk, MsgOk, TermOk;
    var node, was := ToCandidate(n, s.nodes[n]), s.nodes[n];
    var h := Cast(s.h, n, node.term, Ballot(n, node.log));
    assert NodeOk(s.h, n, was);
    SameHistory(s.h, n);
    LogOkGrows(s.h.log, s.h.log, was.log, was.term, node.term);
    VotesAreCast(s);
    if node.term in s.h.leader {
      LedBy(s, node.term);
    }
    PutKeeps(s, n, node, {}, h);
  }

  /** Nobody has voted in a term ahead of its own. */
  lemma VotesAreCast(s: State)
    requires Inv(s)
    ensures forall j, t :: (j, t) in s.h.ballots ==> j in s.nodes && t <= s.nodes[j].term
  {
    hide LogOk, MsgOk, TermOk, NodeOk;
    forall j, t | (j, t) in s.h.ballots
      ensures j in s.nodes && t <= s.nodes[j].term
    {
      assert BallotOk(s.nodes, s.h, j, t);
    }
  }

  /** A winner is not behind the term it won. */
  lemma LedBy(s: State, t: nat)
    requires Inv(s) && t in s.h.leader
    ensures s.h.leader[t] in s.nodes && 1 <= t <= s.nodes[s.h.leader[t]].term && t in s.h.log && LogOk(s.h.log, s.h.log[t], t)
  {
    hide LogOk, MsgOk, NodeOk, BallotOk;
    assert TermOk(s.ids, s.nodes, s.h, t);
  }

  lemma AskVotesKeeps(s: State, n: NodeId)
    requires Inv(s) && n in s.nodes && s.nodes[n].role == Candidate
    ensures Inv(AskVotes(s, n))
  {
    hide LogOk, TermOk, BallotOk;
    var m := s.nodes[n];
    assert NodeOk(s.h, n, m);
    PlainKeeps(s, n, m, set p | p in Peers(s.ids, n) :: RequestVote(n, p, m.term, |m.log|, LastLogTerm(m)));
  }

  /** Two majorities share a node. */
  lemma QuorumsMeet(ids: set<NodeId>, a: set<NodeId>, b: set<NodeId>) returns (k: NodeId)
    requires a <= ids && b <= ids && |a| >= Quorum(ids) && |b| >= Quorum(ids)
    ensures k in a && k in b
  {
    if a * b == {} {
      assert |a + b| == |a| + |b|;
      SubsetSize(a + b, ids);
    }
    k :| k in a * b;
  }

  /** Nobody has won a term in which a candidate holds a majority. */
  lemma NotWonYet(s: State, n: NodeId)
    requires Inv(s) && n in s.nodes && s.nodes[n].role == Candidate && |s.nodes[n].votes| >= Quorum(s.ids)
    ensures s.nodes[n].votes <= s.ids && s.nodes[n].term !in s.h.leader && s.nodes[n].term >= 1
  {
    hide LogOk, MsgOk;
    var m := s.nodes[n];
    assert NodeOk(s.h, n, m) && BallotOk(s.nodes, s.h, n, m.term);
    forall k | k in m.votes
      ensures k in s.ids
    {
      assert BallotOk(s.nodes, s.h, k, m.term);
    }
    if m.term in s.h.leader {
      assert TermOk(s.ids, s.nodes, s.h, m.term);
      var k := QuorumsMeet(s.ids, m.votes, s.h.electors[m.term]);
    }
  }

  lemma WinEvolves(h: History, t: nat, n: NodeId, log: Log, votes: set<NodeId>, level: map<(NodeId, nat), nat>)
    requires t !in h.leader && h.log.Keys == h.leader.Keys && h.electors.Keys == h.leader.Keys
    ensures Evolves(h, h.(leader := h.leader[t := n], log := h.log[t := log], electors := h.electors[t := votes], level := level), n)
  {
    assert forall s :: s in h.log ==> h.log[s][..|h.log[s]|] == h.log[s];
  }

  lemma VotesWon(s: State, n: NodeId)
    requires Inv(s) && n in s.nodes && s.nodes[n].role == Candidate
    ensures forall k :: k in s.nodes[n].votes ==> VotedFor(s.h, k, s.nodes[n].term, n)
  {
    hide LogOk, MsgOk, TermOk, BallotOk;
    assert NodeOk(s.h, n, s.nodes[n]);
  }

  /** Only followers wait for a snapshot. */
  lemma NotWaiting(h: History, j: NodeId, n: Node)
    requires NodeOk(h, j, n) && n.role != Follower
    ensures !Waiting(n)
  {
    hide LogOk;
  }

  lemma WinNode(s: State, n: NodeId)
    requires Inv(s) && n in s.nodes && s.nodes[n].role == Candidate && |s.nodes[n].votes| >= Quorum(s.ids)
    ensures
      var was, node := s.nodes[n], ToLeader(s.ids, n, s.nodes[n]);
      && node.role == Leader && node.term == was.term && node.log == was.log + [Entry(was.term, [])] && node.votes == was.votes
      && Advances(was, node) && NodeOk(Win(s, n).h, n, node)
  {
    hide LogOk, MsgOk, Replicated, CommitFrom, BallotOk, IncomingOk, CandidateOk, TermOk;
    NotWonYet(s, n);
    var was, node := s.nodes[n], ToLeader(s.ids, n, s.nodes[n]);
    assert NodeOk(s.h, n, was);
    NotWaiting(s.h, n, was);
    LogOkExtended(s.h.log, was.log, was.term, [Entry(was.term, [])]);
    CommitBounds(s.ids, n, was.(role := Leader, log := node.log), |node.log|);
  }

  lemma WinTerm(s: State, n: NodeId)
    requires Inv(s) && n in s.nodes && s.nodes[n].role == Candidate && |s.nodes[n].votes| >= Quorum(s.ids)
    ensures TermOk(s.ids, Win(s, n).nodes, Win(s, n).h, s.nodes[n].term)
  {
    hide LogOk, MsgOk, ToLeader, BallotOk, NodeOk;
    NotWonYet(s, n);
    VotesWon(s, n);
    WinNode(s, n);
    var was := s.nodes[n];
    assert NodeOk(s.h, n, was);
    GoodLog(s.h, n, was);
    LogOkExtended(s.h.log, was.log, was.term, [Entry(was.term, [])]);
  }

  lemma GoodLog(h: History, j: NodeId, n: Node)
    requires NodeOk(h, j, n)
    ensures LogOk(h.log, n.log, n.term)
  {
  }

  lemma WinKeeps(s: State, n: NodeId)
    requires Inv(s) && n in s.nodes && s.nodes[n].role == Candidate && |s.nodes[n].votes| >= Quorum(s.ids)
    ensures Inv(Win(s, n)) && Win(s, n).nodes[n].role == Leader
  {
    hide LogOk, MsgOk, Evolves, BallotOk, NodeOk, TermOk, ToLeader;
    NotWonYet(s, n);
    WinNode(s, n);
    WinTerm(s, n);
    var was, node := s.nodes[n], ToLeader(s.ids, n, s.nodes[n]);
    var h := Win(s, n).h;
    WinEvolves(s.h, was.term, n, node.log, was.votes, h.level);
    PutKeeps(s, n, node, {}, h);
  }

  lemma AppendOk(s: State, n: NodeId, peer: NodeId, m: Msg)
    requires Inv(s) && n in s.nodes && s.nodes[n].role == Leader && m in AppendFor(n, s.nodes[n], peer)
    ensures MsgOk(s.h, m)
  {
    hide LogOk, TermOk, BallotOk;
    assert NodeOk(s.h, n, s.nodes[n]);
  }

  lemma SendKeeps(s: State, n: NodeId, peer: NodeId)
    requires Inv(s) && n in s.nodes && s.nodes[n].role == Leader
    ensures Inv(Send(s, n, peer))
  {
    hide LogOk, MsgOk, TermOk, BallotOk, AppendFor;
    assert NodeOk(s.h, n, s.nodes[n]);
    forall m | m in AppendFor(n, s.nodes[n], peer)
      ensures MsgOk(s.h, m)
    {
      AppendOk(s, n, peer, m);
    }
    PlainKeeps(s, n, s.nodes[n], AppendFor(n, s.nodes[n], peer));
  }

  lemma SendAllKeeps(s: State, n: NodeId)
    requires Inv(s) && n in s.nodes && s.nodes[n].role == Leader
    ensures Inv(SendAll(s, n))
  {
    hide LogOk, MsgOk, TermOk, BallotOk, AppendFor;
    assert NodeOk(s.h, n, s.nodes[n]);
    forall m | m in Broadcast(s.ids, n, s.nodes[n])
      ensures MsgOk(s.h, m)
    {
      var p :| p in Peers(s.ids, n) && m in AppendFor(n, s.nodes[n], p);
      AppendOk(s, n, p, m);
    }
    PlainKeeps(s, n, s.nodes[n], Broadcast(s.ids, n, s.nodes[n]));
  }

  lemma VoteKeeps(s: State, n: NodeId, c: NodeId)
    requires Inv(s) && n in s.nodes && s.nodes[n].term >= 1 && (s.nodes[n].voted.None? || s.nodes[n].voted == Some(c))
    ensures Inv(Vote(s, n, c))
  {
    hide LogOk, TermOk;
    var was, node := s.nodes[n], s.nodes[n].(voted := Some(c));
    var h := Cast(s.h, n, node.term, Ballot(c, node.log));
    assert NodeOk(s.h, n, was);
    SameHistory(s.h, n);
    if (n, node.term) in s.h.ballots {
      assert BallotOk(s.nodes, s.h, n, node.term);
    }
    assert VotedFor(h, n, node.term, c);
    PutKeeps(s, n, node, {VoteResp(n, c, node.term, true)}, h);
  }

  lemma TallyKeeps(s: State, n: NodeId, from: NodeId)
    requires Inv(s) && n in s.nodes && s.nodes[n].role == Candidate && VotedFor(s.h, from, s.nodes[n].term, n)
    ensures Inv(Tally(s, n, from)) && Tally(s, n, from).nodes[n].role == Candidate
  {
    hide LogOk, MsgOk, TermOk, BallotOk;
    assert NodeOk(s.h, n, s.nodes[n]);
    PlainKeeps(s, n, s.nodes[n].(votes := s.nodes[n].votes + {from}), {});
  }

  /** A node that changes nothing recorded about it. */
  lemma QuietKeeps(s: State, n: NodeId, node: Node)
    requires Inv(s) && n in s.nodes
    requires node.term == s.nodes[n].term && node.voted == s.nodes[n].voted && node.log == s.nodes[n].log
    requires node.base == s.nodes[n].base <= node.applied <= node.commit && node.applied <= |node.log|
    requires node.incoming == s.nodes[n].incoming || node.incoming.None?
    requires node.role == Follower || (node.role == Leader && s.nodes[n].role == Leader)
    ensures Inv(Put(s, n, node, {}))
  {
    hide LogOk, MsgOk, TermOk, BallotOk;
    assert NodeOk(s.h, n, s.nodes[n]);
    PlainKeeps(s, n, node, {});
  }

  /** Saying no, or yes to a vote already counted for, needs no justification. */
  lemma AnswerKeeps(s: State, n: NodeId, m: Msg)
    requires Inv(s) && n in s.nodes && (m.AppendResp? || (m.VoteResp? && !m.granted))
    ensures Inv(Answer(s, n, m))
  {
    hide LogOk, TermOk, BallotOk;
    assert NodeOk(s.h, n, s.nodes[n]);
    PlainKeeps(s, n, s.nodes[n], {m});
  }

  // ------------------------------------------------------------------ taking entries

  /** A node that accepts entries has the leader's log before them. */
  lemma FitsAgrees(s: State, m: Msg)
    requires Inv(s) && m in s.msgs && m.Append? && m.to in s.nodes && Fits(s.nodes[m.to], m.prev, m.prevTerm, m.entries)
    ensures
      var log, node := s.h.log, s.nodes[m.to];
      && m.term in log && SegmentOf(log[m.term], m.prev, m.prevTerm, m.entries) && m.prev <= |node.log|
      && node.log[..m.prev] == log[m.term][..m.prev]
  {
    hide LogOk, TermOk, BallotOk;
    var node := s.nodes[m.to];
    assert MsgOk(s.h, m) && NodeOk(s.h, m.to, node);
    LedBy(s, m.term);
    var l := s.h.log[m.term];
    if m.prev > 0 {
      PositiveTerm(s.h.log, l, m.term, m.prev);
      SharedPrefix(s.h.log, node.log, node.term, l, m.term, m.prev);
    }
  }

  lemma PositiveTerm(logs: Logs, log: Log, t: nat, n: nat)
    requires LogOk(logs, log, t) && 0 < n <= |log|
    ensures 1 <= TermOf(log, n) <= t
  {
    assert EntryOk(logs, log, n - 1, t);
  }

  /** What taking the entries makes of the log. */
  lemma TakenLog(s: State, m: Msg)
    requires Inv(s) && m in s.msgs && m.Append? && m.to in s.nodes && m.term == s.nodes[m.to].term
    requires Fits(s.nodes[m.to], m.prev, m.prevTerm, m.entries) && !Rewrites(s.nodes[m.to], m.prev, m.entries)
    ensures m.term in s.h.log && m.prev <= |s.nodes[m.to].log|
    ensures
      var was, log, l, end := s.nodes[m.to], Merge(s.nodes[m.to].log, m.prev, m.entries), s.h.log[m.term], m.prev + |m.entries|;
      && LogOk(s.h.log, log, m.term) && end <= |log| && end <= |l| && log[..end] == l[..end]
      && (log == l[..end] || log == was.log)
      && was.applied <= |log|
      && (was.commit <= |was.log| ==> was.commit <= |log| && log[..was.commit] == was.log[..was.commit])
  {
    hide LogOk, TermOk, BallotOk, MsgOk, IncomingOk, Fits;
    FitsAgrees(s, m);
    LedBy(s, m.term);
    var was, l, end := s.nodes[m.to], s.h.log[m.term], m.prev + |m.entries|;
    assert NodeOk(s.h, m.to, was);
    MergedWithLeader(was.log, m.prev, m.entries, l);
    LogOkPrefix(s.h.log, l, m.term, end);
    var log, c := Merge(was.log, m.prev, m.entries), Conflict(was.log, m.prev, m.entries);
    if c.Some? {
      assert log[..c.value - 1][..was.commit] == log[..was.commit];
      assert was.log[..c.value - 1][..was.commit] == was.log[..was.commit];
    } else if was.commit <= |was.log| {
      assert log[..|was.log|][..was.commit] == log[..was.commit];
    }
  }

  lemma TakeKeeps(s: State, m: Msg)
    requires Inv(s) && m in s.msgs && m.Append? && m.to in s.nodes && m.term == s.nodes[m.to].term && s.nodes[m.to].role == Follower
    requires Fits(s.nodes[m.to], m.prev, m.prevTerm, m.entries) && !Rewrites(s.nodes[m.to], m.prev, m.entries)
    ensures Inv(Take(s, m.to, m.from, m.prev, m.entries, m.leaderCommit))
  {
    hide LogOk, TermOk, BallotOk, Merge, Rewrites;
    TakenLog(s, m);
    var was, node := s.nodes[m.to], Taken(s.nodes[m.to], m.prev, m.entries, m.leaderCommit);
    assert NodeOk(s.h, m.to, was);
    SameHistory(s.h, m.to);
    var h := Take(s, m.to, m.from, m.prev, m.entries, m.leaderCommit).h;
    assert Evolves(s.h, h, m.to);
    PutKeeps(s, m.to, node, {AppendResp(m.to, m.from, node.term, true, m.prev + |m.entries|)}, h);
  }

  lemma ExtendEvolves(h: History, t: nat, n: NodeId, more: Log, level: map<(NodeId, nat), nat>)
    requires t in h.leader && h.leader[t] == n && h.log.Keys == h.leader.Keys && h.electors.Keys == h.leader.Keys
    requires Grows(h.log, h.log[t := h.log[t] + more])
    ensures Evolves(h, h.(log := h.log[t := h.log[t] + more], level := level), n)
  {
  }

  lemma ExtendKeeps(s: State, n: NodeId, batch: seq<Bytes>)
    requires Inv(s) && n in s.nodes && s.nodes[n].role == Leader
    ensures Inv(Extend(s, n, batch))
  {
    hide LogOk, MsgOk, BallotOk, CommitFrom, Replicated, Evolves, IncomingOk;
    var was, more := s.nodes[n], Stamped(s.nodes[n].term, batch);
    var h, node := Extend(s, n, batch).h, Extend(s, n, batch).nodes[n];
    assert NodeOk(s.h, n, was);
    NotWaiting(s.h, n, was);
    assert TermOk(s.ids, s.nodes, s.h, was.term);
    LogOkExtended(s.h.log, was.log, was.term, more);
    CommitBounds(s.ids, n, was.(log := was.log + more), |was.log + more|);
    ExtendEvolves(s.h, was.term, n, more, h.level);
    PutKeeps(s, n, node, {}, h);
  }

  // ------------------------------------------------------------------ events and runs

  lemma WonIfQuorumKeeps(s: State, n: NodeId)
    requires Inv(s) && n in s.nodes && s.nodes[n].role == Candidate
    ensures Inv(WonIfQuorum(s, n))
  {
    hide Inv, SendAll, ToLeader;
    if |s.nodes[n].votes| >= Quorum(s.ids) {
      WinKeeps(s, n);
      SendAllKeeps(Win(s, n), n);
    }
  }

  /** Facts about one node. */
  lemma AtNode(s: State, n: NodeId)
    requires Inv(s) && n in s.nodes
    ensures n in s.ids && NodeOk(s.h, n, s.nodes[n])
  {
  }

  lemma AtMsg(s: State, m: Msg)
    requires Inv(s) && m in s.msgs
    ensures MsgOk(s.h, m)
  {
  }

  lemma VoteRequestKeeps(s: State, m: Msg)
    requires Inv(s) && m.RequestVote? && m.to in s.nodes && m in s.msgs && m.term <= s.nodes[m.to].term
    ensures Inv(OnVoteRequest(s, m))
  {
    hide Inv, BallotOk, Vote, Answer;
    if Grants(s.nodes[m.to], m.term, m.from, m.lastIndex, m.lastTerm) {
      AtMsg(s, m);
      VotesCount(s, m.from, m.term);
      VoteKeeps(s, m.to, m.from);
    } else {
      AnswerKeeps(s, m.to, VoteResp(m.to, m.from, s.nodes[m.to].term, false));
    }
  }

  lemma VotesCount(s: State, j: NodeId, t: nat)
    requires Inv(s) && (j, t) in s.h.ballots
    ensures t >= 1
  {
    assert BallotOk(s.nodes, s.h, j, t);
  }

  lemma VoteRespKeeps(s: State, m: Msg)
    requires Inv(s) && m.VoteResp? && m.to in s.nodes && m in s.msgs
    ensures Inv(OnVoteResp(s, m))
  {
    hide Inv, WonIfQuorum;
    if s.nodes[m.to].role == Candidate && m.term == s.nodes[m.to].term && m.granted {
      AtMsg(s, m);
      TallyKeeps(s, m.to, m.from);
      WonIfQuorumKeeps(Tally(s, m.to, m.from), m.to);
    }
  }

  lemma FollowKeeps(s: State, n: NodeId)
    requires Inv(s) && n in s.nodes
    ensures Inv(Follow(s, n))
  {
    hide Inv, LogOk;
    AtNode(s, n);
    QuietKeeps(s, n, Followed(s.nodes[n]));
  }

  lemma AppendKeeps(s: State, m: Msg)
    requires Inv(s) && m.Append? && m.to in s.nodes && m in s.msgs && m.term <= s.nodes[m.to].term
    ensures Inv(OnAppend(s, m))
  {
    hide Inv, LogOk, Answer, Take, Fits, Rewrites;
    var n := m.to;
    if m.term < s.nodes[n].term {
      AnswerKeeps(s, n, AppendResp(n, m.from, s.nodes[n].term, false, |s.nodes[n].log|));
    } else {
      var f := Follow(s, n);
      FollowKeeps(s, n);
      if !Fits(f.nodes[n], m.prev, m.prevTerm, m.entries) {
        AnswerKeeps(f, n, AppendResp(n, m.from, f.nodes[n].term, false, |f.nodes[n].log|));
      } else {
        FitsInside(f.nodes[n], m.prev, m.prevTerm, m.entries);
        if Rewrites(f.nodes[n], m.prev, m.entries) {
          AtNode(f, n);
          QuietKeeps(f, n, f.nodes[n].(failed := true));
        } else {
          TakeKeeps(f, m);
        }
      }
    }
  }

  lemma FitsInside(n: Node, prev: nat, prevTerm: nat, entries: Log)
    requires Fits(n, prev, prevTerm, entries)
    ensures prev <= |n.log|
  {
  }

  lemma ConfirmedKeeps(s: State, n: NodeId, peer: NodeId, index: nat)
    requires Inv(s) && n in s.nodes && s.nodes[n].role == Leader
    ensures Inv(Put(s, n, Confirmed(s.ids, n, s.nodes[n], peer, index), {}))
  {
    hide Inv, LogOk, CommitFrom, Replicated;
    AtNode(s, n);
    var bounded := Max(Min(index, |s.nodes[n].log|), MatchedAt(s.nodes[n], peer));
    var m := s.nodes[n].(matched := s.nodes[n].matched[peer := bounded], next := s.nodes[n].next[peer := bounded + 1]);
    CommitBounds(s.ids, n, m, |m.log|);
    QuietKeeps(s, n, Confirmed(s.ids, n, s.nodes[n], peer, index));
  }

  lemma AppendRespKeeps(s: State, m: Msg)
    requires Inv(s) && m.AppendResp? && m.to in s.nodes
    ensures Inv(OnAppendResp(s, m))
  {
    hide Inv, LogOk, Send, CommitFrom;
    var n := m.to;
    if s.nodes[n].role == Leader && m.term == s.nodes[n].term {
      AtNode(s, n);
      if m.success {
        ConfirmedKeeps(s, n, m.from, m.index);
        SendKeeps(Put(s, n, Confirmed(s.ids, n, s.nodes[n], m.from, m.index), {}), n, m.from);
      } else {
        QuietKeeps(s, n, Retreated(s.nodes[n], m.from, m.index));
        SendKeeps(Put(s, n, Retreated(s.nodes[n], m.from, m.index), {}), n, m.from);
      }
    }
  }

  lemma RaisedEvolves(h: History, n: NodeId, t: nat, index: nat)
    requires h.log.Keys == h.leader.Keys && h.electors.Keys == h.leader.Keys
    ensures Evolves(h, Raised(h, n, t, index), n)
  {
    assert forall u :: u in h.log ==> h.log[u][..|h.log[u]|] == h.log[u];
  }

  lemma AffirmKeeps(s: State, n: NodeId, leader: NodeId, index: nat)
    requires Inv(s) && n in s.nodes
    ensures Inv(Affirm(s, n, leader, index))
  {
    hide LogOk, TermOk, BallotOk, Evolves;
    var node, h := s.nodes[n].(incoming := None), Raised(s.h, n, s.nodes[n].term, index);
    assert NodeOk(s.h, n, s.nodes[n]);
    RaisedEvolves(s.h, n, s.nodes[n].term, index);
    PutKeeps(s, n, node, {SnapshotResp(n, leader, node.term, index)}, h);
  }

  lemma SnapshotKeeps(s: State, m: Msg)
    requires Inv(s) && m.Snapshot? && m.to in s.nodes && m in s.msgs
    ensures Inv(OnSnapshot(s, m))
  {
    hide LogOk, TermOk, BallotOk, Affirm, Inv;
    var n := m.to;
    if m.term == s.nodes[n].term && m.index != 0 && m.lastTerm != 0 {
      FollowKeeps(s, n);
      var f := Follow(s, n);
      AtNode(f, n);
      AtMsg(f, m);
      if m.index <= f.nodes[n].applied {
        AffirmKeeps(f, n, m.from, m.index);
      } else {
        PlainKeeps(f, n, f.nodes[n].(incoming := Some(Incoming(m.term, m.from, m.index, m.lastTerm, m.prefix))), {});
      }
    }
  }

  lemma SnapshotRespKeeps(s: State, m: Msg)
    requires Inv(s) && m.SnapshotResp? && m.to in s.nodes
    ensures Inv(OnSnapshotResp(s, m))
  {
    hide Inv, LogOk, Send, CommitFrom;
    var n := m.to;
    if s.nodes[n].role == Leader && m.term == s.nodes[n].term {
      ConfirmedKeeps(s, n, m.from, m.index);
      SendKeeps(Put(s, n, Confirmed(s.ids, n, s.nodes[n], m.from, m.index), {}), n, m.from);
    }
  }

  /** What installing makes of the log: nothing new, or the beginning of the leader's log. */
  lemma InstalledLog(s: State, n: NodeId)
    requires Inv(s) && n in s.nodes && Waiting(s.nodes[n])
    ensures
      var was, i := s.nodes[n], s.nodes[n].incoming.value;
      var log, l := Installed(was, i).log, s.h.log[was.term];
      && was.term in s.h.log && 1 <= i.index <= |l| && LogOk(s.h.log, log, was.term)
      && i.index <= |log| && log[..i.index] == l[..i.index]
      && (log == was.log || (log == l[..i.index] && (|was.log| < i.index || was.log[i.index - 1].term != l[i.index - 1].term)))
  {
    hide LogOk, MsgOk, BallotOk;
    var was, i := s.nodes[n], s.nodes[n].incoming.value;
    assert NodeOk(s.h, n, was);
    var l := s.h.log[was.term];
    LedBy(s, was.term);
    LogOkPrefix(s.h.log, l, was.term, i.index);
    PositiveTerm(s.h.log, l, was.term, i.index);
    if TermAt(was, i.index) == i.lastTerm {
      SharedPrefix(s.h.log, was.log, was.term, l, was.term, i.index);
      assert was.log == was.log[..i.index] + was.log[i.index..];
    }
  }

  lemma InstallKeeps(s: State, n: NodeId)
    requires Inv(s) && n in s.nodes && Waiting(s.nodes[n])
    ensures Inv(Install(s, n))
  {
    hide LogOk, TermOk, BallotOk, Evolves;
    var was, i := s.nodes[n], s.nodes[n].incoming.value;
    var node, h := Installed(was, i), Raised(s.h, n, was.term, i.index);
    assert NodeOk(s.h, n, was);
    InstalledLog(s, n);
    RaisedEvolves(s.h, n, was.term, i.index);
    PutKeeps(s, n, node, {SnapshotResp(n, i.from, node.term, i.index)}, h);
  }

  lemma DeliverKeeps(s: State, m: Msg)
    requires Inv(s) && Enabled(s, Deliver(m))
    ensures Inv(Next(s, Deliver(m)))
  {
    hide Inv, OnVoteRequest, OnVoteResp, OnAppend, OnAppendResp, OnSnapshot, OnSnapshotResp;
    BumpKeeps(s, m.to, m.term);
    var b := Bump(s, m.to, m.term);
    match m
    case RequestVote(_, _, _, _, _) => VoteRequestKeeps(b, m);
    case VoteResp(_, _, _, _) => VoteRespKeeps(b, m);
    case Append(_, _, _, _, _, _, _) => AppendKeeps(b, m);
    case AppendResp(_, _, _, _, _) => AppendRespKeeps(b, m);
    case Snapshot(_, _, _, _, _, _) => SnapshotKeeps(b, m);
    case SnapshotResp(_, _, _, _) => SnapshotRespKeeps(b, m);
  }

  lemma EventKeeps(s: State, e: Event)
    requires Inv(s) && Enabled(s, e)
    ensures Inv(Next(s, e))
  {
    hide Inv, LogOk, AskVotes, WonIfQuorum, Extend, SendAll, Install, OnVoteRequest, OnVoteResp, OnAppend, OnAppendResp, OnSnapshot, OnSnapshotResp;
    if e.Deliver? {
      DeliverKeeps(s, e.m);
    } else {
      AtNode(s, e.n);
      match e
      case Timeout(n) =>
        StandKeeps(s, n);
        if Quorum(s.ids) == 1 {
          WonIfQuorumKeeps(Stand(s, n), n);
        } else {
          AskVotesKeeps(Stand(s, n), n);
        }
      case Propose(n, batch) => ExtendKeeps(s, n, batch);
      case Heartbeat(n) => SendAllKeeps(s, n);
      case Apply(n, index) => KeepsRole(s, n, s.nodes[n].(applied := index));
      case Compact(n) => KeepsRole(s, n, s.nodes[n].(base := s.nodes[n].applied));
      case Adopt(n) => InstallKeeps(s, n);
      case Restart(n, commit) =>
        QuietKeeps(s, n, s.nodes[n].(role := Follower, commit := commit, votes := {}, next := map[], matched := map[], incoming := None, failed := false));
    }
  }

  /** Applying and compacting, in any role. */
  lemma KeepsRole(s: State, n: NodeId, node: Node)
    requires Inv(s) && n in s.nodes && node.base <= node.applied <= node.commit && node.applied <= |node.log|
    requires node == s.nodes[n].(applied := node.applied, base := node.base)
    requires Waiting(node) ==> node.base < node.incoming.value.index
    ensures Inv(Put(s, n, node, {}))
  {
    hide LogOk, MsgOk, TermOk, BallotOk;
    assert NodeOk(s.h, n, s.nodes[n]);
    PlainKeeps(s, n, node, {});
  }

  ghost predicate IsRun(ids: set<NodeId>, states: seq<State>, events: seq<Event>) {
    && |states| == |events| + 1 && states[0] == Initial(ids)
    && (forall i :: 0 <= i < |events| ==> Enabled(states[i], events[i]) && states[i + 1] == Next(states[i], events[i]))
  }

  lemma InitialInv(ids: set<NodeId>)
    ensures Inv(Initial(ids))
  {
  }

  lemma {:induction false} RunInv(ids: set<NodeId>, states: seq<State>, events: seq<Event>, k: nat)
    requires IsRun(ids, states, events) && k < |states|
    ensures Inv(states[k]) && states[k].ids == ids
  {
    hide Inv, Next, Enabled;
    if k == 0 {
      InitialInv(ids);
    } else {
      RunInv(ids, states, events, k - 1);
      EventKeeps(states[k - 1], events[k - 1]);
      SameIds(states[k - 1], events[k - 1]);
    }
  }

  lemma SameIds(s: State, e: Event)
    requires Enabled(s, e)
    ensures Next(s, e).ids == s.ids
  {
    hide Merge, CommitFrom, Fits, Rewrites;
  }

  /** Two nodes are never leaders of one term. */
  lemma ElectionSafety(ids: set<NodeId>, states: seq<State>, events: seq<Event>, k: nat, a: NodeId, b: NodeId)
    requires IsRun(ids, states, events) && k < |states| && a in states[k].nodes && b in states[k].nodes
    requires states[k].nodes[a].role == Leader && states[k].nodes[b].role == Leader && states[k].nodes[a].term == states[k].nodes[b].term
    ensures a == b
  {
    hide IsRun, LogOk, MsgOk, TermOk, BallotOk;
    RunInv(ids, states, events, k);
    assert NodeOk(states[k].h, a, states[k].nodes[a]) && NodeOk(states[k].h, b, states[k].nodes[b]);
  }

  /** Logs with the same term at a position are the same up to it. */
  lemma LogMatching(ids: set<NodeId>, states: seq<State>, events: seq<Event>, k: nat, a: NodeId, b: NodeId, i: nat)
    requires IsRun(ids, states, events) && k < |states| && a in states[k].nodes && b in states[k].nodes
    requires i < |states[k].nodes[a].log| && i < |states[k].nodes[b].log| && states[k].nodes[a].log[i].term == states[k].nodes[b].log[i].term
    ensures states[k].nodes[a].log[..i + 1] == states[k].nodes[b].log[..i + 1]
  {
    hide IsRun, LogOk, MsgOk, TermOk, BallotOk;
    RunInv(ids, states, events, k);
    var m, n := states[k].nodes[a], states[k].nodes[b];
    assert NodeOk(states[k].h, a, m) && NodeOk(states[k].h, b, n);
    SharedPrefix(states[k].h.log, m.log, m.term, n.log, n.term, i + 1);
  }
}
