/**
 Commitment: what nodes take as committed is the same everywhere and for good, in every run in
 which three conditions hold that the program does not enforce.
 */
module RaftCommit {
  import opened Basics
  import opened Raft
  import opened RaftLogs
  import opened RaftElection
  import opened RaftSafety

  // ------------------------------------------------------------------ committed positions

  ghost predicate Confirms(h: History, q: set<NodeId>, t: nat, i: nat) {
    forall j :: j in q ==> Level(h, j, t) >= i
  }

  /** A majority has confirmed a position in the term in which it was written. */
  ghost predicate Committed(ids: set<NodeId>, h: History, t: nat, i: nat) {
    Own(h, t, i) && exists q :: QuorumOf(ids, q) && Confirms(h, q, t, i)
  }

  ghost predicate Agrees(h: History, t: nat, log: Log, c: nat) {
    t in h.log && c <= |log| && c <= |h.log[t]| && log[..c] == h.log[t][..c]
  }

  ghost predicate BackedBy(ids: set<NodeId>, h: History, log: Log, c: nat, t: nat, i: nat) {
    Committed(ids, h, t, i) && c <= i && Agrees(h, t, log, c)
  }

  /** The first `c` entries of a log are committed. */
  ghost predicate Backed(ids: set<NodeId>, h: History, log: Log, c: nat) {
    c == 0 || exists t: nat, i: nat :: BackedBy(ids, h, log, c, t, i)
  }

  ghost predicate MsgBacked(ids: set<NodeId>, h: History, m: Msg) {
    && (m.Append? ==> m.term in h.log && Backed(ids, h, h.log[m.term], m.leaderCommit))
    && (m.AppendResp? && m.success ==> m.index <= Level(h, m.from, m.term))
    && (m.Snapshot? ==> m.term in h.log && Backed(ids, h, h.log[m.term], m.index))
    && (m.SnapshotResp? ==> m.index <= Level(h, m.from, m.term))
  }

  /** A waiting snapshot is committed. */
  ghost predicate WaitOk(ids: set<NodeId>, h: History, n: Node) {
    Waiting(n) ==> Backed(ids, h, n.incoming.value.prefix, n.incoming.value.index)
  }

  /** A leader counts no more for a peer than the peer has confirmed. */
  ghost predicate MatchOk(h: History, n: Node) {
    forall p :: MatchedAt(n, p) <= Level(h, p, n.term)
  }

  ghost predicate CommitInv(s: State) {
    && (forall j :: j in s.nodes ==> Backed(s.ids, s.h, s.nodes[j].log, s.nodes[j].commit) && WaitOk(s.ids, s.h, s.nodes[j]))
    && (forall j :: j in s.nodes && s.nodes[j].role == Leader ==> MatchOk(s.h, s.nodes[j]))
    && (forall m :: m in s.msgs ==> MsgBacked(s.ids, s.h, m))
  }

  // ------------------------------------------------------------------ committed stays committed

  /** Logs grow and confirmations rise. */
  ghost predicate Ups(h: History, h': History) {
    Grows(h.log, h'.log) && forall j: NodeId, t: nat :: Level(h, j, t) <= Level(h', j, t)
  }

  lemma AgreesUp(h: History, h': History, t: nat, log: Log, log': Log, c: nat)
    requires Agrees(h, t, log, c) && Grows(h.log, h'.log) && c <= |log'| && log'[..c] == log[..c]
    ensures Agrees(h', t, log', c)
  {
    assert Prefix(h.log[t], h'.log[t]);
    assert h'.log[t][..|h.log[t]|][..c] == h'.log[t][..c];
  }

  lemma CommittedUp(ids: set<NodeId>, h: History, h': History, t: nat, i: nat)
    requires Committed(ids, h, t, i) && Ups(h, h')
    ensures Committed(ids, h', t, i)
  {
    assert Prefix(h.log[t], h'.log[t]);
    assert h'.log[t][..|h.log[t]|][i - 1] == h'.log[t][i - 1];
    var q :| QuorumOf(ids, q) && Confirms(h, q, t, i);
    assert Confirms(h', q, t, i);
  }

  lemma BackedUp(ids: set<NodeId>, h: History, h': History, log: Log, log': Log, c: nat, c': nat)
    requires Backed(ids, h, log, c) && Ups(h, h') && c' <= c && c' <= |log'| && c' <= |log| && log'[..c'] == log[..c']
    ensures Backed(ids, h', log', c')
  {
    hide Committed, Ups;
    if c' > 0 {
      var t: nat, i: nat :| BackedBy(ids, h, log, c, t, i);
      CommittedUp(ids, h, h', t, i);
      UpsGrows(h, h');
      assert log[..c][..c'] == log[..c'] && h.log[t][..c][..c'] == h.log[t][..c'];
      assert Agrees(h, t, log, c');
      AgreesUp(h, h', t, log, log', c');
      assert BackedBy(ids, h', log', c', t, i);
    }
  }

  lemma UpsGrows(h: History, h': History)
    requires Ups(h, h')
    ensures Grows(h.log, h'.log)
  {
  }

  lemma SameUps(h: History)
    ensures Ups(h, h)
  {
    assert forall t :: t in h.log ==> h.log[t][..|h.log[t]|] == h.log[t];
  }

  lemma MsgBackedUp(ids: set<NodeId>, h: History, h': History, m: Msg)
    requires MsgBacked(ids, h, m) && Ups(h, h')
    ensures MsgBacked(ids, h', m)
  {
    hide Backed;
    if m.Append? {
      var a, b := h.log[m.term], h'.log[m.term];
      assert Prefix(a, b);
      BackedInside(ids, h, a, m.leaderCommit);
      assert b[..|a|][..m.leaderCommit] == b[..m.leaderCommit];
      BackedUp(ids, h, h', a, b, m.leaderCommit, m.leaderCommit);
    }
    if m.Snapshot? {
      var a, b := h.log[m.term], h'.log[m.term];
      assert Prefix(a, b);
      BackedInside(ids, h, a, m.index);
      assert b[..|a|][..m.index] == b[..m.index];
      BackedUp(ids, h, h', a, b, m.index, m.index);
    }
  }

  lemma WaitUp(ids: set<NodeId>, h: History, h': History, n: Node)
    requires WaitOk(ids, h, n) && Ups(h, h')
    ensures WaitOk(ids, h', n)
  {
    hide Backed, Ups;
    if Waiting(n) {
      var i := n.incoming.value;
      BackedInside(ids, h, i.prefix, i.index);
      BackedUp(ids, h, h', i.prefix, i.prefix, i.index, i.index);
    }
  }

  lemma BackedInside(ids: set<NodeId>, h: History, log: Log, c: nat)
    requires Backed(ids, h, log, c)
    ensures c <= |log|
  {
  }

  /** The invariant after a step of one node, from what that node has to show. */
  lemma PutBacked(s: State, n: NodeId, node: Node, out: set<Msg>, h: History)
    requires CommitInv(s) && n in s.nodes && Ups(s.h, h) && Backed(s.ids, h, node.log, node.commit) && WaitOk(s.ids, h, node)
    requires node.role == Leader ==> MatchOk(h, node)
    requires forall m :: m in out ==> MsgBacked(s.ids, h, m)
    ensures CommitInv(State(s.ids, s.nodes[n := node], s.msgs + out, h))
  {
    hide Backed, MsgBacked, Ups, WaitOk;
    forall j | j in s.nodes && j != n
      ensures Backed(s.ids, h, s.nodes[j].log, s.nodes[j].commit) && WaitOk(s.ids, h, s.nodes[j])
    {
      WaitUp(s.ids, s.h, h, s.nodes[j]);
      BackedInside(s.ids, s.h, s.nodes[j].log, s.nodes[j].commit);
      BackedUp(s.ids, s.h, h, s.nodes[j].log, s.nodes[j].log, s.nodes[j].commit, s.nodes[j].commit);
    }
    forall j | j in s.nodes && j != n && s.nodes[j].role == Leader
      ensures MatchOk(h, s.nodes[j])
    {
      MatchUp(s.h, h, s.nodes[j]);
    }
    forall m | m in s.msgs
      ensures MsgBacked(s.ids, h, m)
    {
      MsgBackedUp(s.ids, s.h, h, m);
    }
  }

  lemma MatchUp(h: History, h': History, n: Node)
    requires MatchOk(h, n) && Ups(h, h')
    ensures MatchOk(h', n)
  {
    forall p
      ensures MatchedAt(n, p) <= Level(h', p, n.term)
    {
      assert MatchedAt(n, p) <= Level(h, p, n.term);
    }
  }

  /** A node that keeps its log and does not commit more. */
  lemma QuietBacked(s: State, n: NodeId, node: Node, out: set<Msg>)
    requires CommitInv(s) && n in s.nodes && node.log == s.nodes[n].log && node.commit <= s.nodes[n].commit
    requires WaitOk(s.ids, s.h, node) && (node.role == Leader ==> MatchOk(s.h, node))
    requires forall m :: m in out ==> MsgBacked(s.ids, s.h, m)
    ensures CommitInv(Put(s, n, node, out))
  {
    hide Backed, MsgBacked, Ups;
    SameUps(s.h);
    BackedInside(s.ids, s.h, s.nodes[n].log, s.nodes[n].commit);
    BackedUp(s.ids, s.h, s.h, s.nodes[n].log, node.log, s.nodes[n].commit, node.commit);
    PutBacked(s, n, node, out, s.h);
  }

  /** Casting a vote says nothing about commitment. */
  lemma CastBacked(s: State, n: NodeId, u: nat, b: Ballot)
    requires CommitInv(s)
    ensures CommitInv(s.(h := Cast(s.h, n, u, b)))
  {
    hide Ups, Backed, MsgBacked, MatchOk, WaitOk;
    var h := Cast(s.h, n, u, b);
    CastUps(s.h, n, u, b);
    forall j | j in s.nodes
      ensures Backed(s.ids, h, s.nodes[j].log, s.nodes[j].commit) && WaitOk(s.ids, h, s.nodes[j])
    {
      WaitUp(s.ids, s.h, h, s.nodes[j]);
      BackedInside(s.ids, s.h, s.nodes[j].log, s.nodes[j].commit);
      BackedUp(s.ids, s.h, h, s.nodes[j].log, s.nodes[j].log, s.nodes[j].commit, s.nodes[j].commit);
    }
    forall j | j in s.nodes && s.nodes[j].role == Leader
      ensures MatchOk(h, s.nodes[j])
    {
      MatchUp(s.h, h, s.nodes[j]);
    }
    forall m | m in s.msgs
      ensures MsgBacked(s.ids, h, m)
    {
      MsgBackedUp(s.ids, s.h, h, m);
    }
  }

  lemma CastUps(h: History, n: NodeId, u: nat, b: Ballot)
    ensures Ups(h, Cast(h, n, u, b))
  {
    assert forall t :: t in h.log ==> h.log[t][..|h.log[t]|] == h.log[t];
  }

  // ------------------------------------------------------------------ a leader commits

  lemma {:induction false} CommitFromIs(ids: set<NodeId>, id: NodeId, n: Node, i: nat)
    requires i <= |n.log|
    ensures
      var c := CommitFrom(ids, id, n, i);
      c == n.commit || (n.commit < c <= i && TermAt(n, c) == n.term && Replicated(ids, id, n, c))
  {
    hide Replicated;
    if i > n.commit && !(TermAt(n, i) == n.term && Replicated(ids, id, n, i)) {
      CommitFromIs(ids, id, n, i - 1);
    }
  }

  /** Counting confirmed peers, the leader commits only what is committed. */
  lemma LeaderBacked(ids: set<NodeId>, h: History, id: NodeId, n: Node)
    requires id in ids && n.term >= 1 && n.term in h.log && h.log[n.term] == n.log && Level(h, id, n.term) == |n.log|
    requires MatchOk(h, n) && Backed(ids, h, n.log, n.commit)
    ensures Backed(ids, h, AdvanceCommit(ids, id, n).log, AdvanceCommit(ids, id, n).commit)
  {
    hide Backed, CommitFrom;
    CommitFromIs(ids, id, n, |n.log|);
    var c := CommitFrom(ids, id, n, |n.log|);
    if c != n.commit {
      var peers := set p | p in Peers(ids, id) && MatchedAt(n, p) >= c;
      var q := peers + {id};
      assert |q| == |peers| + 1;
      assert Confirms(h, q, n.term, c);
      assert QuorumOf(ids, q);
      ByLeader(ids, h, n.log, c, n.term);
    }
  }

  lemma ByLeader(ids: set<NodeId>, h: History, log: Log, c: nat, t: nat)
    requires Committed(ids, h, t, c) && t in h.log && h.log[t] == log
    ensures Backed(ids, h, log, c)
  {
    assert BackedBy(ids, h, log, c, t, c);
  }

  // ------------------------------------------------------------------ the whole invariant, step by step

  ghost predicate All(s: State) {
    Inv(s) && SafeInv(s) && CommitInv(s)
  }

  /** What is committed is in the log of every later leader. */
  lemma CommittedInLater(s: State, t: nat, i: nat, u: nat)
    requires All(s) && Committed(s.ids, s.h, t, i) && u in s.h.log && t < u
    ensures Has(s.h, s.h.log[u], t, i)
  {
    hide Inv, CommitInv, Has, KeepOk, BallotSafe, BallotUp;
    SameKeys(s);
    var q :| QuorumOf(s.ids, q) && Confirms(s.h, q, t, i);
    assert Choosable(s.nodes, s.h, q, t, i);
    assert ChosenOk(s.ids, s.nodes, s.h, t, u, i);
  }

  /** Two logs agree on what both have committed. */
  lemma BackedAgree(s: State, a: Log, c: nat, b: Log, d: nat)
    requires All(s) && Backed(s.ids, s.h, a, c) && Backed(s.ids, s.h, b, d) && c <= d
    ensures c <= |a| && c <= |b| && a[..c] == b[..c]
  {
    hide All, Committed;
    if c > 0 {
      var t: nat, i: nat :| BackedBy(s.ids, s.h, a, c, t, i);
      var u: nat, j: nat :| BackedBy(s.ids, s.h, b, d, u, j);
      var x, y := s.h.log[t], s.h.log[u];
      assert b[..d][..c] == b[..c] && y[..d][..c] == y[..c];
      assert x[..c] == y[..c] by {
        OwnFacts(s, t, i);
        OwnFacts(s, u, j);
        if t < u {
          CommittedInLater(s, t, i, u);
          assert y[..i][..c] == y[..c] && x[..i][..c] == x[..c];
        } else if u < t {
          CommittedInLater(s, u, j, t);
          assert x[..j][..c] == x[..c] && y[..j][..c] == y[..c];
        }
      }
    }
  }

  lemma OwnFacts(s: State, t: nat, i: nat)
    requires Committed(s.ids, s.h, t, i)
    ensures Own(s.h, t, i)
  {
  }

  /** A node that keeps its log, does not commit more, and is no leader unless it was one counting the same. */
  lemma QuietAll(s: State, n: NodeId, node: Node)
    requires All(s) && n in s.nodes && Inv(Put(s, n, node, {}))
    requires node.log == s.nodes[n].log && node.term >= s.nodes[n].term && node.commit <= s.nodes[n].commit
    requires node.role == Leader ==> s.nodes[n].role == Leader && node.matched == s.nodes[n].matched && node.term == s.nodes[n].term
    requires Waiting(node) ==> node.incoming == s.nodes[n].incoming && node.term == s.nodes[n].term
    ensures All(Put(s, n, node, {}))
  {
    hide Inv, SafeInv, Backed, MsgBacked;
    QuietSafe(s, n, node, {});
    if node.role == Leader {
      assert MatchOk(s.h, s.nodes[n]);
      assert forall p :: MatchedAt(node, p) == MatchedAt(s.nodes[n], p);
    }
    QuietBacked(s, n, node, {});
  }

  /** Sending something needs only its own justification. */
  lemma SentAll(s: State, n: NodeId, out: set<Msg>)
    requires All(s) && n in s.nodes && Inv(Put(s, n, s.nodes[n], out)) && (forall m :: m in out ==> MsgBacked(s.ids, s.h, m))
    ensures All(Put(s, n, s.nodes[n], out))
  {
    hide Inv, SafeInv, Backed, MsgBacked;
    QuietSafe(s, n, s.nodes[n], out);
    QuietBacked(s, n, s.nodes[n], out);
  }

  lemma BumpAll(s: State, n: NodeId, term: nat)
    requires All(s) && n in s.nodes
    ensures All(Bump(s, n, term))
  {
    hide Inv, SafeInv, CommitInv;
    BumpKeeps(s, n, term);
    if term > s.nodes[n].term {
      QuietAll(s, n, Bumped(s.nodes[n], term));
    }
  }

  /** Candidates and leaders wait for no snapshot. */
  lemma Busy(s: State, n: NodeId)
    requires Inv(s) && n in s.nodes && s.nodes[n].role != Follower
    ensures !Waiting(s.nodes[n])
  {
    hide Inv, NodeOk;
    AtNode(s, n);
    NotWaiting(s.h, n, s.nodes[n]);
  }

  lemma StandAll(s: State, n: NodeId)
    requires All(s) && n in s.nodes
    ensures All(Stand(s, n)) && Stand(s, n).nodes[n].role == Candidate
  {
    hide Inv, SafeInv, Backed, MsgBacked;
    StandKeeps(s, n);
    StandSafe(s, n);
    var node := ToCandidate(n, s.nodes[n]);
    Busy(Stand(s, n), n);
    QuietBacked(s, n, node, {});
    CastBacked(Put(s, n, node, {}), n, node.term, Ballot(n, node.log));
  }

  lemma AskVotesAll(s: State, n: NodeId)
    requires All(s) && n in s.nodes && s.nodes[n].role == Candidate
    ensures All(AskVotes(s, n))
  {
    hide Inv, SafeInv, CommitInv;
    AskVotesKeeps(s, n);
    var m := s.nodes[n];
    SentAll(s, n, set p | p in Peers(s.ids, n) :: RequestVote(n, p, m.term, |m.log|, LastLogTerm(m)));
  }

  lemma VoteAll(s: State, m: Msg)
    requires All(s) && m in s.msgs && m.RequestVote? && m.to in s.nodes && m.from != m.to && m.term >= 1
    requires Grants(s.nodes[m.to], m.term, m.from, m.lastIndex, m.lastTerm) && HoldsLast(s.nodes[m.to])
    ensures All(Vote(s, m.to, m.from))
  {
    hide Inv, SafeInv, Backed, HoldsLast, UpToDate;
    VoteKeeps(s, m.to, m.from);
    VoteSafe(s, m);
    var n, node := m.to, s.nodes[m.to].(voted := Some(m.from));
    var out := {VoteResp(n, m.from, node.term, true)};
    assert node.role == Leader ==> MatchOk(s.h, s.nodes[n]);
    assert forall p :: MatchedAt(node, p) == MatchedAt(s.nodes[n], p);
    QuietBacked(s, n, node, out);
    CastBacked(Put(s, n, node, out), n, node.term, Ballot(m.from, node.log));
  }

  lemma AnswerAll(s: State, n: NodeId, m: Msg)
    requires All(s) && n in s.nodes && ((m.AppendResp? && !m.success) || (m.VoteResp? && !m.granted))
    ensures All(Answer(s, n, m))
  {
    hide Inv, SafeInv, CommitInv;
    AnswerKeeps(s, n, m);
    SentAll(s, n, {m});
  }

  lemma TallyAll(s: State, n: NodeId, from: NodeId)
    requires All(s) && n in s.nodes && s.nodes[n].role == Candidate && VotedFor(s.h, from, s.nodes[n].term, n)
    ensures All(Tally(s, n, from)) && Tally(s, n, from).nodes[n].role == Candidate
  {
    hide Inv, SafeInv, CommitInv;
    TallyKeeps(s, n, from);
    QuietAll(s, n, s.nodes[n].(votes := s.nodes[n].votes + {from}));
  }

  lemma AppendBacked(s: State, n: NodeId, peer: NodeId, m: Msg)
    requires All(s) && n in s.nodes && s.nodes[n].role == Leader && m in AppendFor(n, s.nodes[n], peer)
    ensures MsgBacked(s.ids, s.h, m)
  {
    hide Inv, SafeInv, Backed, LogOk, Ups;
    AtLeader(s, n);
    AtNode(s, n);
    SameUps(s.h);
    BackedUp(s.ids, s.h, s.h, s.nodes[n].log, s.nodes[n].log, s.nodes[n].commit, s.nodes[n].base);
  }

  lemma SendAllAll(s: State, n: NodeId)
    requires All(s) && n in s.nodes && s.nodes[n].role == Leader
    ensures All(SendAll(s, n))
  {
    hide Inv, SafeInv, CommitInv, AppendFor, MsgBacked;
    SendAllKeeps(s, n);
    forall m | m in Broadcast(s.ids, n, s.nodes[n])
      ensures MsgBacked(s.ids, s.h, m)
    {
      var p :| p in Peers(s.ids, n) && m in AppendFor(n, s.nodes[n], p);
      AppendBacked(s, n, p, m);
    }
    SentAll(s, n, Broadcast(s.ids, n, s.nodes[n]));
  }

  lemma SendAllTo(s: State, n: NodeId, peer: NodeId)
    requires All(s) && n in s.nodes && s.nodes[n].role == Leader
    ensures All(Send(s, n, peer))
  {
    hide Inv, SafeInv, CommitInv, AppendFor, MsgBacked;
    SendKeeps(s, n, peer);
    forall m | m in AppendFor(n, s.nodes[n], peer)
      ensures MsgBacked(s.ids, s.h, m)
    {
      AppendBacked(s, n, peer, m);
    }
    SentAll(s, n, AppendFor(n, s.nodes[n], peer));
  }

  // ------------------------------------------------------------------ winning, with no progress left over

  /** The condition on a candidate: no majority of old progress reaches past its log. */
  predicate NoStaleProgress(ids: set<NodeId>, id: NodeId, n: Node) {
    Quorum(ids) == 1 || !Replicated(ids, id, n, |n.log| + 1)
  }

  lemma {:induction false} CommitStays(ids: set<NodeId>, id: NodeId, n: Node, i: nat)
    requires i <= |n.log| && forall k :: n.commit < k <= i ==> TermAt(n, k) != n.term
    ensures CommitFrom(ids, id, n, i) == n.commit
  {
    if i > n.commit {
      CommitStays(ids, id, n, i - 1);
    }
  }

  lemma SameProgress(ids: set<NodeId>, id: NodeId, n: Node, m: Node, i: nat)
    requires m.matched == n.matched
    ensures Replicated(ids, id, m, i) <==> Replicated(ids, id, n, i)
  {
    assert (set p | p in Peers(ids, id) && MatchedAt(m, p) >= i) == (set p | p in Peers(ids, id) && MatchedAt(n, p) >= i);
  }

  /** A new leader commits nothing, unless it is alone. */
  lemma WinCommit(ids: set<NodeId>, id: NodeId, n: Node)
    requires NoStaleProgress(ids, id, n) && n.commit <= |n.log| && n.base <= |n.log| && id in ids
    requires forall i :: 0 <= i < |n.log| ==> n.log[i].term != n.term
    requires n.term >= 1
    ensures ToLeader(ids, id, n).commit == if Quorum(ids) == 1 then |n.log| + 1 else n.commit
  {
    var m := n.(role := Leader, log := n.log + [Entry(n.term, [])]);
    SameProgress(ids, id, n, m, |m.log|);
    assert Quorum(ids) == 1 ==> Replicated(ids, id, m, |m.log|);
    if Quorum(ids) != 1 {
      CommitStays(ids, id, m, |n.log|);
    }
  }

  lemma CandidateFacts(s: State, n: NodeId)
    requires Inv(s) && n in s.nodes && s.nodes[n].role == Candidate && s.nodes[n].term !in s.h.log
    ensures n in s.ids && s.nodes[n].base <= |s.nodes[n].log|
    ensures forall i :: 0 <= i < |s.nodes[n].log| ==> s.nodes[n].log[i].term != s.nodes[n].term
  {
    hide MsgOk, TermOk, BallotOk;
    assert NodeOk(s.h, n, s.nodes[n]);
    forall i | 0 <= i < |s.nodes[n].log|
      ensures s.nodes[n].log[i].term != s.nodes[n].term
    {
      assert EntryOk(s.h.log, s.nodes[n].log, i, s.nodes[n].term);
    }
  }

  lemma WinUps(s: State, n: NodeId)
    requires Inv(s) && SafeInv(s) && n in s.nodes && s.nodes[n].term !in s.h.log
    ensures Ups(s.h, Win(s, n).h)
  {
    hide Inv, SafeInv, Win;
    WinShape(s, n);
    LevelBound(s, s.nodes[n].term);
    assert forall t :: t in s.h.log ==> s.h.log[t][..|s.h.log[t]|] == s.h.log[t];
  }

  lemma WinAll(s: State, n: NodeId)
    requires All(s) && n in s.nodes && s.nodes[n].role == Candidate && |s.nodes[n].votes| >= Quorum(s.ids)
    requires NoStaleProgress(s.ids, n, s.nodes[n])
    ensures All(Win(s, n)) && Win(s, n).nodes[n].role == Leader
  {
    hide Inv, SafeInv, Backed, MsgBacked, Ups, NoStaleProgress, Win, ToLeader;
    WinKeeps(s, n);
    WinSafe(s, n);
    NotWonYet(s, n);
    SameKeys(s);
    CandidateFacts(s, n);
    BackedInside(s.ids, s.h, s.nodes[n].log, s.nodes[n].commit);
    WinCommit(s.ids, n, s.nodes[n]);
    WinUps(s, n);
    WinShape(s, n);
    Busy(Win(s, n), n);
    var s', was, node := Win(s, n), s.nodes[n], Win(s, n).nodes[n];
    if Quorum(s.ids) == 1 {
      assert Confirms(s'.h, {n}, node.term, |node.log|) && QuorumOf(s.ids, {n});
      assert Committed(s.ids, s'.h, node.term, |node.log|);
      ByLeader(s.ids, s'.h, node.log, |node.log|, node.term);
    } else {
      assert node.log[..was.commit] == was.log[..was.commit];
      BackedUp(s.ids, s.h, s'.h, was.log, node.log, was.commit, was.commit);
    }
    PutBacked(s, n, node, {}, s'.h);
  }

  // ------------------------------------------------------------------ taking entries, with commitment inside them

  /** The condition on entries: the leader's commitment, or the node's own log, ends with them. */
  predicate CommitInside(n: Node, prev: nat, entries: Log, leaderCommit: nat) {
    leaderCommit <= prev + |entries| || |n.log| <= prev + |entries|
  }

  lemma {:induction false} MergeLength(log: Log, prev: nat, entries: Log)
    requires prev <= |log| <= prev + |entries|
    ensures |Merge(log, prev, entries)| == prev + |entries|
    decreases |entries|
  {
    if entries != [] && prev < |log| && log[prev] == entries[0] {
      MergeLength(log, prev + 1, entries[1..]);
    }
  }

  /** A follower then commits only what its leader's log has. */
  lemma TakenBacked(s: State, m: Msg)
    requires All(s) && m in s.msgs && m.Append? && m.to in s.nodes && m.term == s.nodes[m.to].term
    requires Fits(s.nodes[m.to], m.prev, m.prevTerm, m.entries) && !Rewrites(s.nodes[m.to], m.prev, m.entries)
    requires CommitInside(s.nodes[m.to], m.prev, m.entries, m.leaderCommit)
    ensures
      var node := Taken(s.nodes[m.to], m.prev, m.entries, m.leaderCommit);
      Backed(s.ids, s.h, node.log, node.commit)
  {
    hide Inv, SafeInv, Backed, Merge, Rewrites, LogOk, Ups;
    TakenLog(s, m);
    SameUps(s.h);
    var was, node := s.nodes[m.to], Taken(s.nodes[m.to], m.prev, m.entries, m.leaderCommit);
    BackedInside(s.ids, s.h, was.log, was.commit);
    var l, end := s.h.log[m.term], m.prev + |m.entries|;
    if m.leaderCommit > was.commit {
      if |was.log| <= end {
        MergeLength(was.log, m.prev, m.entries);
      }
      var c := node.commit;
      assert c <= end;
      assert node.log[..end][..c] == node.log[..c] && l[..end][..c] == l[..c];
      assert MsgBacked(s.ids, s.h, m);
      BackedUp(s.ids, s.h, s.h, l, node.log, m.leaderCommit, c);
    } else {
      BackedUp(s.ids, s.h, s.h, was.log, node.log, was.commit, was.commit);
    }
  }

  lemma TakeAll(s: State, m: Msg)
    requires All(s) && m in s.msgs && m.Append? && m.to in s.nodes && m.from != m.to && m.term == s.nodes[m.to].term && s.nodes[m.to].role == Follower
    requires Fits(s.nodes[m.to], m.prev, m.prevTerm, m.entries) && !Rewrites(s.nodes[m.to], m.prev, m.entries)
    requires CommitInside(s.nodes[m.to], m.prev, m.entries, m.leaderCommit)
    ensures All(Take(s, m.to, m.from, m.prev, m.entries, m.leaderCommit))
  {
    hide Inv, SafeInv, Backed, Merge, Rewrites, Ups, CommitInside;
    TakeKeeps(s, m);
    TakeSafe(s, m);
    TakenBacked(s, m);
    var s', n := Take(s, m.to, m.from, m.prev, m.entries, m.leaderCommit), m.to;
    var node := s'.nodes[n];
    LevelUps(s.h, n, node.term, m.prev + |m.entries|);
    TakenLog(s, m);
    BackedInside(s.ids, s.h, node.log, node.commit);
    BackedUp(s.ids, s.h, s'.h, node.log, node.log, node.commit, node.commit);
    WaitUp(s.ids, s.h, s'.h, s.nodes[n]);
    PutBacked(s, n, node, {AppendResp(n, m.from, node.term, true, m.prev + |m.entries|)}, s'.h);
  }

  lemma LevelUps(h: History, n: NodeId, t: nat, end: nat)
    ensures Ups(h, Raised(h, n, t, end))
  {
    assert forall u :: u in h.log ==> h.log[u][..|h.log[u]|] == h.log[u];
  }

  // ------------------------------------------------------------------ snapshots

  /** What is committed in a node's log and in its leader's is the same, as far as both go. */
  lemma AgreesWithLeader(s: State, n: NodeId, index: nat)
    requires All(s) && n in s.nodes && s.nodes[n].term in s.h.log && Backed(s.ids, s.h, s.h.log[s.nodes[n].term], index) && index <= s.nodes[n].commit
    ensures index <= |s.nodes[n].log| && index <= |s.h.log[s.nodes[n].term]| && s.nodes[n].log[..index] == s.h.log[s.nodes[n].term][..index]
  {
    hide Backed, Inv, SafeInv;
    BackedAgree(s, s.h.log[s.nodes[n].term], index, s.nodes[n].log, s.nodes[n].commit);
  }

  lemma AffirmAll(s: State, n: NodeId, leader: NodeId, index: nat)
    requires All(s) && n in s.nodes && s.nodes[n].term in s.h.log && Backed(s.ids, s.h, s.h.log[s.nodes[n].term], index) && index <= s.nodes[n].commit
    requires s.nodes[n].role == Follower
    ensures All(Affirm(s, n, leader, index))
  {
    hide Backed, Inv, SafeInv, Ups, MsgBacked;
    AgreesWithLeader(s, n, index);
    AffirmKeeps(s, n, leader, index);
    AffirmSafe(s, n, leader, index);
    var s', node := Affirm(s, n, leader, index), s.nodes[n].(incoming := None);
    LevelUps(s.h, n, node.term, index);
    BackedInside(s.ids, s.h, node.log, node.commit);
    BackedUp(s.ids, s.h, s'.h, node.log, node.log, node.commit, node.commit);
    Answered(s.ids, s.h, n, leader, node.term, index);
    PutBacked(s, n, node, {SnapshotResp(n, leader, node.term, index)}, s'.h);
  }

  lemma Answered(ids: set<NodeId>, h: History, n: NodeId, leader: NodeId, t: nat, index: nat)
    ensures MsgBacked(ids, Raised(h, n, t, index), SnapshotResp(n, leader, t, index))
  {
  }

  lemma InstalledBacked(s: State, n: NodeId)
    requires All(s) && n in s.nodes && Waiting(s.nodes[n])
    ensures
      var node := Installed(s.nodes[n], s.nodes[n].incoming.value);
      Backed(s.ids, s.h, node.log, node.commit)
  {
    hide Backed, Inv, SafeInv, LogOk, Ups;
    InstalledLog(s, n);
    SameUps(s.h);
    var was, i := s.nodes[n], s.nodes[n].incoming.value;
    var node, l := Installed(was, i), s.h.log[was.term];
    WaitedPrefix(s, n);
    BackedInside(s.ids, s.h, was.log, was.commit);
    BackedUp(s.ids, s.h, s.h, i.prefix, l, i.index, i.index);
    if was.commit > i.index {
      AgreesWithLeader(s, n, i.index);
      assert was.log[..i.index][i.index - 1] == was.log[i.index - 1] && l[..i.index][i.index - 1] == l[i.index - 1];
      assert node.log == was.log;
    } else {
      BackedUp(s.ids, s.h, s.h, l, node.log, i.index, i.index);
    }
  }

  lemma WaitedPrefix(s: State, n: NodeId)
    requires All(s) && n in s.nodes && Waiting(s.nodes[n])
    ensures
      var i := s.nodes[n].incoming.value;
      && s.nodes[n].term in s.h.log && 1 <= i.index <= |s.h.log[s.nodes[n].term]| && i.prefix == s.h.log[s.nodes[n].term][..i.index]
      && Backed(s.ids, s.h, i.prefix, i.index) && |i.prefix| == i.index && s.nodes[n].role == Follower
  {
    hide Backed, LogOk, MsgOk, TermOk, BallotOk, SafeInv;
    assert NodeOk(s.h, n, s.nodes[n]) && WaitOk(s.ids, s.h, s.nodes[n]);
  }

  lemma InstallAll(s: State, n: NodeId)
    requires All(s) && n in s.nodes && Waiting(s.nodes[n])
    ensures All(Install(s, n))
  {
    hide Backed, Inv, SafeInv, Ups, MsgBacked, LogOk;
    InstallKeeps(s, n);
    InstallSafe(s, n);
    InstalledBacked(s, n);
    WaitedPrefix(s, n);
    var s', i := Install(s, n), s.nodes[n].incoming.value;
    var node := Installed(s.nodes[n], i);
    LevelUps(s.h, n, node.term, i.index);
    BackedInside(s.ids, s.h, node.log, node.commit);
    BackedUp(s.ids, s.h, s'.h, node.log, node.log, node.commit, node.commit);
    Answered(s.ids, s.h, n, i.from, node.term, i.index);
    PutBacked(s, n, node, {SnapshotResp(n, i.from, node.term, i.index)}, s'.h);
  }

  // ------------------------------------------------------------------ a leader's own steps

  lemma LeaderFacts(s: State, n: NodeId)
    requires All(s) && n in s.nodes && s.nodes[n].role == Leader
    ensures n in s.ids && LeaderOk(s.h, n, s.nodes[n]) && s.nodes[n].term >= 1 && Level(s.h, n, s.nodes[n].term) == |s.nodes[n].log|
    ensures MatchOk(s.h, s.nodes[n]) && Backed(s.ids, s.h, s.nodes[n].log, s.nodes[n].commit)
  {
    hide Inv, Backed, KeepOk, BallotSafe, BallotUp, ChosenOk, LogOk;
    AtLeader(s, n);
    AtNode(s, n);
    LedBy(s, s.nodes[n].term);
  }

  lemma ConfirmedAll(s: State, n: NodeId, peer: NodeId, index: nat)
    requires All(s) && n in s.nodes && s.nodes[n].role == Leader && index <= Level(s.h, peer, s.nodes[n].term)
    ensures All(Put(s, n, Confirmed(s.ids, n, s.nodes[n], peer, index), {}))
  {
    hide Inv, SafeInv, Backed, Ups, CommitFrom, MsgBacked;
    LeaderFacts(s, n);
    ConfirmedKeeps(s, n, peer, index);
    var was, node := s.nodes[n], Confirmed(s.ids, n, s.nodes[n], peer, index);
    QuietSafe(s, n, node, {});
    var bounded := Max(Min(index, |was.log|), MatchedAt(was, peer));
    var m := was.(matched := was.matched[peer := bounded], next := was.next[peer := bounded + 1]);
    MatchRaised(s.h, was, m, peer, bounded);
    LeaderBacked(s.ids, s.h, n, m);
    SameUps(s.h);
    assert node == AdvanceCommit(s.ids, n, m);
    SameMatch(s.h, m, node);
    PutBacked(s, n, node, {}, s.h);
  }

  lemma MatchRaised(h: History, was: Node, m: Node, peer: NodeId, bounded: nat)
    requires MatchOk(h, was) && m.matched == was.matched[peer := bounded] && m.term == was.term && bounded <= Level(h, peer, was.term)
    ensures MatchOk(h, m)
  {
    forall p
      ensures MatchedAt(m, p) <= Level(h, p, m.term)
    {
      assert MatchedAt(was, p) <= Level(h, p, was.term);
    }
  }

  lemma SameMatch(h: History, n: Node, m: Node)
    requires MatchOk(h, n) && m.matched == n.matched && m.term == n.term
    ensures MatchOk(h, m)
  {
    forall p
      ensures MatchedAt(m, p) <= Level(h, p, m.term)
    {
      assert MatchedAt(n, p) <= Level(h, p, n.term);
    }
  }

  lemma RetreatedAll(s: State, n: NodeId, peer: NodeId, hint: nat)
    requires All(s) && n in s.nodes && s.nodes[n].role == Leader
    ensures All(Put(s, n, Retreated(s.nodes[n], peer, hint), {}))
  {
    hide Inv, SafeInv, CommitInv, LogOk;
    AtNode(s, n);
    QuietKeeps(s, n, Retreated(s.nodes[n], peer, hint));
    QuietAll(s, n, Retreated(s.nodes[n], peer, hint));
  }

  lemma ExtendUps(h: History, n: NodeId, u: nat, more: Log)
    requires u in h.log && Level(h, n, u) == |h.log[u]|
    ensures Ups(h, h.(log := h.log[u := h.log[u] + more], level := h.level[(n, u) := |h.log[u] + more|]))
  {
    assert forall t :: t in h.log ==> h.log[t][..|h.log[t]|] == h.log[t];
    assert (h.log[u] + more)[..|h.log[u]|] == h.log[u];
  }

  lemma ExtendAll(s: State, n: NodeId, batch: seq<Bytes>)
    requires All(s) && n in s.nodes && s.nodes[n].role == Leader
    ensures All(Extend(s, n, batch))
  {
    hide Inv, SafeInv, Backed, Ups, CommitFrom, MsgBacked;
    LeaderFacts(s, n);
    ExtendKeeps(s, n, batch);
    ExtendSafe(s, n, batch);
    var was, more, s' := s.nodes[n], Stamped(s.nodes[n].term, batch), Extend(s, n, batch);
    var m, node := was.(log := was.log + more), s'.nodes[n];
    ExtendUps(s.h, n, was.term, more);
    BackedInside(s.ids, s.h, was.log, was.commit);
    assert m.log[..was.commit] == was.log[..was.commit];
    BackedUp(s.ids, s.h, s'.h, was.log, m.log, was.commit, was.commit);
    MatchUp(s.h, s'.h, was);
    SameMatch(s'.h, was, m);
    LeaderBacked(s.ids, s'.h, n, m);
    SameMatch(s'.h, m, node);
    Busy(s', n);
    PutBacked(s, n, node, {}, s'.h);
  }
}
