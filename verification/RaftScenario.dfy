/**
 Three runs of the cluster in which two nodes commit different entries at one position. Each breaks only one
 of the three conditions of a sound run: none of them can be spared. Every step is one the program takes.
 */
module RaftScenario {
  import opened Basics
  import opened Raft
  import opened RaftElection
  import opened RaftSafety
  import opened RaftCommit
  import opened RaftRuns
  import opened RaftSteps

  /** Breaking only one condition, two nodes have come to commit different entries at position `i + 1`. */
  ghost predicate Disagree(but: Condition, s: State, a: NodeId, b: NodeId, i: nat) {
    && Reachable(but, s) && a in s.nodes && b in s.nodes && i < s.nodes[a].commit <= |s.nodes[a].log| && i < s.nodes[b].commit <= |s.nodes[b].log|
    && s.nodes[a].log[i] != s.nodes[b].log[i]
  }

  ghost predicate Cluster(but: Condition, s: State, ids: set<NodeId>) {
    Reachable(but, s) && s.ids == ids && s.nodes.Keys == ids
  }

  /** A node that has recorded no progress of two others. */
  ghost predicate Untried(n: Node, p: NodeId, q: NodeId) {
    MatchedAt(n, p) == 0 && MatchedAt(n, q) == 0
  }

  /** A new leader's first entry. */
  function N(term: nat): Entry {
    Entry(term, [])
  }

  /** The largest entry; two do not fit one message. */
  const Blob: Bytes := seq(MAX_ENTRY_BYTES, _ => 0)
  const A := Entry(1, Blob)
  const B := Entry(1, [1])

  const Trio: set<NodeId> := {1, 2, 3}

  lemma TrioFacts()
    ensures |Trio| == 3 && Quorum(Trio) == 2 && Peers(Trio, 1) == {2, 3} && Peers(Trio, 2) == {1, 3} && Peers(Trio, 3) == {1, 2}
  {
  }

  // ------------------------------------------------------------------ how far messages reach

  lemma Oversized(log: Log, at: nat)
    requires at + 1 < |log| && log[at].data == Blob && log[at + 1].data == Blob
    ensures BatchEnd(log, at, 0, 0) == at + 1
  {
  }

  lemma OversizedAfter(log: Log, at: nat)
    requires at + 2 < |log| && log[at].data == [] && log[at + 1].data == Blob && log[at + 2].data == Blob
    ensures BatchEnd(log, at, 0, 0) == at + 2
  {
    assert BatchEnd(log, at + 1, 1, 20) == at + 2;
  }

  lemma BlobAndLast(log: Log, at: nat)
    requires at + 2 == |log| && log[at].data == Blob && log[at + 1].data == []
    ensures BatchEnd(log, at, 0, 0) == at + 2
  {
    assert BatchEnd(log, at + 1, 1, 20 + MAX_ENTRY_BYTES) == at + 2;
  }

  lemma {:induction false} AllEmpty(log: Log, at: nat, count: nat)
    requires at <= |log| && |log| - at + count <= 3 && forall i :: at <= i < |log| ==> log[i].data == []
    ensures BatchEnd(log, at, count, 20 * count) == |log|
    decreases |log| - at
  {
    if at < |log| {
      AllEmpty(log, at + 1, count + 1);
    }
  }

  // ------------------------------------------------------------------ the first term of a cluster of three

  /** Node 1 leads term 1, node 2 has voted for it, node 3 has heard nothing. */
  lemma FirstTerm(but: Condition) returns (t: State)
    ensures Cluster(but, t, Trio) && Starts(Trio, 1, t.nodes[1], 1, [N(1)], 0)
    ensures Is(t.nodes[2], Follower, 1, [], 0) && Untried(t.nodes[2], 1, 3) && t.nodes[3] == Fresh
  {
    hide Reachable, Replicated;
    TrioFacts();
    ReachStart(but, Trio);
    var s := Initial(Trio);
    NotReplicated(Trio, 1, Fresh, 1);
    t := WinStep(but, s, 1, 2);
    assert [] + [N(1)] == [N(1)];
  }

  /** The leader writes a large entry that nobody else sees. */
  lemma Writes(but: Condition, s: State, data: Bytes, term: nat, log: Log, commit: nat) returns (t: State)
    requires Cluster(but, s, Trio) && Is(s.nodes[1], Leader, term, log, commit) && 1 <= |data| <= MAX_ENTRY_BYTES && |log| < MAX_LOG_ENTRIES
    requires MatchedAt(s.nodes[1], 2) <= commit && MatchedAt(s.nodes[1], 3) <= commit
    ensures Only(but, s, t, {1}) && Is(t.nodes[1], Leader, term, log + [Entry(term, data)], commit)
    ensures t.nodes[1].next == s.nodes[1].next && t.nodes[1].matched == s.nodes[1].matched
  {
    hide Reachable;
    TrioFacts();
    t := WriteStep(but, s, 1, data);
  }

  // ------------------------------------------------------------------ commitment past the entries of a message

  /** Node 2 gets two entries of node 1 and confirms them. */
  lemma LooseShares() returns (t: State)
    ensures Cluster(CommitsInside, t, Trio) && Is(t.nodes[1], Leader, 1, [N(1), A], 2) && NextFor(t.nodes[1], 2) == 3
    ensures MatchedAt(t.nodes[1], 2) == 2 && MatchedAt(t.nodes[1], 3) == 0
    ensures Is(t.nodes[2], Follower, 1, [N(1), A], 0) && Untried(t.nodes[2], 1, 3) && t.nodes[3] == Fresh
  {
    hide Reachable, BatchEnd, Replicated;
    TrioFacts();
    var s := FirstTerm(CommitsInside);
    s := RefusalStep(CommitsInside, s, 1, 2);
    s := BackStep(CommitsInside, s, 1, 2, 0);
    s := Writes(CommitsInside, s, Blob, 1, [N(1)], 0);
    var log := [N(1), A];
    assert [N(1)] + [A] == log && log[..2] == log;
    BlobEnds(log);
    s := FeedStep(CommitsInside, s, 1, 2, 2);
    ReplicatedBy(Trio, 1, Noted(s.nodes[1], 2, 2), 2, {2});
    t := CommitStep(CommitsInside, s, 1, 2);
  }

  lemma BlobEnds(log: Log)
    requires |log| == 2 && log[0].data == [] && log[1].data == Blob
    ensures BatchEnd(log, 0, 0, 0) == 2
  {
    assert BatchEnd(log, 1, 1, 20) == 2;
  }

  lemma BlobAlone(log: Log)
    requires |log| == 3 && log[2].data == Blob
    ensures BatchEnd(log, 2, 0, 0) == 3
  {
  }

  /** Node 2 also gets a third; a fourth stays with node 1. */
  lemma LooseFirst() returns (t: State)
    ensures Cluster(CommitsInside, t, Trio) && Is(t.nodes[1], Leader, 1, [N(1), A, A, B], 2)
    ensures Is(t.nodes[2], Follower, 1, [N(1), A, A], 2) && Untried(t.nodes[2], 1, 3) && t.nodes[3] == Fresh
  {
    hide Reachable, BatchEnd, Replicated;
    TrioFacts();
    var s := LooseShares();
    s := Writes(CommitsInside, s, Blob, 1, [N(1), A], 2);
    var log := [N(1), A, A];
    assert [N(1), A] + [A] == log && log[..3] == log;
    BlobAlone(log);
    s := FeedStep(CommitsInside, s, 1, 2, 3);
    t := Writes(CommitsInside, s, [1], 1, log, 2);
    assert log + [B] == [N(1), A, A, B];
  }

  const Loose2: Log := [N(1), A, A, N(2)]

  /** Node 2 wins term 2 by node 3's vote; node 3 refuses its first message. */
  lemma LooseWins() returns (t: State)
    ensures Cluster(CommitsInside, t, Trio) && Is(t.nodes[1], Leader, 1, [N(1), A, A, B], 2)
    ensures Is(t.nodes[2], Leader, 2, Loose2, 2) && NextFor(t.nodes[2], 3) == 1 && NextFor(t.nodes[2], 1) == 5 && Untried(t.nodes[2], 1, 3)
    ensures Is(t.nodes[3], Follower, 2, [], 0)
  {
    hide Reachable, BatchEnd, Replicated;
    TrioFacts();
    var s := LooseFirst();
    NotReplicated(Trio, 2, s.nodes[2], 4);
    s := WinStep(CommitsInside, s, 2, 3);
    assert [N(1), A, A] + [N(2)] == Loose2;
    s := RefusalStep(CommitsInside, s, 2, 3);
    t := BackStep(CommitsInside, s, 2, 3, 0);
  }

  /** Node 2 gives node 3 the first two entries. */
  lemma LooseSecond() returns (t: State)
    ensures Cluster(CommitsInside, t, Trio) && Is(t.nodes[1], Leader, 1, [N(1), A, A, B], 2)
    ensures Is(t.nodes[2], Leader, 2, Loose2, 2) && NextFor(t.nodes[2], 3) == 3 && NextFor(t.nodes[2], 1) == 5
    ensures MatchedAt(t.nodes[2], 3) == 2 && Is(t.nodes[3], Follower, 2, [N(1), A], 2)
  {
    hide Reachable, BatchEnd, Replicated;
    TrioFacts();
    var s := LooseWins();
    assert Loose2[..2] == [N(1), A];
    OversizedAfter(Loose2, 0);
    s := FeedStep(CommitsInside, s, 2, 3, 2);
    forall i | 2 < i <= 4
      ensures !Replicated(Trio, 2, Noted(s.nodes[2], 3, 2), i)
    {
      NotReplicated(Trio, 2, Noted(s.nodes[2], 3, 2), i);
    }
    t := QuietStep(CommitsInside, s, 2, 3, 2);
  }

  /** Nodes 2 and 3 commit the whole log of term 2. */
  lemma LooseCommits() returns (t: State)
    ensures Cluster(CommitsInside, t, Trio) && Is(t.nodes[1], Leader, 1, [N(1), A, A, B], 2)
    ensures Is(t.nodes[2], Leader, 2, Loose2, 4) && NextFor(t.nodes[2], 1) == 5
  {
    hide Reachable, BatchEnd, Replicated;
    TrioFacts();
    var s := LooseSecond();
    var log := s.nodes[2].log;
    BlobAndLast(log, 2);
    assert log[..2] == [N(1), A] && log[..4] == log;
    s := FeedStep(CommitsInside, s, 2, 3, 4);
    ReplicatedBy(Trio, 2, Noted(s.nodes[2], 3, 4), 4, {3});
    t := CommitStep(CommitsInside, s, 2, 3);
  }

  /** One refusal of node 1, delivered three times, takes the next message back to the second entry; it announces the fourth as committed. */
  lemma LooseCommitmentDisagrees() returns (t: State)
    ensures Disagree(CommitsInside, t, 1, 2, 3)
  {
    hide Reachable, BatchEnd, Replicated;
    TrioFacts();
    var s := LooseCommits();
    s := RefusalStep(CommitsInside, s, 2, 1);
    s := BackStep(CommitsInside, s, 2, 1, 4);
    s := BackStep(CommitsInside, s, 2, 1, 4);
    s := BackStep(CommitsInside, s, 2, 1, 4);
    var log, mine := s.nodes[2].log, s.nodes[1].log;
    Oversized(log, 1);
    assert log[..1] == [N(1)] == mine[..1] && log[..2] == [N(1), A] == mine[..2];
    t := FeedStep(CommitsInside, s, 2, 1, 2);
  }

  // ------------------------------------------------------------------ progress left over from an earlier leadership

  /** Node 1 leads term 1 with three large entries of its own; the others have nothing. */
  lemma StaleFirst() returns (t: State)
    ensures Cluster(NoOldProgress, t, Trio) && Is(t.nodes[1], Leader, 1, [N(1), A, A, A], 0) && Untried(t.nodes[1], 2, 3)
    ensures Is(t.nodes[2], Follower, 1, [], 0) && Is(t.nodes[3], Follower, 1, [], 0) && Untried(t.nodes[3], 1, 2)
  {
    hide Reachable, BatchEnd, Replicated;
    TrioFacts();
    var s := FirstTerm(NoOldProgress);
    s := RefusalStep(NoOldProgress, s, 1, 3);
    s := Writes(NoOldProgress, s, Blob, 1, [N(1)], 0);
    assert [N(1)] + [A] == [N(1), A];
    s := Writes(NoOldProgress, s, Blob, 1, [N(1), A], 0);
    assert [N(1), A] + [A] == [N(1), A, A];
    t := Writes(NoOldProgress, s, Blob, 1, [N(1), A, A], 0);
    assert [N(1), A, A] + [A] == [N(1), A, A, A];
  }

  /** Node 3 wins term 2, and node 1 steps down. */
  lemma StaleSecond() returns (t: State)
    ensures Cluster(NoOldProgress, t, Trio) && Is(t.nodes[1], Follower, 2, [N(1), A, A, A], 0) && Untried(t.nodes[1], 2, 3)
    ensures Is(t.nodes[2], Follower, 2, [], 0) && Is(t.nodes[3], Leader, 2, [N(2)], 0) && Untried(t.nodes[3], 1, 2)
  {
    hide Reachable, BatchEnd, Replicated;
    TrioFacts();
    var s := StaleFirst();
    NotReplicated(Trio, 3, s.nodes[3], 1);
    s := WinStep(NoOldProgress, s, 3, 2);
    assert [] + [N(2)] == [N(2)];
    t := RefusalStep(NoOldProgress, s, 3, 1);
  }

  const Stale3: Log := [N(1), A, A, A, N(3)]

  /** Node 1 wins term 3; node 2 refuses its first message. */
  lemma StaleThird() returns (t: State)
    ensures Cluster(NoOldProgress, t, Trio) && Is(t.nodes[1], Leader, 3, Stale3, 0) && Untried(t.nodes[1], 2, 3) && NextFor(t.nodes[1], 2) == 1 && NextFor(t.nodes[1], 3) == 6
    ensures Is(t.nodes[2], Follower, 3, [], 0) && Is(t.nodes[3], Leader, 2, [N(2)], 0) && Untried(t.nodes[3], 1, 2)
  {
    hide Reachable, BatchEnd, Replicated;
    TrioFacts();
    var s := StaleSecond();
    NotReplicated(Trio, 1, s.nodes[1], 5);
    s := WinStep(NoOldProgress, s, 1, 2);
    assert [N(1), A, A, A] + [N(3)] == Stale3;
    s := RefusalStep(NoOldProgress, s, 1, 2);
    t := BackStep(NoOldProgress, s, 1, 2, 0);
  }

  /** Node 2 confirms the next entries of node 1 up to `end`, which is before the end of its log. */
  lemma StaleConfirms(s: State, have: nat, end: nat) returns (t: State)
    requires Cluster(NoOldProgress, s, Trio) && Is(s.nodes[1], Leader, 3, Stale3, 0) && have < end < 5 && end == BatchEnd(Stale3, have, 0, 0)
    requires NextFor(s.nodes[1], 2) == have + 1 && MatchedAt(s.nodes[1], 2) == have && MatchedAt(s.nodes[1], 3) == 0
    requires Is(s.nodes[2], Follower, 3, Stale3[..have], 0)
    ensures Only(NoOldProgress, s, t, {1, 2}) && Is(t.nodes[1], Leader, 3, Stale3, 0) && Is(t.nodes[2], Follower, 3, Stale3[..end], 0)
    ensures NextFor(t.nodes[1], 2) == end + 1 && MatchedAt(t.nodes[1], 2) == end && MatchedAt(t.nodes[1], 3) == 0
    ensures NextFor(t.nodes[1], 3) == NextFor(s.nodes[1], 3)
  {
    hide Reachable, BatchEnd, Replicated;
    TrioFacts();
    assert Stale3[..have][..have] == Stale3[..have];
    var u := FeedStep(NoOldProgress, s, 1, 2, end);
    var m := Noted(u.nodes[1], 2, end);
    forall i | 0 < i <= 5
      ensures TermAt(m, i) != 3 || !Replicated(Trio, 1, m, i)
    {
      if i == 5 {
        NotReplicated(Trio, 1, m, i);
      }
    }
    t := QuietStep(NoOldProgress, u, 1, 2, end);
  }

  /** Node 2 confirms three entries of node 1 and not the one of term 3; node 3 steps down. */
  lemma StaleProgress() returns (t: State)
    ensures Cluster(NoOldProgress, t, Trio) && Is(t.nodes[1], Leader, 3, Stale3, 0) && MatchedAt(t.nodes[1], 2) == 3
    ensures Is(t.nodes[2], Follower, 3, [N(1), A, A], 0) && Is(t.nodes[3], Follower, 3, [N(2)], 0) && Untried(t.nodes[3], 1, 2)
  {
    hide Reachable, BatchEnd, Replicated;
    var s := StaleThird();
    assert Stale3[..0] == [] && Stale3[..3] == [N(1), A, A];
    OversizedAfter(Stale3, 0);
    s := StaleConfirms(s, 0, 2);
    Oversized(Stale3, 2);
    s := StaleConfirms(s, 2, 3);
    t := RefusalStep(NoOldProgress, s, 1, 3);
  }

  /** Node 3 wins term 4; one refusal of node 1, delivered twice, takes it back to the beginning. */
  lemma StaleReturns() returns (t: State)
    ensures Cluster(NoOldProgress, t, Trio) && Is(t.nodes[1], Follower, 4, Stale3, 0) && MatchedAt(t.nodes[1], 2) == 3
    ensures Is(t.nodes[2], Follower, 4, [N(1), A, A], 0)
    ensures Is(t.nodes[3], Leader, 4, [N(2), N(4)], 0) && Untried(t.nodes[3], 1, 2) && NextFor(t.nodes[3], 1) == 1
  {
    hide Reachable, BatchEnd, Replicated;
    TrioFacts();
    var s := StaleProgress();
    NotReplicated(Trio, 3, s.nodes[3], 2);
    s := WinStep(NoOldProgress, s, 3, 2);
    assert [N(2)] + [N(4)] == [N(2), N(4)];
    s := RefusalStep(NoOldProgress, s, 3, 1);
    s := BackStep(NoOldProgress, s, 3, 1, 5);
    t := BackStep(NoOldProgress, s, 3, 1, 5);
  }

  /** Node 3 cuts node 1's log down to its own two entries. */
  lemma StaleFourth() returns (t: State)
    ensures Cluster(NoOldProgress, t, Trio) && Is(t.nodes[1], Follower, 4, [N(2), N(4)], 0) && MatchedAt(t.nodes[1], 2) == 3
    ensures Is(t.nodes[2], Follower, 4, [N(1), A, A], 0) && Is(t.nodes[3], Leader, 4, [N(2), N(4)], 0) && Untried(t.nodes[3], 1, 2)
  {
    hide Reachable, BatchEnd, Replicated;
    TrioFacts();
    var s := StaleReturns();
    var log := [N(2), N(4)];
    AllEmpty(log, 0, 0);
    assert log[..2] == log && Stale3[..2][0] != log[0];
    t := FeedStep(NoOldProgress, s, 3, 1, 2);
  }

  /** Node 1 wins term 5 and commits its first entry on the strength of the progress of term 3; node 3 steps down. */
  lemma StaleFifth() returns (t: State)
    ensures Cluster(NoOldProgress, t, Trio) && Is(t.nodes[1], Leader, 5, [N(2), N(4), N(5)], 3)
    ensures Is(t.nodes[2], Follower, 5, [N(1), A, A], 0) && Is(t.nodes[3], Follower, 5, [N(2), N(4)], 0) && Untried(t.nodes[3], 1, 2)
  {
    hide Reachable, BatchEnd, Replicated;
    TrioFacts();
    var s := StaleFourth();
    ReplicatedBy(Trio, 1, s.nodes[1], 3, {2});
    s := WinStep(NoOldProgress, s, 1, 2);
    assert [N(2), N(4)] + [N(5)] == [N(2), N(4), N(5)];
    t := RefusalStep(NoOldProgress, s, 1, 3);
  }

  /** Node 3 wins term 6; one refusal of node 2, delivered three times, takes it back to the beginning. */
  lemma StaleSixth() returns (t: State)
    ensures Cluster(NoOldProgress, t, Trio) && Is(t.nodes[1], Leader, 5, [N(2), N(4), N(5)], 3)
    ensures Is(t.nodes[2], Follower, 6, [N(1), A, A], 0) && Is(t.nodes[3], Leader, 6, [N(2), N(4), N(6)], 0)
    ensures Untried(t.nodes[3], 1, 2) && NextFor(t.nodes[3], 2) == 1
  {
    hide Reachable, BatchEnd, Replicated;
    TrioFacts();
    var s := StaleFifth();
    NotReplicated(Trio, 3, s.nodes[3], 3);
    s := WinStep(NoOldProgress, s, 3, 2);
    assert [N(2), N(4)] + [N(6)] == [N(2), N(4), N(6)];
    s := RefusalStep(NoOldProgress, s, 3, 2);
    s := BackStep(NoOldProgress, s, 3, 2, 3);
    s := BackStep(NoOldProgress, s, 3, 2, 3);
    t := BackStep(NoOldProgress, s, 3, 2, 3);
  }

  /** Nodes 3 and 2 commit the entry of term 6 where node 1 has committed that of term 5. */
  lemma StaleProgressDisagrees() returns (t: State)
    ensures Disagree(NoOldProgress, t, 1, 3, 2)
  {
    hide Reachable, BatchEnd, Replicated;
    TrioFacts();
    var s := StaleSixth();
    var log := s.nodes[3].log;
    AllEmpty(log, 0, 0);
    assert log[..3] == log && [N(1), A, A][..3][0] != log[0];
    s := FeedStep(NoOldProgress, s, 3, 2, 3);
    ReplicatedBy(Trio, 3, Noted(s.nodes[3], 2, 3), 3, {2});
    t := CommitStep(NoOldProgress, s, 3, 2);
  }

  // ------------------------------------------------------------------ a voter that has compacted its whole log

  const Five: set<NodeId> := {1, 2, 3, 4, 5}

  lemma FiveFacts()
    ensures |Five| == 5 && Quorum(Five) == 3 && Peers(Five, 1) == {2, 3, 4, 5} && Peers(Five, 3) == {1, 2, 4, 5}
  {
  }

  /** A first entry and enough more to be compacted. */
  function Long(k: nat): Log {
    [N(1)] + seq(k, _ => B)
  }

  const Enough: Log := Long(SNAPSHOT_LOG_THRESHOLD)

  /** The leader of term 1 tells a peer with an empty log to start from the beginning. */
  lemma PackFinds(s: State, p: NodeId) returns (t: State)
    requires Cluster(VoterHoldsLast, s, Five) && Is(s.nodes[1], Leader, 1, [N(1)], 0) && p in {2, 3, 4} && NextFor(s.nodes[1], p) == 2
    requires Is(s.nodes[p], Follower, s.nodes[p].term, [], 0) && s.nodes[p].term <= 1
    ensures Only(VoterHoldsLast, s, t, {1, p}) && Is(t.nodes[1], Leader, 1, [N(1)], 0) && Is(t.nodes[p], Follower, 1, [], 0)
    ensures t.nodes[1].next == s.nodes[1].next[p := 1] && t.nodes[1].matched == s.nodes[1].matched
    ensures t.nodes[p].matched == s.nodes[p].matched && t.nodes[p].applied == s.nodes[p].applied
  {
    hide Reachable, BatchEnd, Replicated;
    var u := RefusalStep(VoterHoldsLast, s, 1, p);
    t := BackStep(VoterHoldsLast, u, 1, p, 0);
  }

  /** Node 1 leads term 1 by the votes of nodes 2 and 3. */
  lemma PackElects() returns (t: State)
    ensures Cluster(VoterHoldsLast, t, Five) && Starts(Five, 1, t.nodes[1], 1, [N(1)], 0)
    ensures Is(t.nodes[2], Follower, 1, [], 0) && Is(t.nodes[3], Follower, 1, [], 0) && t.nodes[4] == Fresh && t.nodes[5] == Fresh
    ensures t.nodes[2].applied == 0 && t.nodes[3].matched == map[]
  {
    hide Reachable, Replicated;
    FiveFacts();
    ReachStart(VoterHoldsLast, Five);
    NotReplicated(Five, 1, Fresh, 1);
    t := MajorityStep(VoterHoldsLast, Initial(Five), 1, 2, 3);
    assert [] + [N(1)] == [N(1)];
  }

  ghost predicate Blank(n: Node) {
    MatchedAt(n, 2) == MatchedAt(n, 3) == MatchedAt(n, 4) == MatchedAt(n, 5) == 0
  }

  /** It learns that the logs of nodes 2, 3 and 4 are empty. */
  lemma PackFirst() returns (t: State)
    ensures Cluster(VoterHoldsLast, t, Five) && Is(t.nodes[1], Leader, 1, [N(1)], 0) && Blank(t.nodes[1])
    ensures NextFor(t.nodes[1], 2) == 1 && NextFor(t.nodes[1], 3) == 1 && NextFor(t.nodes[1], 4) == 1
    ensures Is(t.nodes[2], Follower, 1, [], 0) && Is(t.nodes[3], Follower, 1, [], 0) && Is(t.nodes[4], Follower, 1, [], 0) && t.nodes[5] == Fresh
    ensures t.nodes[2].applied == 0 && t.nodes[3].matched == map[]
  {
    hide Reachable, Replicated;
    FiveFacts();
    var s := PackElects();
    s := PackFinds(s, 2);
    s := PackFinds(s, 3);
    t := PackFinds(s, 4);
  }

  /** Node 3 gets the first entry. */
  lemma PackThird() returns (t: State)
    ensures Cluster(VoterHoldsLast, t, Five) && Is(t.nodes[1], Leader, 1, [N(1)], 0) && Blank(t.nodes[1])
    ensures NextFor(t.nodes[1], 2) == 1 && NextFor(t.nodes[1], 4) == 1
    ensures Is(t.nodes[2], Follower, 1, [], 0) && Is(t.nodes[3], Follower, 1, [N(1)], 0) && Is(t.nodes[4], Follower, 1, [], 0) && t.nodes[5] == Fresh
    ensures t.nodes[2].applied == 0 && t.nodes[3].matched == map[]
  {
    hide Reachable, Replicated, BatchEnd;
    var s := PackFirst();
    AllEmpty([N(1)], 0, 0);
    assert [N(1)][..1] == [N(1)];
    t := FeedStep(VoterHoldsLast, s, 1, 3, 1);
  }

  /** The leader writes entry after entry. */
  lemma {:induction false} PackWrites(s: State, k: nat) returns (t: State)
    requires Cluster(VoterHoldsLast, s, Five) && Is(s.nodes[1], Leader, 1, [N(1)], 0) && Blank(s.nodes[1]) && k < MAX_LOG_ENTRIES
    ensures Only(VoterHoldsLast, s, t, {1}) && t.nodes[1] == s.nodes[1].(log := Long(k))
  {
    hide Reachable, Replicated;
    FiveFacts();
    if k == 0 {
      t := s;
      assert Long(0) == [N(1)];
    } else {
      var u := PackWrites(s, k - 1);
      t := WriteStep(VoterHoldsLast, u, 1, [1]);
      assert Long(k - 1) + [B] == Long(k);
    }
  }

  lemma SomeFit(log: Log, at: nat)
    requires at < |log| && |log[at].data| <= 1
    ensures BatchEnd(log, at, 0, 0) > at
  {
  }

  /** Node 1 is bringing node 4 up to date alone, or then node 2; the peer has the first `have` entries. */
  ghost predicate Feeding(s: State, p: NodeId, have: nat) {
    && Cluster(VoterHoldsLast, s, Five) && p in {2, 4} && have <= |Enough|
    && var n, q := s.nodes[1], s.nodes[p];
       && Is(n, Leader, 1, Enough, n.commit) && n.commit <= Bound(p, have) && NextFor(n, p) == have + 1 && MatchedAt(n, p) == have
       && MatchedAt(n, 3) == 0 && MatchedAt(n, 5) == 0 && (p == 4 ==> MatchedAt(n, 2) == 0)
       && Is(q, Follower, 1, Enough[..have], q.commit) && q.commit <= Bound(p, have)
  }

  function Bound(p: NodeId, have: nat): nat {
    if p == 4 then 0 else have
  }

  /** One message of entries reaches the peer. */
  lemma PackGives(s: State, p: NodeId, have: nat, end: nat) returns (t: State)
    requires Feeding(s, p, have) && end == BatchEnd(Enough, have, 0, 0) && have < end
    ensures Only(VoterHoldsLast, s, t, {p}) && t.nodes[p].applied == s.nodes[p].applied && AppendResp(p, 1, 1, true, end) in t.msgs
    ensures Is(t.nodes[p], Follower, 1, Enough[..end], t.nodes[p].commit) && t.nodes[p].commit <= Bound(p, end)
  {
    hide Reachable, Replicated, BatchEnd, Long;
    assert Enough[..have][..have] == Enough[..have];
    assert Enough[..have][..s.nodes[p].commit] == Enough[..s.nodes[p].commit];
    t := FeedStep(VoterHoldsLast, s, 1, p, end);
  }

  /** One message of entries and its confirmation. */
  lemma PackFeeds(s: State, p: NodeId, have: nat, end: nat) returns (t: State)
    requires Feeding(s, p, have) && end == BatchEnd(Enough, have, 0, 0) && have < end
    ensures Only(VoterHoldsLast, s, t, {1, p}) && Feeding(t, p, end) && t.nodes[p].applied == s.nodes[p].applied && Others(s, t, p)
  {
    hide Reachable, Replicated, BatchEnd, Long;
    FiveFacts();
    var u := PackGives(s, p, have, end);
    t := SlowStep(VoterHoldsLast, u, 1, p, end, 4, Bound(p, end));
  }

  /** What the leader knows of the other peer it has to serve is what it was. */
  ghost predicate Others(s: State, t: State, p: NodeId) {
    1 in s.nodes && 1 in t.nodes && forall q: NodeId :: q != p ==> NextFor(t.nodes[1], q) == NextFor(s.nodes[1], q) && MatchedAt(t.nodes[1], q) == MatchedAt(s.nodes[1], q)
  }

  lemma {:induction false} PackCatchesUp(s: State, p: NodeId, have: nat) returns (t: State)
    requires Feeding(s, p, have)
    ensures Only(VoterHoldsLast, s, t, {1, p}) && Feeding(t, p, |Enough|) && t.nodes[p].applied == s.nodes[p].applied && Others(s, t, p)
    decreases |Enough| - have
  {
    hide Reachable, BatchEnd;
    if have == |Enough| {
      t := s;
    } else {
      SomeFit(Enough, have);
      var end := BatchEnd(Enough, have, 0, 0);
      var u := PackFeeds(s, p, have, end);
      t := PackCatchesUp(u, p, end);
    }
  }

  /** Nodes 4 and 2 have the whole log of node 1, and node 4 has committed none of it. */
  lemma PackSpreads() returns (t: State)
    ensures Feeding(t, 2, |Enough|) && MatchedAt(t.nodes[1], 4) == |Enough|
    ensures Is(t.nodes[3], Follower, 1, [N(1)], 0) && Is(t.nodes[4], Follower, 1, Enough, 0) && t.nodes[5] == Fresh
    ensures t.nodes[2].applied == 0 && t.nodes[3].matched == map[]
  {
    hide Reachable, BatchEnd, Replicated;
    var s := PackThird();
    s := PackWrites(s, SNAPSHOT_LOG_THRESHOLD);
    assert Enough[..0] == [];
    s := PackCatchesUp(s, 4, 0);
    t := PackCatchesUp(s, 2, 0);
    assert Enough[..|Enough|] == Enough;
  }

  lemma NothingLeft(log: Log)
    ensures BatchEnd(log, |log|, 0, 0) == |log|
  {
  }

  /** Node 1 commits its whole log, and node 2 learns of it. */
  lemma PackCommits() returns (t: State)
    ensures Cluster(VoterHoldsLast, t, Five) && Is(t.nodes[1], Leader, 1, Enough, |Enough|) && Is(t.nodes[2], Follower, 1, Enough, |Enough|)
    ensures Is(t.nodes[3], Follower, 1, [N(1)], 0) && Is(t.nodes[4], Follower, 1, Enough, 0) && t.nodes[5] == Fresh
    ensures t.nodes[2].applied == 0 && t.nodes[3].matched == map[]
  {
    hide Reachable, BatchEnd, Replicated;
    FiveFacts();
    var s := PackSpreads();
    var end := |Enough|;
    NothingLeft(Enough);
    assert Enough[..end] == Enough;
    s := FeedStep(VoterHoldsLast, s, 1, 2, end);
    ReplicatedBy(Five, 1, Noted(s.nodes[1], 2, end), end, {2, 4});
    s := CommitStep(VoterHoldsLast, s, 1, 2);
    t := FeedStep(VoterHoldsLast, s, 1, 2, end);
  }

  /** Node 2 has applied its whole log and replaced it by a snapshot. */
  ghost predicate Packed(n: Node, term: nat) {
    n.term == term && n.log == Enough && n.base == |Enough| && n.role == Follower && !n.failed
  }

  lemma PackCompacts() returns (t: State)
    ensures Cluster(VoterHoldsLast, t, Five) && Is(t.nodes[1], Leader, 1, Enough, |Enough|) && Packed(t.nodes[2], 1)
    ensures Is(t.nodes[3], Follower, 1, [N(1)], 0) && Is(t.nodes[4], Follower, 1, Enough, 0) && t.nodes[5] == Fresh
    ensures t.nodes[3].matched == map[]
  {
    hide Reachable, BatchEnd, Replicated;
    FiveFacts();
    var s := PackCommits();
    s := ApplyStep(VoterHoldsLast, s, 2, |Enough|);
    t := CompactStep(VoterHoldsLast, s, 2);
  }

  /** A later leader, node 3, lacks what node 1 has committed. */
  lemma LaterLeaderLacksCommitted() returns (t: State)
    ensures Cluster(VoterHoldsLast, t, Five) && Is(t.nodes[1], Leader, 1, Enough, |Enough|)
    ensures Starts(Five, 3, t.nodes[3], 2, [N(1), N(2)], 0)
    ensures Is(t.nodes[4], Follower, 1, Enough, 0) && Is(t.nodes[5], Follower, 2, [], 0)
  {
    hide Reachable, BatchEnd, Replicated;
    FiveFacts();
    var s := PackCompacts();
    NotReplicated(Five, 3, s.nodes[3], 2);
    t := MajorityStep(VoterHoldsLast, s, 3, 2, 5);
    assert [N(1)] + [N(2)] == [N(1), N(2)];
  }

  /** Node 4, which had committed nothing, gives up the entries of term 1. */
  lemma PackOverwrites() returns (t: State)
    ensures Cluster(VoterHoldsLast, t, Five) && Is(t.nodes[1], Leader, 1, Enough, |Enough|)
    ensures Is(t.nodes[3], Leader, 2, [N(1), N(2)], 0) && MatchedAt(t.nodes[3], 4) == 2 && MatchedAt(t.nodes[3], 5) == 0 && NextFor(t.nodes[3], 5) == 3
    ensures Is(t.nodes[5], Follower, 2, [], 0)
  {
    hide Reachable, BatchEnd, Replicated;
    FiveFacts();
    var s := LaterLeaderLacksCommitted();
    var log := [N(1), N(2)];
    s := RefusalStep(VoterHoldsLast, s, 3, 4);
    s := BackStep(VoterHoldsLast, s, 3, 4, |Enough|);
    AllEmpty(log, 1, 0);
    assert Enough[..1] == log[..1] && Enough[..2][1] != log[..2][1];
    s := FeedStep(VoterHoldsLast, s, 3, 4, 2);
    t := SlowStep(VoterHoldsLast, s, 3, 4, 2, 4, 0);
  }

  /** Node 5, whose log is empty, gets both entries of node 3. */
  lemma PackReaches() returns (t: State)
    ensures Cluster(VoterHoldsLast, t, Five) && Is(t.nodes[1], Leader, 1, Enough, |Enough|)
    ensures Is(t.nodes[3], Leader, 2, [N(1), N(2)], 0) && MatchedAt(t.nodes[3], 4) == 2 && MatchedAt(t.nodes[3], 5) == 0
    ensures AppendResp(5, 3, 2, true, 2) in t.msgs
  {
    hide Reachable, BatchEnd, Replicated;
    var s := PackOverwrites();
    var log := [N(1), N(2)];
    s := RefusalStep(VoterHoldsLast, s, 3, 5);
    s := BackStep(VoterHoldsLast, s, 3, 5, 0);
    AllEmpty(log, 0, 0);
    assert log[..2] == log;
    t := FeedStep(VoterHoldsLast, s, 3, 5, 2);
  }

  /** Nodes 3, 4 and 5 commit the entry of term 2 where node 1 has committed one of term 1. */
  lemma CompactedVoterDisagrees() returns (t: State)
    ensures Disagree(VoterHoldsLast, t, 1, 3, 1)
  {
    hide Reachable, BatchEnd, Replicated;
    FiveFacts();
    var s := PackReaches();
    ReplicatedBy(Five, 3, Noted(s.nodes[3], 5, 2), 2, {4, 5});
    t := CommitStep(VoterHoldsLast, s, 3, 5);
  }

  // ------------------------------------------------------------------ safety needs all three conditions

  /** Two nodes, each at its moment, have the same entry at position `i + 1` if both have committed it. */
  predicate Agree(s: State, a: NodeId, s': State, b: NodeId, i: nat) {
    (a in s.nodes && b in s'.nodes && i < s.nodes[a].commit && i < s'.nodes[b].commit)
    ==> i < |s.nodes[a].log| && i < |s'.nodes[b].log| && s.nodes[a].log[i] == s'.nodes[b].log[i]
  }

  ghost predicate Agreement(states: seq<State>) {
    forall k, l, a, b, i: nat :: 0 <= k < |states| && 0 <= l < |states| ==> Agree(states[k], a, states[l], b, i)
  }

  ghost predicate Keeps(required: set<Condition>, states: seq<State>, events: seq<Event>)
    requires |states| == |events| + 1 && forall i :: 0 <= i < |events| ==> Enabled(states[i], events[i])
  {
    forall i, c :: 0 <= i < |events| && c in required ==> Meets(states[i], events[i], c)
  }

  /** Every run whose steps keep the conditions required agrees on what is committed. */
  ghost predicate SafeUnder(required: set<Condition>) {
    forall ids, states, events :: IsRun(ids, states, events) && Keeps(required, states, events) ==> Agreement(states)
  }

  const Conditions := {VoterHoldsLast, NoOldProgress, CommitsInside}

  lemma OneOf(c: Condition)
    ensures c == VoterHoldsLast || c == NoOldProgress || c == CommitsInside
  {
  }

  lemma Missing(required: set<Condition>) returns (c: Condition)
    requires required != Conditions
    ensures c !in required
  {
    forall c: Condition
      ensures c in Conditions
    {
      OneOf(c);
    }
    c := if VoterHoldsLast !in required then VoterHoldsLast else if NoOldProgress !in required then NoOldProgress else CommitsInside;
  }

  lemma AllKeepSafe()
    ensures SafeUnder(Conditions)
  {
    hide Next, Enabled, Meets, Agree;
    forall ids, states, events | IsRun(ids, states, events) && Keeps(Conditions, states, events)
      ensures Agreement(states)
    {
      assert IsSoundRun(ids, states, events);
      forall k, l, a, b, i: nat | 0 <= k < |states| && 0 <= l < |states|
        ensures Agree(states[k], a, states[l], b, i)
      {
        AgreeInRun(ids, states, events, k, l, a, b, i);
      }
    }
  }

  lemma AgreeInRun(ids: set<NodeId>, states: seq<State>, events: seq<Event>, k: nat, l: nat, a: NodeId, b: NodeId, i: nat)
    requires IsSoundRun(ids, states, events) && k < |states| && l < |states|
    ensures Agree(states[k], a, states[l], b, i)
  {
    hide IsSoundRun;
    if a in states[k].nodes && b in states[l].nodes && i < states[k].nodes[a].commit && i < states[l].nodes[b].commit {
      StateMachineSafety(ids, states, events, k, l, a, b, i);
    }
  }

  /** A run without one condition, with a disagreement at its end. */
  lemma Witness(but: Condition) returns (t: State, a: NodeId, b: NodeId, i: nat)
    ensures Disagree(but, t, a, b, i)
  {
    hide Disagree;
    match but
    case VoterHoldsLast => t := CompactedVoterDisagrees(); a, b, i := 1, 3, 1;
    case NoOldProgress => t := StaleProgressDisagrees(); a, b, i := 1, 3, 2;
    case CommitsInside => t := LooseCommitmentDisagrees(); a, b, i := 1, 2, 3;
  }

  lemma WithoutOneUnsafe(required: set<Condition>, but: Condition)
    requires but !in required
    ensures !SafeUnder(required)
  {
    hide Next, Enabled, Meets;
    var s, a, b, i := Witness(but);
    var states, events :| IsRun(s.ids, states, events) && states[|states| - 1] == s && AllMeet(but, states, events);
    forall k, c | 0 <= k < |events| && c in required
      ensures Meets(states[k], events[k], c)
    {
      assert MeetsBut(but, states[k], events[k]);
      OneOf(c);
    }
    assert Keeps(required, states, events);
    assert !Agree(states[|states| - 1], a, states[|states| - 1], b, i);
  }

  /** What is committed agrees in every run exactly when all three conditions are kept. */
  lemma SafeIffAllConditions(required: set<Condition>)
    ensures SafeUnder(required) <==> required == Conditions
  {
    hide SafeUnder;
    if required == Conditions {
      AllKeepSafe();
    } else {
      var but := Missing(required);
      WithoutOneUnsafe(required, but);
    }
  }
}
