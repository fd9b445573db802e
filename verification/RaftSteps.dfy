/** Moves of a cluster, for building runs: each is one event or two, and says what the nodes are afterwards. */
module RaftSteps {
  import opened Basics
  import opened Raft
  import opened RaftLogs
  import opened RaftElection
  import opened RaftSafety
  import opened RaftCommit
  import opened RaftRuns
  import opened RaftLimits

  /** Some run whose every step meets the two conditions other than `but` ends in `s`. */
  ghost predicate Reachable(but: Condition, s: State) {
    exists states, events :: IsRun(s.ids, states, events) && states[|states| - 1] == s && AllMeet(but, states, events)
  }

  ghost predicate AllMeet(but: Condition, states: seq<State>, events: seq<Event>)
    requires |states| == |events| + 1 && forall i :: 0 <= i < |events| ==> Enabled(states[i], events[i])
  {
    forall i :: 0 <= i < |events| ==> MeetsBut(but, states[i], events[i])
  }

  predicate MeetsBut(but: Condition, s: State, e: Event)
    requires Enabled(s, e)
  {
    && (but == VoterHoldsLast || Meets(s, e, VoterHoldsLast))
    && (but == NoOldProgress || Meets(s, e, NoOldProgress))
    && (but == CommitsInside || Meets(s, e, CommitsInside))
  }

  lemma ReachNext(but: Condition, s: State, e: Event)
    requires Reachable(but, s) && Enabled(s, e) && MeetsBut(but, s, e)
    ensures Reachable(but, Next(s, e))
  {
    hide Next, Enabled, MeetsBut;
    var states, events :| IsRun(s.ids, states, events) && states[|states| - 1] == s && AllMeet(but, states, events);
    var states', events' := states + [Next(s, e)], events + [e];
    forall i | 0 <= i < |events'|
      ensures Enabled(states'[i], events'[i]) && states'[i + 1] == Next(states'[i], events'[i]) && MeetsBut(but, states'[i], events'[i])
    {
    }
    SameIds(s, e);
    assert IsRun(s.ids, states', events') && AllMeet(but, states', events');
  }

  lemma ReachStart(but: Condition, ids: set<NodeId>)
    ensures Reachable(but, Initial(ids))
  {
    assert IsRun(ids, [Initial(ids)], []);
    assert AllMeet(but, [Initial(ids)], []);
  }

  /** From `s` the cluster can get to `t`, with nodes `nodes`; messages once sent stay. */
  ghost predicate Moves(but: Condition, s: State, t: State, nodes: map<NodeId, Node>) {
    Reachable(but, t) && t.ids == s.ids && t.nodes == nodes && s.msgs <= t.msgs
  }

  ghost predicate Ready(but: Condition, s: State, n: NodeId) {
    Reachable(but, s) && s.nodes.Keys == s.ids && n in s.ids && !s.nodes[n].failed
  }

  // ------------------------------------------------------------------ elections

  lemma StandStep(but: Condition, s: State, c: NodeId) returns (t: State)
    requires Ready(but, s, c) && s.nodes[c].role != Leader && Quorum(s.ids) > 1
    ensures Moves(but, s, t, s.nodes[c := ToCandidate(c, s.nodes[c])])
    ensures forall p :: p in Peers(s.ids, c) ==> RequestVote(c, p, s.nodes[c].term + 1, |s.nodes[c].log|, LastLogTerm(s.nodes[c])) in t.msgs
  {
    hide Reachable, Quorum, WonIfQuorum;
    t := Next(s, Timeout(c));
    ReachNext(but, s, Timeout(c));
    var u := Stand(s, c);
    assert u.nodes[c := u.nodes[c]] == u.nodes;
  }

  /** The node that has granted a vote in a new term. */
  function Granted(v: Node, term: nat, c: NodeId): Node {
    Bumped(v, term).(voted := Some(c))
  }

  lemma VoteStep(but: Condition, s: State, c: NodeId, v: NodeId) returns (t: State)
    requires Ready(but, s, v) && c in s.ids && v != c && s.nodes[v].term < s.nodes[c].term
    requires RequestVote(c, v, s.nodes[c].term, |s.nodes[c].log|, LastLogTerm(s.nodes[c])) in s.msgs
    requires UpToDate(LastLogTerm(s.nodes[c]), |s.nodes[c].log|, LastLogTerm(s.nodes[v]), |s.nodes[v].log|)
    requires but == VoterHoldsLast || HoldsLast(s.nodes[v])
    ensures Moves(but, s, t, s.nodes[v := Granted(s.nodes[v], s.nodes[c].term, c)])
    ensures VoteResp(v, c, s.nodes[c].term, true) in t.msgs
  {
    hide Reachable, UpToDate, LastLogTerm;
    var m := RequestVote(c, v, s.nodes[c].term, |s.nodes[c].log|, LastLogTerm(s.nodes[c]));
    t := Next(s, Deliver(m));
    SameLast(s.nodes[v], Bumped(s.nodes[v], m.term));
    ReachNext(but, s, Deliver(m));
    var u := Bump(s, v, m.term);
    assert t == Vote(u, v, c);
    assert u.nodes[v := u.nodes[v].(voted := Some(c))] == s.nodes[v := Granted(s.nodes[v], m.term, c)];
  }

  lemma SameLast(n: Node, m: Node)
    requires m.log == n.log && m.base == n.base
    ensures LastLogTerm(m) == LastLogTerm(n)
  {
  }

  /** What a candidate is after one more vote. */
  function Counted(ids: set<NodeId>, c: NodeId, n: Node, v: NodeId): Node {
    var m := n.(votes := n.votes + {v});
    if |m.votes| >= Quorum(ids) then ToLeader(ids, c, m) else m
  }

  lemma CountStep(but: Condition, s: State, c: NodeId, v: NodeId) returns (t: State)
    requires Ready(but, s, c) && v in Peers(s.ids, c) && s.nodes[c].role == Candidate && VoteResp(v, c, s.nodes[c].term, true) in s.msgs
    requires but == NoOldProgress || NoStaleProgress(s.ids, c, s.nodes[c])
    ensures Moves(but, s, t, s.nodes[c := Counted(s.ids, c, s.nodes[c], v)])
  {
    hide Reachable, ToLeader, Broadcast, Replicated;
    var m := VoteResp(v, c, s.nodes[c].term, true);
    t := Next(s, Deliver(m));
    ReachNext(but, s, Deliver(m));
    var u := Tally(s, c, v);
    var n := u.nodes[c];
    if |n.votes| >= Quorum(s.ids) {
      var w := Win(u, c);
      assert t == SendAll(w, c);
      assert w.nodes == s.nodes[c := ToLeader(s.ids, c, n)];
      assert w.nodes[c := w.nodes[c]] == w.nodes;
    }
  }

  // ------------------------------------------------------------------ replication

  /** A peer that has heard the leader of a term. */
  function Heard(p: Node, term: nat): Node {
    Followed(if term > p.term then Bumped(p, term) else p)
  }

  /** What the leader sends next to a peer that does not need a snapshot. */
  function NextEntries(n: Node, p: NodeId): Log
    requires 1 <= NextFor(n, p) <= |n.log| + 1
  {
    n.log[NextFor(n, p) - 1..BatchEnd(n.log, NextFor(n, p) - 1, 0, 0)]
  }

  ghost predicate Sends(but: Condition, s: State, l: NodeId, p: NodeId) {
    && Ready(but, s, l) && Ready(but, s, p) && l != p && s.nodes[l].role == Leader && s.nodes[p].term <= s.nodes[l].term
    && s.nodes[l].base < NextFor(s.nodes[l], p) <= |s.nodes[l].log| + 1
  }

  function NextAppend(l: NodeId, n: Node, p: NodeId): Msg
    requires 1 <= NextFor(n, p) <= |n.log| + 1
  {
    Append(l, p, n.term, NextFor(n, p) - 1, TermAt(n, NextFor(n, p) - 1), NextEntries(n, p), n.commit)
  }

  lemma NextIsSent(l: NodeId, n: Node, p: NodeId)
    requires n.base < NextFor(n, p) <= |n.log| + 1
    ensures NextAppend(l, n, p) in AppendFor(l, n, p)
  {
  }

  lemma SentTo(ids: set<NodeId>, l: NodeId, n: Node, p: NodeId, m: Msg)
    requires p in Peers(ids, l) && m in AppendFor(l, n, p)
    ensures m in Broadcast(ids, l, n)
  {
    hide AppendFor;
  }

  lemma BeatStep(but: Condition, s: State, l: NodeId, p: NodeId) returns (t: State)
    requires Sends(but, s, l, p)
    ensures Moves(but, s, t, s.nodes) && NextAppend(l, s.nodes[l], p) in t.msgs
  {
    hide Reachable, NextAppend, AppendFor, Broadcast;
    t := Next(s, Heartbeat(l));
    ReachNext(but, s, Heartbeat(l));
    NextIsSent(l, s.nodes[l], p);
    SentTo(s.ids, l, s.nodes[l], p, NextAppend(l, s.nodes[l], p));
    assert s.nodes[l := s.nodes[l]] == s.nodes;
  }

  lemma SameFits(n: Node, m: Node, prev: nat, prevTerm: nat, entries: Log)
    requires m.log == n.log && m.base == n.base
    ensures Fits(m, prev, prevTerm, entries) <==> Fits(n, prev, prevTerm, entries)
  {
  }

  /** An entry message reaches a peer that refuses it. */
  lemma RefuseStep(but: Condition, s: State, l: NodeId, p: NodeId) returns (t: State)
    requires Sends(but, s, l, p)
    requires
      var n, prev := s.nodes[l], NextFor(s.nodes[l], p) - 1;
      !Fits(Heard(s.nodes[p], n.term), prev, TermAt(n, prev), NextEntries(n, p))
    ensures Moves(but, s, t, s.nodes[p := Heard(s.nodes[p], s.nodes[l].term)])
    ensures AppendResp(p, l, s.nodes[l].term, false, |s.nodes[p].log|) in t.msgs
  {
    hide Reachable, TermAt, Fits, NextEntries;
    var u := BeatStep(but, s, l, p);
    var n, prev := s.nodes[l], NextFor(s.nodes[l], p) - 1;
    var m := Append(l, p, n.term, prev, TermAt(n, prev), NextEntries(n, p), n.commit);
    t := Next(u, Deliver(m));
    var f := Follow(Bump(u, p, n.term), p);
    SameFits(f.nodes[p], Bump(u, p, n.term).nodes[p], prev, m.prevTerm, m.entries);
    ReachNext(but, u, Deliver(m));
    assert f.nodes == s.nodes[p := Heard(s.nodes[p], n.term)];
    assert t == Answer(f, p, AppendResp(p, l, n.term, false, |f.nodes[p].log|));
    assert f.nodes[p := f.nodes[p]] == f.nodes;
  }

  /** An entry message reaches a peer that takes it. */
  lemma TakeStep(but: Condition, s: State, l: NodeId, p: NodeId) returns (t: State)
    requires Sends(but, s, l, p)
    requires
      var n, prev, f := s.nodes[l], NextFor(s.nodes[l], p) - 1, Heard(s.nodes[p], s.nodes[l].term);
      Fits(f, prev, TermAt(n, prev), NextEntries(n, p)) && !Rewrites(f, prev, NextEntries(n, p))
    requires but == CommitsInside || s.nodes[l].commit <= NextFor(s.nodes[l], p) - 1 + |NextEntries(s.nodes[l], p)|
    ensures
      var n, prev, f := s.nodes[l], NextFor(s.nodes[l], p) - 1, Heard(s.nodes[p], s.nodes[l].term);
      && Moves(but, s, t, s.nodes[p := Taken(f, prev, NextEntries(n, p), n.commit)])
      && AppendResp(p, l, n.term, true, prev + |NextEntries(n, p)|) in t.msgs
  {
    hide Reachable, TermAt, NextEntries, Rewrites, Merge;
    var u := BeatStep(but, s, l, p);
    var n, prev := s.nodes[l], NextFor(s.nodes[l], p) - 1;
    var m := Append(l, p, n.term, prev, TermAt(n, prev), NextEntries(n, p), n.commit);
    t := Next(u, Deliver(m));
    ReachNext(but, u, Deliver(m));
    var f := Follow(Bump(u, p, n.term), p);
    assert f.nodes == s.nodes[p := Heard(s.nodes[p], n.term)];
    assert t == Take(f, p, l, prev, m.entries, n.commit);
  }

  lemma RetreatStep(but: Condition, s: State, l: NodeId, p: NodeId, hint: nat) returns (t: State)
    requires Ready(but, s, l) && p in Peers(s.ids, l) && s.nodes[l].role == Leader && AppendResp(p, l, s.nodes[l].term, false, hint) in s.msgs
    ensures Moves(but, s, t, s.nodes[l := Retreated(s.nodes[l], p, hint)])
  {
    hide Reachable, AppendFor, Retreated;
    var m := AppendResp(p, l, s.nodes[l].term, false, hint);
    t := Next(s, Deliver(m));
    ReachNext(but, s, Deliver(m));
    var u := Put(s, l, Retreated(s.nodes[l], p, hint), {});
    assert t == Send(u, l, p);
    assert u.nodes[l := u.nodes[l]] == u.nodes;
  }

  lemma AckStep(but: Condition, s: State, l: NodeId, p: NodeId, index: nat) returns (t: State)
    requires Ready(but, s, l) && p in Peers(s.ids, l) && s.nodes[l].role == Leader && AppendResp(p, l, s.nodes[l].term, true, index) in s.msgs
    ensures Moves(but, s, t, s.nodes[l := Confirmed(s.ids, l, s.nodes[l], p, index)])
  {
    hide Reachable, AppendFor, Confirmed;
    var m := AppendResp(p, l, s.nodes[l].term, true, index);
    t := Next(s, Deliver(m));
    ReachNext(but, s, Deliver(m));
    var u := Put(s, l, Confirmed(s.ids, l, s.nodes[l], p, index), {});
    assert t == Send(u, l, p) || t == u;
    assert u.nodes[l := u.nodes[l]] == u.nodes;
  }

  // ------------------------------------------------------------------ snapshots

  function NextSnapshot(l: NodeId, n: Node, p: NodeId): Msg
    requires n.base <= |n.log|
  {
    Snapshot(l, p, n.term, n.base, TermAt(n, n.base), n.log[..n.base])
  }

  /** A leader that has compacted what the peer needs next. */
  ghost predicate Behind(but: Condition, s: State, l: NodeId, p: NodeId) {
    && Ready(but, s, l) && Ready(but, s, p) && l != p && s.nodes[l].role == Leader && s.nodes[p].term <= s.nodes[l].term
    && 1 <= NextFor(s.nodes[l], p) <= s.nodes[l].base <= |s.nodes[l].log| && TermAt(s.nodes[l], s.nodes[l].base) > 0
    && s.nodes[p].applied < s.nodes[l].base
  }

  lemma SnapshotSent(l: NodeId, n: Node, p: NodeId)
    requires 1 <= NextFor(n, p) <= n.base <= |n.log|
    ensures NextSnapshot(l, n, p) in AppendFor(l, n, p)
  {
  }

  /** The snapshot reaches the peer, which keeps it for installation. */
  lemma KeepStep(but: Condition, s: State, l: NodeId, p: NodeId) returns (t: State)
    requires Behind(but, s, l, p)
    ensures
      var n := s.nodes[l];
      Moves(but, s, t, s.nodes[p := Heard(s.nodes[p], n.term).(incoming := Some(Incoming(n.term, l, n.base, TermAt(n, n.base), n.log[..n.base])))])
  {
    hide Reachable, TermAt, AppendFor, Broadcast;
    var n, m := s.nodes[l], NextSnapshot(l, s.nodes[l], p);
    var u := Next(s, Heartbeat(l));
    ReachNext(but, s, Heartbeat(l));
    SnapshotSent(l, n, p);
    SentTo(s.ids, l, n, p, m);
    assert s.nodes[l := n] == s.nodes;
    t := Next(u, Deliver(m));
    ReachNext(but, u, Deliver(m));
    var f := Follow(Bump(u, p, n.term), p);
    assert f.nodes == s.nodes[p := Heard(s.nodes[p], n.term)];
  }

  /** A peer that is behind a compacted log catches up by the snapshot: it has the leader's log up to there, committed and applied. */
  lemma SnapshotStep(but: Condition, s: State, l: NodeId, p: NodeId) returns (t: State)
    requires Behind(but, s, l, p)
    ensures
      var n, was, q := s.nodes[l], s.nodes[p], if p in t.nodes then t.nodes[p] else Fresh;
      && Only(but, s, t, {p}) && SnapshotResp(p, l, n.term, n.base) in t.msgs
      && q.role == Follower && q.term == n.term && q.base == q.applied == n.base <= |q.log| && q.log[..n.base] == n.log[..n.base] && q.commit == Max(was.commit, n.base)
      && q.log[n.base..] == if n.base <= |was.log| && TermAt(was, n.base) == TermAt(n, n.base) then was.log[n.base..] else []
  {
    hide Reachable, TermAt;
    var u := KeepStep(but, s, l, p);
    t := Next(u, Adopt(p));
    ReachNext(but, u, Adopt(p));
    var n := s.nodes[l];
    SameTerm(s.nodes[p], u.nodes[p], n.base);
    var q := t.nodes[p];
    assert n.log[..n.base] + [] == n.log[..n.base];
    assert q.log[..n.base] == n.log[..n.base];
  }

  lemma SameTerm(n: Node, m: Node, i: nat)
    requires m.log == n.log && m.base == n.base
    ensures TermAt(m, i) == TermAt(n, i)
  {
  }

  // ------------------------------------------------------------------ a node's own moves

  lemma ProposeStep(but: Condition, s: State, l: NodeId, batch: seq<Bytes>) returns (t: State)
    requires Ready(but, s, l) && s.nodes[l].role == Leader && Proposable(batch)
    requires |s.nodes[l].log| - s.nodes[l].base + |batch| <= MAX_LOG_ENTRIES
    ensures Moves(but, s, t, s.nodes[l := AdvanceCommit(s.ids, l, s.nodes[l].(log := s.nodes[l].log + Stamped(s.nodes[l].term, batch)))])
  {
    hide Reachable, AdvanceCommit, Proposable;
    t := Next(s, Propose(l, batch));
    ReachNext(but, s, Propose(l, batch));
  }

  lemma ApplyStep(but: Condition, s: State, n: NodeId, index: nat) returns (t: State)
    requires Ready(but, s, n) && s.nodes[n].applied < index <= s.nodes[n].commit && index <= |s.nodes[n].log|
    ensures Moves(but, s, t, s.nodes[n := s.nodes[n].(applied := index)])
  {
    hide Reachable;
    t := Next(s, Apply(n, index));
    ReachNext(but, s, Apply(n, index));
  }

  lemma CompactStep(but: Condition, s: State, n: NodeId) returns (t: State)
    requires Ready(but, s, n) && s.nodes[n].applied <= s.nodes[n].commit && s.nodes[n].applied - s.nodes[n].base >= SNAPSHOT_LOG_THRESHOLD
    requires !Waiting(s.nodes[n])
    ensures Moves(but, s, t, s.nodes[n := s.nodes[n].(base := s.nodes[n].applied)])
  {
    hide Reachable;
    t := Next(s, Compact(n));
    ReachNext(but, s, Compact(n));
  }

  // ------------------------------------------------------------------ exchanges between two nodes

  /** The cluster gets from `s` to `t`, and only the nodes named change. */
  ghost predicate Only(but: Condition, s: State, t: State, who: set<NodeId>) {
    && Reachable(but, t) && t.ids == s.ids && t.nodes.Keys == s.ids && s.msgs <= t.msgs
    && forall j :: j in s.ids && j in s.nodes && j !in who ==> t.nodes[j] == s.nodes[j]
  }

  /** A running node with its whole log. */
  ghost predicate Is(n: Node, role: Role, term: nat, log: Log, commit: nat) {
    n.role == role && n.term == term && n.log == log && n.commit == commit <= |log| && n.base == 0 && n.incoming.None? && !n.failed
  }

  /** A leader that knows nothing of its peers yet. */
  ghost predicate Starts(ids: set<NodeId>, l: NodeId, n: Node, term: nat, log: Log, commit: nat) {
    Is(n, Leader, term, log, commit) && forall p :: p in Peers(ids, l) ==> NextFor(n, p) == |log| + 1 && MatchedAt(n, p) == 0
  }

  /** A follower's view of its last entry lets the candidate win, and the candidate's terms are past ones. */
  ghost predicate Favours(c: Node, v: Node) {
    && v.term <= c.term && UpToDate(LastLogTerm(c), |c.log|, LastLogTerm(v), |v.log|)
  }

  lemma SupportStep(but: Condition, s: State, c: NodeId, v: NodeId) returns (t: State)
    requires Ready(but, s, c) && Ready(but, s, v) && v != c && s.nodes[c].role == Candidate && s.nodes[v].term < s.nodes[c].term
    requires RequestVote(c, v, s.nodes[c].term, |s.nodes[c].log|, LastLogTerm(s.nodes[c])) in s.msgs
    requires UpToDate(LastLogTerm(s.nodes[c]), |s.nodes[c].log|, LastLogTerm(s.nodes[v]), |s.nodes[v].log|)
    requires (but == VoterHoldsLast || HoldsLast(s.nodes[v])) && (but == NoOldProgress || NoStaleProgress(s.ids, c, s.nodes[c]))
    ensures Only(but, s, t, {c, v}) && t.nodes[c] == Counted(s.ids, c, s.nodes[c], v) && t.nodes[v] == Granted(s.nodes[v], s.nodes[c].term, c)
  {
    hide Reachable, UpToDate, LastLogTerm, Counted, Granted, HoldsLast, NoStaleProgress;
    var u := VoteStep(but, s, c, v);
    assert !u.nodes[c].failed;
    t := CountStep(but, u, c, v);
  }

  lemma NewLeader(ids: set<NodeId>, c: NodeId, n: Node, votes: set<NodeId>)
    requires n.base == 0 && n.incoming.None? && !n.failed && n.commit <= |n.log| && forall i :: 0 <= i < |n.log| ==> n.log[i].term <= n.term
    ensures
      var m, end := ToLeader(ids, c, ToCandidate(c, n).(votes := votes)), |n.log| + 1;
      Starts(ids, c, m, n.term + 1, n.log + [Entry(n.term + 1, [])], if Replicated(ids, c, n, end) then end else n.commit)
  {
    hide Replicated, CommitFrom;
    var k := ToCandidate(c, n).(votes := votes);
    WinCommitsIff(ids, c, k);
    SameProgress(ids, c, k, n, |n.log| + 1);
  }

  /** With no progress recorded past a position, nothing there counts as replicated. */
  lemma NotReplicated(ids: set<NodeId>, l: NodeId, n: Node, i: nat)
    requires Quorum(ids) >= 2 && forall p :: p in Peers(ids, l) ==> MatchedAt(n, p) < i
    ensures !Replicated(ids, l, n, i)
  {
    assert (set p | p in Peers(ids, l) && MatchedAt(n, p) >= i) == {};
  }

  lemma ReplicatedBy(ids: set<NodeId>, l: NodeId, n: Node, i: nat, who: set<NodeId>)
    requires who <= Peers(ids, l) && 1 + |who| >= Quorum(ids) && forall p :: p in who ==> MatchedAt(n, p) >= i
    ensures Replicated(ids, l, n, i)
  {
    SubsetSize(who, set p | p in Peers(ids, l) && MatchedAt(n, p) >= i);
  }

  /** In a cluster of three a candidate wins by one other vote. */
  lemma WinStep(but: Condition, s: State, c: NodeId, v: NodeId) returns (t: State)
    requires Ready(but, s, c) && Ready(but, s, v) && v != c && |s.ids| == 3 && s.nodes[c].role != Leader && Favours(s.nodes[c], s.nodes[v])
    requires Is(s.nodes[c], s.nodes[c].role, s.nodes[c].term, s.nodes[c].log, s.nodes[c].commit)
    requires forall i :: 0 <= i < |s.nodes[c].log| ==> s.nodes[c].log[i].term <= s.nodes[c].term
    requires (but == VoterHoldsLast || HoldsLast(s.nodes[v])) && (but == NoOldProgress || NoStaleProgress(s.ids, c, s.nodes[c]))
    ensures Only(but, s, t, {c, v}) && t.nodes[v] == Granted(s.nodes[v], s.nodes[c].term + 1, c)
    ensures
      var n, end := s.nodes[c], |s.nodes[c].log| + 1;
      Starts(s.ids, c, t.nodes[c], n.term + 1, n.log + [Entry(n.term + 1, [])], if Replicated(s.ids, c, n, end) then end else n.commit)
  {
    hide Reachable, UpToDate, ToLeader, Replicated, Starts, Granted, HoldsLast;
    var u := StandStep(but, s, c);
    SameLast(s.nodes[c], u.nodes[c]);
    SameProgress(s.ids, c, s.nodes[c], u.nodes[c], |s.nodes[c].log| + 1);
    assert v in Peers(s.ids, c);
    t := SupportStep(but, u, c, v);
    assert {c} + {v} == {c, v} && |{c, v}| == 2;
    NewLeader(s.ids, c, s.nodes[c], {c, v});
  }

  /** In a cluster of five a candidate wins by two other votes. */
  lemma MajorityStep(but: Condition, s: State, c: NodeId, v: NodeId, w: NodeId) returns (t: State)
    requires Ready(but, s, c) && Ready(but, s, v) && Ready(but, s, w) && v != c && w != c && v != w && |s.ids| == 5
    requires s.nodes[c].role != Leader && Favours(s.nodes[c], s.nodes[v]) && Favours(s.nodes[c], s.nodes[w])
    requires Is(s.nodes[c], s.nodes[c].role, s.nodes[c].term, s.nodes[c].log, s.nodes[c].commit)
    requires forall i :: 0 <= i < |s.nodes[c].log| ==> s.nodes[c].log[i].term <= s.nodes[c].term
    requires (but == VoterHoldsLast || (HoldsLast(s.nodes[v]) && HoldsLast(s.nodes[w]))) && NoStaleProgress(s.ids, c, s.nodes[c])
    ensures Only(but, s, t, {c, v, w})
    ensures t.nodes[v] == Granted(s.nodes[v], s.nodes[c].term + 1, c) && t.nodes[w] == Granted(s.nodes[w], s.nodes[c].term + 1, c)
    ensures var n := s.nodes[c]; Starts(s.ids, c, t.nodes[c], n.term + 1, n.log + [Entry(n.term + 1, [])], n.commit)
  {
    hide Reachable, UpToDate, ToLeader, Replicated, Starts, Granted, HoldsLast;
    var u := StandStep(but, s, c);
    SameLast(s.nodes[c], u.nodes[c]);
    SameProgress(s.ids, c, s.nodes[c], u.nodes[c], |s.nodes[c].log| + 1);
    assert v in Peers(s.ids, c) && w in Peers(s.ids, c);
    var x := SupportStep(but, u, c, v);
    assert {c} + {v} == {c, v} && |{c, v}| == 2;
    SameLast(s.nodes[c], x.nodes[c]);
    SameProgress(s.ids, c, s.nodes[c], x.nodes[c], |s.nodes[c].log| + 1);
    t := SupportStep(but, x, c, w);
    assert {c, v} + {w} == {c, v, w} && |{c, v, w}| == 3;
    NewLeader(s.ids, c, s.nodes[c], {c, v, w});
  }

  /** The leader's next message reaches a peer whose log does not fit. */
  lemma RefusalStep(but: Condition, s: State, l: NodeId, p: NodeId) returns (t: State)
    requires Sends(but, s, l, p) && s.nodes[l].base == 0 && Is(s.nodes[p], s.nodes[p].role, s.nodes[p].term, s.nodes[p].log, s.nodes[p].commit)
    requires
      var n, prev := s.nodes[l], NextFor(s.nodes[l], p) - 1;
      prev > |s.nodes[p].log| || TermOf(s.nodes[p].log, prev) != TermOf(n.log, prev)
    ensures Only(but, s, t, {p}) && Is(t.nodes[p], Follower, s.nodes[l].term, s.nodes[p].log, s.nodes[p].commit)
    ensures t.nodes[p].matched == s.nodes[p].matched && t.nodes[p].applied == s.nodes[p].applied && AppendResp(p, l, s.nodes[l].term, false, |s.nodes[p].log|) in t.msgs
  {
    hide Reachable, BatchEnd;
    t := RefuseStep(but, s, l, p);
  }

  /** The refusal reaches the leader, which starts earlier the next time. */
  function Back(next: nat, hint: nat): nat {
    Min(Max(next - 1, 1), hint + 1)
  }

  lemma BackStep(but: Condition, s: State, l: NodeId, p: NodeId, hint: nat) returns (t: State)
    requires Ready(but, s, l) && p in Peers(s.ids, l) && s.nodes[l].role == Leader && AppendResp(p, l, s.nodes[l].term, false, hint) in s.msgs
    ensures Only(but, s, t, {l}) && t.nodes[l].next == s.nodes[l].next[p := Back(NextFor(s.nodes[l], p), hint)]
    ensures t.nodes[l] == s.nodes[l].(next := t.nodes[l].next)
  {
    hide Reachable;
    t := RetreatStep(but, s, l, p, hint);
  }

  /** What a log is after the leader's entries up to `end`: unchanged where it has them all, else the leader's up to there. */
  function Fed(log: Log, leader: Log, end: nat): Log
    requires end <= |leader|
  {
    if end <= |log| && log[..end] == leader[..end] then log else leader[..end]
  }

  lemma FedMerges(log: Log, prev: nat, leader: Log, end: nat, commit: nat)
    requires prev <= end <= |leader| && prev <= |log| && log[..prev] == leader[..prev]
    requires commit <= |log| && commit <= |leader| && log[..commit] == leader[..commit]
    ensures Merge(log, prev, leader[prev..end]) == Fed(log, leader, end)
    ensures var c := Conflict(log, prev, leader[prev..end]); c.Some? ==> c.value > commit
    ensures commit <= |Fed(log, leader, end)|
  {
    hide Merge, Conflict;
    var entries := leader[prev..end];
    MergedWithLeader(log, prev, entries, leader);
    var r, c := Merge(log, prev, entries), Conflict(log, prev, entries);
    if c.Some? {
      Differs(log, leader, r, end, c.value - 1, commit);
    } else {
      Extends(log, leader, r, end);
    }
  }

  lemma Differs(log: Log, leader: Log, r: Log, end: nat, k: nat, commit: nat)
    requires k < end <= |leader| && k < |log| && r == leader[..end] && r[k] != log[k]
    requires commit <= |log| && commit <= |leader| && log[..commit] == leader[..commit]
    ensures r == Fed(log, leader, end) && k >= commit
  {
    assert r[k] == leader[k];
    if end <= |log| {
      assert log[..end][k] == log[k];
    }
  }

  lemma Extends(log: Log, leader: Log, r: Log, end: nat)
    requires end <= |leader| && end <= |r| && r[..end] == leader[..end] && (r == leader[..end] || r == log) && Prefix(log, r)
    ensures r == Fed(log, leader, end) && |log| <= |r|
  {
    if end <= |log| {
      assert r[..|log|][..end] == r[..end];
    }
  }

  /** The leader's next message reaches a peer that agrees just before its entries. */
  lemma FeedStep(but: Condition, s: State, l: NodeId, p: NodeId, end: nat) returns (t: State)
    requires Sends(but, s, l, p) && Is(s.nodes[l], Leader, s.nodes[l].term, s.nodes[l].log, s.nodes[l].commit)
    requires Is(s.nodes[p], s.nodes[p].role, s.nodes[p].term, s.nodes[p].log, s.nodes[p].commit)
    requires but == CommitsInside || s.nodes[l].commit <= end
    requires
      var n, q, prev := s.nodes[l], s.nodes[p], NextFor(s.nodes[l], p) - 1;
      && end == BatchEnd(n.log, prev, 0, 0) && prev <= |q.log| && q.log[..prev] == n.log[..prev]
      && q.commit <= |n.log| && q.log[..q.commit] == n.log[..q.commit]
    ensures
      var n, q, log := s.nodes[l], s.nodes[p], Fed(s.nodes[p].log, s.nodes[l].log, end);
      Only(but, s, t, {p}) && Is(t.nodes[p], Follower, n.term, log, if n.commit > q.commit then Min(n.commit, |log|) else q.commit)
    ensures t.nodes[p].matched == s.nodes[p].matched && t.nodes[p].applied == s.nodes[p].applied && AppendResp(p, l, s.nodes[l].term, true, end) in t.msgs
  {
    hide Reachable, BatchEnd, Merge, Conflict, Fed;
    var n, q, prev := s.nodes[l], s.nodes[p], NextFor(s.nodes[l], p) - 1;
    FedMerges(q.log, prev, n.log, end, q.commit);
    assert prev > 0 ==> q.log[..prev][prev - 1] == n.log[..prev][prev - 1];
    t := TakeStep(but, s, l, p);
  }

  /** The confirmation reaches the leader and commits nothing. */
  lemma QuietStep(but: Condition, s: State, l: NodeId, p: NodeId, index: nat) returns (t: State)
    requires Ready(but, s, l) && p in Peers(s.ids, l) && Is(s.nodes[l], Leader, s.nodes[l].term, s.nodes[l].log, s.nodes[l].commit)
    requires AppendResp(p, l, s.nodes[l].term, true, index) in s.msgs && MatchedAt(s.nodes[l], p) <= index <= |s.nodes[l].log|
    requires
      var n, m := s.nodes[l], Noted(s.nodes[l], p, index);
      forall i :: n.commit < i <= |n.log| ==> TermAt(m, i) != n.term || !Replicated(s.ids, l, m, i)
    ensures Only(but, s, t, {l}) && t.nodes[l] == Noted(s.nodes[l], p, index)
  {
    hide Reachable, Replicated;
    t := AckStep(but, s, l, p, index);
    NothingCommits(s.ids, l, Noted(s.nodes[l], p, index), |s.nodes[l].log|);
  }

  /** The confirmation reaches the leader; with progress past `bound` of one peer only, nothing past it is committed. */
  lemma SlowStep(but: Condition, s: State, l: NodeId, p: NodeId, index: nat, ahead: NodeId, bound: nat) returns (t: State)
    requires Ready(but, s, l) && p in Peers(s.ids, l) && Is(s.nodes[l], Leader, s.nodes[l].term, s.nodes[l].log, s.nodes[l].commit)
    requires AppendResp(p, l, s.nodes[l].term, true, index) in s.msgs && MatchedAt(s.nodes[l], p) <= index <= |s.nodes[l].log|
    requires Quorum(s.ids) >= 3 && s.nodes[l].commit <= bound && forall q :: q in Peers(s.ids, l) && q != ahead ==> MatchedAt(Noted(s.nodes[l], p, index), q) <= bound
    ensures Only(but, s, t, {l}) && t.nodes[l].commit <= bound && t.nodes[l].commit <= |s.nodes[l].log|
    ensures t.nodes[l] == Noted(s.nodes[l], p, index).(commit := t.nodes[l].commit)
  {
    hide Reachable, Replicated, Quorum;
    t := AckStep(but, s, l, p, index);
    CommitBounded(s.ids, l, Noted(s.nodes[l], p, index), |s.nodes[l].log|, ahead, bound);
  }

  lemma {:induction false} CommitBounded(ids: set<NodeId>, l: NodeId, n: Node, i: nat, ahead: NodeId, bound: nat)
    requires i <= |n.log| && n.commit <= bound && Quorum(ids) >= 3 && forall q :: q in Peers(ids, l) && q != ahead ==> MatchedAt(n, q) <= bound
    ensures CommitFrom(ids, l, n, i) <= bound && CommitFrom(ids, l, n, i) <= Max(n.commit, i)
  {
    hide Replicated, Quorum;
    if i > n.commit {
      OneAhead(ids, l, n, i, ahead, bound);
      CommitBounded(ids, l, n, i - 1, ahead, bound);
    }
  }

  lemma OneAhead(ids: set<NodeId>, l: NodeId, n: Node, i: nat, ahead: NodeId, bound: nat)
    requires Quorum(ids) >= 3 && forall q :: q in Peers(ids, l) && q != ahead ==> MatchedAt(n, q) <= bound
    ensures i > bound ==> !Replicated(ids, l, n, i)
  {
    if i > bound {
      SubsetSize(set p | p in Peers(ids, l) && MatchedAt(n, p) >= i, {ahead});
    }
  }

  /** A leader that has written down how far a peer has got. */
  function Noted(n: Node, p: NodeId, index: nat): Node {
    n.(matched := n.matched[p := index], next := n.next[p := index + 1])
  }

  lemma {:induction false} NothingCommits(ids: set<NodeId>, l: NodeId, n: Node, i: nat)
    requires i <= |n.log| && forall k :: n.commit < k <= i ==> TermAt(n, k) != n.term || !Replicated(ids, l, n, k)
    ensures CommitFrom(ids, l, n, i) == n.commit
  {
    hide Replicated;
    if i > n.commit {
      NothingCommits(ids, l, n, i - 1);
    }
  }

  /** The confirmation reaches the leader and commits its whole log. */
  lemma CommitStep(but: Condition, s: State, l: NodeId, p: NodeId) returns (t: State)
    requires Ready(but, s, l) && p in Peers(s.ids, l) && Is(s.nodes[l], Leader, s.nodes[l].term, s.nodes[l].log, s.nodes[l].commit)
    requires AppendResp(p, l, s.nodes[l].term, true, |s.nodes[l].log|) in s.msgs && MatchedAt(s.nodes[l], p) <= |s.nodes[l].log|
    requires
      var n := s.nodes[l];
      n.log != [] && TermOf(n.log, |n.log|) == n.term && Replicated(s.ids, l, Noted(n, p, |n.log|), |n.log|)
    ensures Only(but, s, t, {l}) && t.nodes[l] == Noted(s.nodes[l], p, |s.nodes[l].log|).(commit := |s.nodes[l].log|)
  {
    hide Reachable, Replicated;
    t := AckStep(but, s, l, p, |s.nodes[l].log|);
  }

  /** The leader takes one entry and commits nothing by it. */
  lemma WriteStep(but: Condition, s: State, l: NodeId, data: Bytes) returns (t: State)
    requires Ready(but, s, l) && Is(s.nodes[l], Leader, s.nodes[l].term, s.nodes[l].log, s.nodes[l].commit) && 1 <= |data| <= MAX_ENTRY_BYTES && |s.nodes[l].log| < MAX_LOG_ENTRIES
    requires Quorum(s.ids) >= 2 && forall p :: p in Peers(s.ids, l) ==> MatchedAt(s.nodes[l], p) <= s.nodes[l].commit
    ensures Only(but, s, t, {l}) && t.nodes[l] == s.nodes[l].(log := s.nodes[l].log + [Entry(s.nodes[l].term, data)])
  {
    hide Reachable, Replicated;
    assert EncodedSize([data]) == 20 + |data| + EncodedSize([]);
    t := ProposeStep(but, s, l, [data]);
    var n := s.nodes[l].(log := s.nodes[l].log + [Entry(s.nodes[l].term, data)]);
    assert Stamped(n.term, [data]) == [Entry(n.term, data)];
    forall i | n.commit < i <= |n.log|
      ensures !Replicated(s.ids, l, n, i)
    {
      NotReplicated(s.ids, l, n, i);
    }
    NothingCommits(s.ids, l, n, |n.log|);
  }
}
