/** Whole runs of the cluster: committed entries agree everywhere and for good. */
module RaftRuns {
  import opened Basics
  import opened Raft
  import opened RaftLogs
  import opened RaftElection
  import opened RaftSafety
  import opened RaftCommit

  /**
   What the program leaves to chance: a voter still holds the last entry of its log, a candidate has
   no majority of old progress past its log, and a node takes commitment only inside the entries it takes.
   */
  datatype Condition = VoterHoldsLast | NoOldProgress | CommitsInside

  predicate Meets(s: State, e: Event, c: Condition)
    requires Enabled(s, e)
  {
    e.Deliver? ==>
      var n := Bump(s, e.m.to, e.m.term).nodes[e.m.to];
      match c
      case VoterHoldsLast => e.m.RequestVote? && Grants(n, e.m.term, e.m.from, e.m.lastIndex, e.m.lastTerm) ==> HoldsLast(n)
      case NoOldProgress => e.m.VoteResp? && n.role == Candidate ==> NoStaleProgress(s.ids, e.m.to, n)
      case CommitsInside =>
        e.m.Append? && e.m.term == n.term && Fits(n, e.m.prev, e.m.prevTerm, e.m.entries) ==> CommitInside(n, e.m.prev, e.m.entries, e.m.leaderCommit)
  }

  predicate Sound(s: State, e: Event)
    requires Enabled(s, e)
  {
    Meets(s, e, VoterHoldsLast) && Meets(s, e, NoOldProgress) && Meets(s, e, CommitsInside)
  }

  /** The invariant holds after, and nothing recorded got less. */
  ghost predicate Leads(s: State, s': State) {
    All(s') && Ups(s.h, s'.h) && s'.ids == s.ids
  }

  lemma UpsTrans(a: History, b: History, c: History)
    requires Ups(a, b) && Ups(b, c)
    ensures Ups(a, c)
  {
    forall t | t in a.log
      ensures t in c.log && Prefix(a.log[t], c.log[t])
    {
      assert Prefix(a.log[t], b.log[t]) && Prefix(b.log[t], c.log[t]);
      assert c.log[t][..|b.log[t]|][..|a.log[t]|] == c.log[t][..|a.log[t]|];
    }
    forall j: NodeId, t: nat
      ensures Level(a, j, t) <= Level(c, j, t)
    {
      assert Level(a, j, t) <= Level(b, j, t) && Level(b, j, t) <= Level(c, j, t);
    }
  }

  lemma WonIfQuorumAll(s: State, n: NodeId)
    requires All(s) && n in s.nodes && s.nodes[n].role == Candidate && NoStaleProgress(s.ids, n, s.nodes[n])
    ensures Leads(s, WonIfQuorum(s, n))
  {
    hide All, SendAll, ToLeader, Ups, NoStaleProgress;
    SameUps(s.h);
    if |s.nodes[n].votes| >= Quorum(s.ids) {
      WinAll(s, n);
      SendAllAll(Win(s, n), n);
      AllParts(s);
      NotWonYet(s, n);
      SameKeys(s);
      WinUps(s, n);
      SendAllSame(Win(s, n), n);
    }
  }

  lemma SendAllSame(s: State, n: NodeId)
    requires n in s.nodes
    ensures SendAll(s, n).h == s.h && SendAll(s, n).ids == s.ids
  {
  }

  lemma AllParts(s: State)
    requires All(s)
    ensures Inv(s) && SafeInv(s)
  {
  }

  lemma VoteRequestAll(s: State, m: Msg)
    requires All(s) && m.RequestVote? && m.to in s.nodes && m in s.msgs && m.term <= s.nodes[m.to].term && m.from != m.to
    requires Grants(s.nodes[m.to], m.term, m.from, m.lastIndex, m.lastTerm) ==> HoldsLast(s.nodes[m.to])
    ensures Leads(s, OnVoteRequest(s, m))
  {
    hide All, Ups, HoldsLast, Inv, BallotOk;
    AllParts(s);
    SameUps(s.h);
    if Grants(s.nodes[m.to], m.term, m.from, m.lastIndex, m.lastTerm) {
      AtMsg(s, m);
      VotesCount(s, m.from, m.term);
      VoteAll(s, m);
      CastUps(s.h, m.to, m.term, Ballot(m.from, s.nodes[m.to].log));
    } else {
      AnswerAll(s, m.to, VoteResp(m.to, m.from, s.nodes[m.to].term, false));
    }
  }

  lemma VoteRespAll(s: State, m: Msg)
    requires All(s) && m.VoteResp? && m.to in s.nodes && m in s.msgs
    requires s.nodes[m.to].role == Candidate ==> NoStaleProgress(s.ids, m.to, s.nodes[m.to])
    ensures Leads(s, OnVoteResp(s, m))
  {
    hide All, Ups, NoStaleProgress, Inv, WonIfQuorum;
    AllParts(s);
    SameUps(s.h);
    if s.nodes[m.to].role == Candidate && m.term == s.nodes[m.to].term && m.granted {
      AtMsg(s, m);
      TallyAll(s, m.to, m.from);
      StillFresh(s.ids, m.to, s.nodes[m.to], s.nodes[m.to].(votes := s.nodes[m.to].votes + {m.from}));
      WonIfQuorumAll(Tally(s, m.to, m.from), m.to);
    }
  }

  lemma StillFresh(ids: set<NodeId>, id: NodeId, n: Node, m: Node)
    requires NoStaleProgress(ids, id, n) && m.matched == n.matched && m.log == n.log
    ensures NoStaleProgress(ids, id, m)
  {
    SameProgress(ids, id, n, m, |n.log| + 1);
  }

  lemma FollowAll(s: State, n: NodeId)
    requires All(s) && n in s.nodes
    ensures All(Follow(s, n))
  {
    hide All;
    AllParts(s);
    FollowKeeps(s, n);
    QuietAll(s, n, Followed(s.nodes[n]));
  }

  lemma AppendAll(s: State, m: Msg)
    requires All(s) && m.Append? && m.to in s.nodes && m in s.msgs && m.term <= s.nodes[m.to].term && m.from != m.to
    requires m.term == s.nodes[m.to].term && Fits(s.nodes[m.to], m.prev, m.prevTerm, m.entries)
             ==> CommitInside(s.nodes[m.to], m.prev, m.entries, m.leaderCommit)
    ensures Leads(s, OnAppend(s, m))
  {
    hide All, Ups, Inv, LogOk, Merge;
    var n := m.to;
    SameUps(s.h);
    if m.term < s.nodes[n].term {
      AnswerAll(s, n, AppendResp(n, m.from, s.nodes[n].term, false, |s.nodes[n].log|));
    } else {
      var f := Follow(s, n);
      FollowAll(s, n);
      AllParts(f);
      if !Fits(f.nodes[n], m.prev, m.prevTerm, m.entries) {
        AnswerAll(f, n, AppendResp(n, m.from, f.nodes[n].term, false, |f.nodes[n].log|));
      } else if Rewrites(f.nodes[n], m.prev, m.entries) {
        AtNode(f, n);
        QuietKeeps(f, n, f.nodes[n].(failed := true));
        QuietAll(f, n, f.nodes[n].(failed := true));
      } else {
        TakeAll(f, m);
        LevelUps(f.h, n, m.term, m.prev + |m.entries|);
      }
    }
  }

  lemma AppendRespAll(s: State, m: Msg)
    requires All(s) && m.AppendResp? && m.to in s.nodes && m in s.msgs
    ensures Leads(s, OnAppendResp(s, m))
  {
    hide Inv, SafeInv, Ups, Backed, Send, CommitFrom;
    SameUps(s.h);
    var n := m.to;
    if s.nodes[n].role == Leader && m.term == s.nodes[n].term {
      assert MsgBacked(s.ids, s.h, m);
      if m.success {
        ConfirmedAll(s, n, m.from, m.index);
        SendAllTo(Put(s, n, Confirmed(s.ids, n, s.nodes[n], m.from, m.index), {}), n, m.from);
      } else {
        RetreatedAll(s, n, m.from, m.index);
        SendAllTo(Put(s, n, Retreated(s.nodes[n], m.from, m.index), {}), n, m.from);
      }
      SendSame(Put(s, n, Confirmed(s.ids, n, s.nodes[n], m.from, m.index), {}), n, m.from);
      SendSame(Put(s, n, Retreated(s.nodes[n], m.from, m.index), {}), n, m.from);
    }
  }

  lemma SnapshotAll(s: State, m: Msg)
    requires All(s) && m.Snapshot? && m.to in s.nodes && m in s.msgs
    ensures Leads(s, OnSnapshot(s, m))
  {
    hide Inv, SafeInv, Ups, Backed, LogOk, MsgBacked;
    var n := m.to;
    SameUps(s.h);
    SnapshotKeeps(s, m);
    if m.term == s.nodes[n].term && m.index != 0 && m.lastTerm != 0 {
      FollowAll(s, n);
      var f := Follow(s, n);
      SnapshotBacked(f, m);
      if m.index <= f.nodes[n].applied {
        AtNode(f, n);
        AffirmAll(f, n, m.from, m.index);
        LevelUps(f.h, n, f.nodes[n].term, m.index);
      } else {
        var node := f.nodes[n].(incoming := Some(Incoming(m.term, m.from, m.index, m.lastTerm, m.prefix)));
        QuietSafe(f, n, node, {});
        QuietBacked(f, n, node, {});
      }
    }
  }

  lemma SnapshotBacked(s: State, m: Msg)
    requires All(s) && m.Snapshot? && m in s.msgs
    ensures m.term in s.h.log && Backed(s.ids, s.h, s.h.log[m.term], m.index) && Backed(s.ids, s.h, m.prefix, m.index)
  {
    hide Inv, SafeInv, Ups, Backed;
    AtMsg(s, m);
    assert MsgBacked(s.ids, s.h, m);
    SameUps(s.h);
    BackedUp(s.ids, s.h, s.h, s.h.log[m.term], m.prefix, m.index, m.index);
  }

  lemma SnapshotRespAll(s: State, m: Msg)
    requires All(s) && m.SnapshotResp? && m.to in s.nodes && m in s.msgs
    ensures Leads(s, OnSnapshotResp(s, m))
  {
    hide Inv, SafeInv, Ups, Backed, Send, CommitFrom;
    SameUps(s.h);
    var n := m.to;
    if s.nodes[n].role == Leader && m.term == s.nodes[n].term {
      assert MsgBacked(s.ids, s.h, m);
      var c := Put(s, n, Confirmed(s.ids, n, s.nodes[n], m.from, m.index), {});
      ConfirmedAll(s, n, m.from, m.index);
      SendAllTo(c, n, m.from);
      SendSame(c, n, m.from);
    }
  }

  lemma SendSame(s: State, n: NodeId, peer: NodeId)
    requires n in s.nodes
    ensures Send(s, n, peer).h == s.h && Send(s, n, peer).ids == s.ids
  {
  }

  lemma BumpSame(s: State, n: NodeId, term: nat)
    requires n in s.nodes
    ensures Bump(s, n, term).h == s.h && Bump(s, n, term).ids == s.ids && Bump(s, n, term).msgs == s.msgs
    ensures Bump(s, n, term).nodes.Keys == s.nodes.Keys && term <= Bump(s, n, term).nodes[n].term
  {
  }

  lemma DeliverAll(s: State, m: Msg)
    requires All(s) && Enabled(s, Deliver(m)) && Sound(s, Deliver(m))
    ensures Leads(s, Next(s, Deliver(m)))
  {
    hide All, Ups, HoldsLast, NoStaleProgress, CommitInside, Fits, Grants, Bump, OnVoteRequest, OnVoteResp, OnAppend, OnAppendResp, OnSnapshot, OnSnapshotResp;
    BumpAll(s, m.to, m.term);
    BumpSame(s, m.to, m.term);
    var b := Bump(s, m.to, m.term);
    match m
    case RequestVote(_, _, _, _, _) => VoteRequestAll(b, m);
    case VoteResp(_, _, _, _) => VoteRespAll(b, m);
    case Append(_, _, _, _, _, _, _) => AppendAll(b, m);
    case AppendResp(_, _, _, _, _) => AppendRespAll(b, m);
    case Snapshot(_, _, _, _, _, _) => SnapshotAll(b, m);
    case SnapshotResp(_, _, _, _) => SnapshotRespAll(b, m);
  }

  lemma TimeoutAll(s: State, n: NodeId)
    requires All(s) && Enabled(s, Timeout(n))
    ensures Leads(s, Next(s, Timeout(n)))
  {
    hide All, Ups, WonIfQuorum, AskVotes, Replicated;
    StandAll(s, n);
    var c := Stand(s, n);
    CastUps(s.h, n, c.nodes[n].term, Ballot(n, c.nodes[n].log));
    if Quorum(s.ids) == 1 {
      WonIfQuorumAll(c, n);
      UpsTrans(s.h, c.h, WonIfQuorum(c, n).h);
    } else {
      AskVotesAll(c, n);
      AskSame(c, n);
    }
  }

  lemma AskSame(s: State, n: NodeId)
    requires n in s.nodes
    ensures AskVotes(s, n).h == s.h && AskVotes(s, n).ids == s.ids
  {
  }

  lemma ProposeAll(s: State, n: NodeId, batch: seq<Bytes>)
    requires All(s) && n in s.nodes && s.nodes[n].role == Leader
    ensures Leads(s, Extend(s, n, batch))
  {
    hide All, Ups, CommitFrom, Backed, LogOk;
    ExtendAll(s, n, batch);
    LeaderFacts(s, n);
    ExtendUps(s.h, n, s.nodes[n].term, Stamped(s.nodes[n].term, batch));
  }

  lemma EventAll(s: State, e: Event)
    requires All(s) && Enabled(s, e) && Sound(s, e)
    ensures Leads(s, Next(s, e))
  {
    hide All, Ups, Extend, SendAll, AskVotes, WonIfQuorum, Install, OnVoteRequest, OnVoteResp, OnAppend, OnAppendResp, OnSnapshot, OnSnapshotResp, Sound;
    SameUps(s.h);
    AllParts(s);
    if e.Deliver? {
      DeliverAll(s, e.m);
    } else if e.Timeout? {
      TimeoutAll(s, e.n);
    } else if e.Propose? {
      ProposeAll(s, e.n, e.batch);
    } else if e.Adopt? {
      AdoptAll(s, e.n);
    } else {
      OtherAll(s, e);
    }
  }

  lemma AdoptAll(s: State, n: NodeId)
    requires All(s) && n in s.nodes && Waiting(s.nodes[n])
    ensures Leads(s, Install(s, n))
  {
    hide All, Ups;
    InstallAll(s, n);
    LevelUps(s.h, n, s.nodes[n].term, s.nodes[n].incoming.value.index);
  }

  lemma OtherAll(s: State, e: Event)
    requires All(s) && Enabled(s, e) && (e.Heartbeat? || e.Apply? || e.Compact? || e.Restart?)
    ensures Leads(s, Next(s, e))
  {
    hide All, Ups, Inv, LogOk, Broadcast;
    SameUps(s.h);
    AllParts(s);
    AtNode(s, e.n);
    EventKeeps(s, e);
    match e
    case Heartbeat(n) => SendAllAll(s, n);
    case Apply(n, index) => QuietAll(s, n, s.nodes[n].(applied := index));
    case Compact(n) => QuietAll(s, n, s.nodes[n].(base := s.nodes[n].applied));
    case Restart(n, commit) =>
      QuietAll(s, n, s.nodes[n].(role := Follower, commit := commit, votes := {}, next := map[], matched := map[], incoming := None, failed := false));
  }

  // ------------------------------------------------------------------ runs

  ghost predicate IsSoundRun(ids: set<NodeId>, states: seq<State>, events: seq<Event>) {
    IsRun(ids, states, events) && forall i :: 0 <= i < |events| ==> Sound(states[i], events[i])
  }

  lemma InitialAll(ids: set<NodeId>)
    ensures All(Initial(ids))
  {
    InitialInv(ids);
  }

  lemma {:induction false} RunAll(ids: set<NodeId>, states: seq<State>, events: seq<Event>, k: nat)
    requires IsSoundRun(ids, states, events) && k < |states|
    ensures All(states[k]) && states[k].ids == ids
  {
    hide All, Next, Enabled, Sound, Ups;
    if k == 0 {
      InitialAll(ids);
    } else {
      RunAll(ids, states, events, k - 1);
      EventAll(states[k - 1], events[k - 1]);
    }
  }

  lemma {:induction false} RunUps(ids: set<NodeId>, states: seq<State>, events: seq<Event>, k: nat, l: nat)
    requires IsSoundRun(ids, states, events) && k <= l < |states|
    ensures Ups(states[k].h, states[l].h)
    decreases l
  {
    hide All, Next, Enabled, Sound, Ups;
    if k == l {
      SameUps(states[k].h);
    } else {
      RunUps(ids, states, events, k, l - 1);
      RunAll(ids, states, events, l - 1);
      EventAll(states[l - 1], events[l - 1]);
      UpsTrans(states[k].h, states[l - 1].h, states[l].h);
    }
  }

  /** The log of every later leader of a run contains everything any node has committed. */
  lemma LeaderCompleteness(ids: set<NodeId>, states: seq<State>, events: seq<Event>, k: nat, t: nat, i: nat, n: NodeId)
    requires IsSoundRun(ids, states, events) && k < |states| && n in states[k].nodes && states[k].nodes[n].role == Leader
    requires Committed(ids, states[k].h, t, i) && t < states[k].nodes[n].term
    ensures Own(states[k].h, t, i) && Has(states[k].h, states[k].nodes[n].log, t, i)
  {
    hide IsSoundRun, All, Committed, Has;
    RunAll(ids, states, events, k);
    AllParts(states[k]);
    AtLeader(states[k], n);
    OwnFacts(states[k], t, i);
    CommittedInLater(states[k], t, i, states[k].nodes[n].term);
  }

  /** Whatever two nodes have committed, at whatever moments of a run, agrees position by position. */
  lemma StateMachineSafety(ids: set<NodeId>, states: seq<State>, events: seq<Event>, k: nat, l: nat, a: NodeId, b: NodeId, i: nat)
    requires IsSoundRun(ids, states, events) && k < |states| && l < |states| && a in states[k].nodes && b in states[l].nodes
    requires i < states[k].nodes[a].commit && i < states[l].nodes[b].commit
    ensures i < |states[k].nodes[a].log| && i < |states[l].nodes[b].log| && states[k].nodes[a].log[i] == states[l].nodes[b].log[i]
  {
    hide IsSoundRun, Inv, SafeInv, Ups, Backed;
    var last := if k <= l then l else k;
    RunAll(ids, states, events, k);
    RunAll(ids, states, events, l);
    RunUps(ids, states, events, k, last);
    RunUps(ids, states, events, l, last);
    var m, n := states[k].nodes[a], states[l].nodes[b];
    BackedInside(ids, states[k].h, m.log, m.commit);
    BackedInside(ids, states[l].h, n.log, n.commit);
    BackedUp(ids, states[k].h, states[last].h, m.log, m.log, m.commit, m.commit);
    BackedUp(ids, states[l].h, states[last].h, n.log, n.log, n.commit, n.commit);
    if m.commit <= n.commit {
      BackedAgree(states[last], m.log, m.commit, n.log, n.commit);
      assert m.log[..m.commit][i] == n.log[..m.commit][i];
    } else {
      BackedAgree(states[last], n.log, n.commit, m.log, m.commit);
      assert m.log[..n.commit][i] == n.log[..n.commit][i];
    }
  }
}
