/**
 The consensus protocol of the cluster: nodes that exchange messages which may be lost, repeated,
 delayed and reordered, and that may stop and restart. Each function follows one function of the
 program. A node's log is kept whole here; `base` is how much of it the program has replaced by a
 snapshot and can no longer see.
 */
module Raft {
  import opened Basics

  type NodeId = nat

  const MAX_APPEND_ENTRIES := 256
  const MAX_APPEND_BYTES := 512 * 1024
  const MAX_ENTRY_BYTES := 256 * 1024
  const SNAPSHOT_LOG_THRESHOLD := 4096
  const MAX_LOG_ENTRIES := 100_000

  datatype Entry = Entry(term: nat, data: Bytes)
  type Log = seq<Entry>

  datatype Role = Follower | Candidate | Leader

  datatype Node = Node(term: nat, voted: Option<NodeId>, log: Log, base: nat, role: Role, commit: nat, applied: nat,
                       votes: set<NodeId>, next: map<NodeId, nat>, matched: map<NodeId, nat>, incoming: Option<Incoming>, failed: bool)

  /** A snapshot received from the leader of a term and not yet installed; `prefix` is the part of the log it stands for. */
  datatype Incoming = Incoming(term: nat, from: NodeId, index: nat, lastTerm: nat, prefix: Log)

  datatype Msg =
    | RequestVote(from: NodeId, to: NodeId, term: nat, lastIndex: nat, lastTerm: nat)
    | VoteResp(from: NodeId, to: NodeId, term: nat, granted: bool)
    | Append(from: NodeId, to: NodeId, term: nat, prev: nat, prevTerm: nat, entries: Log, leaderCommit: nat)
    | AppendResp(from: NodeId, to: NodeId, term: nat, success: bool, index: nat)
    | Snapshot(from: NodeId, to: NodeId, term: nat, index: nat, lastTerm: nat, prefix: Log)
    | SnapshotResp(from: NodeId, to: NodeId, term: nat, index: nat)

  // ------------------------------------------------------------------ logs

  /** The term at a position of the whole log; positions count from one. */
  function TermOf(log: Log, i: nat): nat
    requires i <= |log|
  {
    if i == 0 then 0 else log[i - 1].term
  }

  /** The term a node can still tell: none below its snapshot, none past its end. */
  function TermAt(n: Node, i: nat): nat {
    if i == 0 || i < n.base || i > |n.log| then 0 else n.log[i - 1].term
  }

  /** The term of the last entry still held; zero when a snapshot has replaced them all. */
  function LastLogTerm(n: Node): nat {
    if |n.log| <= n.base then 0 else n.log[|n.log| - 1].term
  }

  predicate UpToDate(theirTerm: nat, theirIndex: nat, myTerm: nat, myIndex: nat) {
    theirTerm > myTerm || (theirTerm == myTerm && theirIndex >= myIndex)
  }

  /** The first position, counting from one, where the log and the entries after `prev` differ. */
  function Conflict(log: Log, prev: nat, entries: Log): Option<nat>
    requires prev <= |log|
    decreases |entries|
  {
    if entries == [] || prev == |log| then None
    else if log[prev] != entries[0] then Some(prev + 1)
    else Conflict(log, prev + 1, entries[1..])
  }

  /** The log with the entries put after `prev`: what agrees stays, a conflict cuts off everything after it. */
  function Merge(log: Log, prev: nat, entries: Log): Log
    requires prev <= |log|
    decreases |entries|
  {
    if entries == [] then log
    else if prev == |log| then log + entries
    else if log[prev] != entries[0] then log[..prev] + entries
    else Merge(log, prev + 1, entries[1..])
  }

  // ------------------------------------------------------------------ one node

  function Peers(ids: set<NodeId>, id: NodeId): set<NodeId> {
    ids - {id}
  }

  /** A majority of all nodes. */
  function Quorum(ids: set<NodeId>): nat {
    |ids| / 2 + 1
  }

  function MatchedAt(n: Node, peer: NodeId): nat {
    if peer in n.matched then n.matched[peer] else 0
  }

  function NextFor(n: Node, peer: NodeId): nat {
    if peer in n.next then n.next[peer] else 1
  }

  predicate Replicated(ids: set<NodeId>, id: NodeId, n: Node, i: nat) {
    1 + |set p | p in Peers(ids, id) && MatchedAt(n, p) >= i| >= Quorum(ids)
  }

  /** The highest position, not above `i`, that the leader may count as committed: of its own term and on a quorum. */
  function CommitFrom(ids: set<NodeId>, id: NodeId, n: Node, i: nat): nat
    requires i <= |n.log|
  {
    if i <= n.commit then n.commit
    else if TermAt(n, i) == n.term && Replicated(ids, id, n, i) then i
    else CommitFrom(ids, id, n, i - 1)
  }

  function AdvanceCommit(ids: set<NodeId>, id: NodeId, n: Node): Node {
    n.(commit := CommitFrom(ids, id, n, |n.log|))
  }

  /** How far the entries from `at` on fit one message. */
  function BatchEnd(log: Log, at: nat, count: nat, bytes: nat): (end: nat)
    requires at <= |log|
    ensures at <= end <= |log|
    decreases |log| - at
  {
    if at == |log| then at
    else
      var size := 20 + |log[at].data|;
      if (count > 0 && (count >= MAX_APPEND_ENTRIES || bytes + size > MAX_APPEND_BYTES)) || size > MAX_APPEND_BYTES then at
      else BatchEnd(log, at + 1, count + 1, bytes + size)
  }

  /** What a leader sends to a peer: the next entries, or its snapshot when it no longer has them. */
  function AppendFor(id: NodeId, n: Node, peer: NodeId): set<Msg> {
    var next := NextFor(n, peer);
    if next == 0 || next > |n.log| + 1 || n.base > |n.log| then {}
    else if next <= n.base then {Snapshot(id, peer, n.term, n.base, TermAt(n, n.base), n.log[..n.base])}
    else {Append(id, peer, n.term, next - 1, TermAt(n, next - 1), n.log[next - 1..BatchEnd(n.log, next - 1, 0, 0)], n.commit)}
  }

  function Broadcast(ids: set<NodeId>, id: NodeId, n: Node): set<Msg> {
    set p, m | p in Peers(ids, id) && m in AppendFor(id, n, p) :: m
  }

  function ToCandidate(id: NodeId, n: Node): Node {
    n.(term := n.term + 1, role := Candidate, voted := Some(id), votes := {id})
  }

  /** A new leader's first entry is empty. Commitment is looked at before the replication progress of an earlier leadership is cleared. */
  function ToLeader(ids: set<NodeId>, id: NodeId, n: Node): Node {
    var m := AdvanceCommit(ids, id, n.(role := Leader, log := n.log + [Entry(n.term, [])]));
    m.(next := map p | p in Peers(ids, id) :: |m.log| + 1, matched := map p | p in Peers(ids, id) :: 0)
  }

  function Bumped(n: Node, term: nat): Node {
    n.(term := term, role := Follower, voted := None, incoming := None)
  }

  /** The snapshot waiting to be installed, if it is the current leader's. */
  predicate Waiting(n: Node) {
    n.incoming.Some? && n.incoming.value.term == n.term
  }

  /** A snapshot takes the place of the log up to its index; what the node has past it stays if the two agree there. */
  function Installed(n: Node, i: Incoming): Node {
    var log := if TermAt(n, i.index) == i.lastTerm && i.index <= |n.log| then i.prefix + n.log[i.index..] else i.prefix;
    n.(log := log, base := i.index, commit := Max(n.commit, i.index), applied := i.index, incoming := None)
  }

  predicate Grants(n: Node, term: nat, candidate: NodeId, lastIndex: nat, lastTerm: nat) {
    term == n.term && (n.voted.None? || n.voted == Some(candidate)) && UpToDate(lastTerm, lastIndex, LastLogTerm(n), |n.log|)
  }

  /** Whether the entry before the new ones is the same, as far as the node can tell. */
  predicate Fits(n: Node, prev: nat, prevTerm: nat, entries: Log) {
    prev <= |n.log| && TermAt(n, prev) == prevTerm && (prev < n.base ==> entries == [])
  }

  /** The node after it took the entries; commitment follows the leader up to the end of the node's own log. */
  function Taken(n: Node, prev: nat, entries: Log, leaderCommit: nat): Node
    requires prev <= |n.log|
  {
    var log := Merge(n.log, prev, entries);
    n.(log := log, commit := if leaderCommit > n.commit then Min(leaderCommit, |log|) else n.commit)
  }

  predicate Rewrites(n: Node, prev: nat, entries: Log)
    requires prev <= |n.log|
  {
    var c := Conflict(n.log, prev, entries);
    c.Some? && c.value <= n.commit
  }

  /** A peer has confirmed the log up to `index`. */
  function Confirmed(ids: set<NodeId>, id: NodeId, n: Node, peer: NodeId, index: nat): Node {
    var bounded := Max(Min(index, |n.log|), MatchedAt(n, peer));
    AdvanceCommit(ids, id, n.(matched := n.matched[peer := bounded], next := n.next[peer := bounded + 1]))
  }

  /** A node follows the leader of its term; a snapshot begun by another leader is dropped. */
  function Followed(n: Node): Node {
    n.(role := Follower, incoming := if Waiting(n) then n.incoming else None)
  }

  /** A peer has refused; the next attempt starts earlier. */
  function Retreated(n: Node, peer: NodeId, hint: nat): Node {
    var next := NextFor(n, peer);
    n.(next := n.next[peer := Min(Max(next - 1, 1), hint + 1)])
  }

  function Stamped(term: nat, batch: seq<Bytes>): Log {
    seq(|batch|, i requires 0 <= i < |batch| => Entry(term, batch[i]))
  }

  // ------------------------------------------------------------------ the cluster

  /** What the program does not record but the argument needs; no step reads it. */
  datatype History = History(
    leader: map<nat, NodeId>,                // who won a term
    log: map<nat, Log>,                      // the winner's log, which only grows
    electors: map<nat, set<NodeId>>,         // by whose votes
    ballots: map<(NodeId, nat), Ballot>,     // every vote cast
    level: map<(NodeId, nat), nat>)          // how much of the winner's log a node has confirmed

  /** A vote, with the voter's log at that time. */
  datatype Ballot = Ballot(candidate: NodeId, log: Log)

  datatype State = State(ids: set<NodeId>, nodes: map<NodeId, Node>, msgs: set<Msg>, h: History)

  function Level(h: History, j: NodeId, t: nat): nat {
    if (j, t) in h.level then h.level[(j, t)] else 0
  }

  function Put(s: State, n: NodeId, node: Node, out: set<Msg>): State {
    s.(nodes := s.nodes[n := node], msgs := s.msgs + out)
  }

  function Cast(h: History, n: NodeId, term: nat, b: Ballot): History {
    if (n, term) in h.ballots then h else h.(ballots := h.ballots[(n, term) := b])
  }

  function Stand(s: State, n: NodeId): State
    requires n in s.nodes
  {
    var m := ToCandidate(n, s.nodes[n]);
    Put(s, n, m, {}).(h := Cast(s.h, n, m.term, Ballot(n, m.log)))
  }

  function AskVotes(s: State, n: NodeId): State
    requires n in s.nodes
  {
    var m := s.nodes[n];
    Put(s, n, m, set p | p in Peers(s.ids, n) :: RequestVote(n, p, m.term, |m.log|, LastLogTerm(m)))
  }

  function Win(s: State, n: NodeId): State
    requires n in s.nodes
  {
    var m := ToLeader(s.ids, n, s.nodes[n]);
    Put(s, n, m, {}).(h := s.h.(leader := s.h.leader[m.term := n], log := s.h.log[m.term := m.log],
                                electors := s.h.electors[m.term := m.votes], level := s.h.level[(n, m.term) := |m.log|]))
  }

  function SendAll(s: State, n: NodeId): State
    requires n in s.nodes
  {
    Put(s, n, s.nodes[n], Broadcast(s.ids, n, s.nodes[n]))
  }

  function Send(s: State, n: NodeId, peer: NodeId): State
    requires n in s.nodes
  {
    Put(s, n, s.nodes[n], AppendFor(n, s.nodes[n], peer))
  }

  function Bump(s: State, n: NodeId, term: nat): State
    requires n in s.nodes
  {
    if term > s.nodes[n].term then Put(s, n, Bumped(s.nodes[n], term), {}) else s
  }

  function Vote(s: State, n: NodeId, c: NodeId): State
    requires n in s.nodes
  {
    var m := s.nodes[n].(voted := Some(c));
    Put(s, n, m, {VoteResp(n, c, m.term, true)}).(h := Cast(s.h, n, m.term, Ballot(c, m.log)))
  }

  function Answer(s: State, n: NodeId, m: Msg): State
    requires n in s.nodes
  {
    Put(s, n, s.nodes[n], {m})
  }

  function Tally(s: State, n: NodeId, from: NodeId): State
    requires n in s.nodes
  {
    Put(s, n, s.nodes[n].(votes := s.nodes[n].votes + {from}), {})
  }

  function Follow(s: State, n: NodeId): State
    requires n in s.nodes
  {
    Put(s, n, Followed(s.nodes[n]), {})
  }

  function Take(s: State, n: NodeId, leader: NodeId, prev: nat, entries: Log, leaderCommit: nat): State
    requires n in s.nodes && prev <= |s.nodes[n].log|
  {
    var m, end := Taken(s.nodes[n], prev, entries, leaderCommit), prev + |entries|;
    Put(s, n, m, {AppendResp(n, leader, m.term, true, end)})
      .(h := Raised(s.h, n, m.term, end))
  }

  function Raised(h: History, n: NodeId, t: nat, index: nat): History {
    h.(level := h.level[(n, t) := Max(Level(h, n, t), index)])
  }

  /** The node says that it has everything up to `index`. */
  function Affirm(s: State, n: NodeId, leader: NodeId, index: nat): State
    requires n in s.nodes
  {
    Put(s, n, s.nodes[n].(incoming := None), {SnapshotResp(n, leader, s.nodes[n].term, index)}).(h := Raised(s.h, n, s.nodes[n].term, index))
  }

  function Install(s: State, n: NodeId): State
    requires n in s.nodes && s.nodes[n].incoming.Some?
  {
    var i := s.nodes[n].incoming.value;
    Put(s, n, Installed(s.nodes[n], i), {SnapshotResp(n, i.from, s.nodes[n].term, i.index)}).(h := Raised(s.h, n, s.nodes[n].term, i.index))
  }

  function Extend(s: State, n: NodeId, batch: seq<Bytes>): State
    requires n in s.nodes
  {
    var m := s.nodes[n].(log := s.nodes[n].log + Stamped(s.nodes[n].term, batch));
    Put(s, n, AdvanceCommit(s.ids, n, m), {})
      .(h := s.h.(log := s.h.log[m.term := m.log], level := s.h.level[(n, m.term) := |m.log|]))
  }

  // ------------------------------------------------------------------ events

  datatype Event =
    | Timeout(n: NodeId)
    | Deliver(m: Msg)
    | Propose(n: NodeId, batch: seq<Bytes>)
    | Heartbeat(n: NodeId)
    | Apply(n: NodeId, index: nat)
    | Compact(n: NodeId)
    | Adopt(n: NodeId)
    | Restart(n: NodeId, commit: nat)

  function Actor(e: Event): NodeId {
    if e.Deliver? then e.m.to else e.n
  }

  /** A batch the leader takes from its clients. */
  predicate Proposable(batch: seq<Bytes>) {
    && 1 <= |batch| <= MAX_APPEND_ENTRIES && (forall i :: 0 <= i < |batch| ==> 1 <= |batch[i]| <= MAX_ENTRY_BYTES)
    && EncodedSize(batch) <= MAX_APPEND_BYTES
  }

  function EncodedSize(batch: seq<Bytes>): nat {
    if batch == [] then 0 else 20 + |batch[0]| + EncodedSize(batch[1..])
  }

  /**
   `Compact` replaces the applied part of the log by a snapshot once enough of it has gathered; a snapshot that waits is
   installed, by `Adopt`, before anything past it is compacted.
   */
  predicate Enabled(s: State, e: Event) {
    && Actor(e) in s.ids && s.ids == s.nodes.Keys
    && match e
       case Timeout(n) => !s.nodes[n].failed && s.nodes[n].role != Leader
       case Deliver(m) => !s.nodes[m.to].failed && m in s.msgs && m.from in Peers(s.ids, m.to)
       case Propose(n, batch) =>
         && !s.nodes[n].failed && s.nodes[n].role == Leader && Proposable(batch)
         && |s.nodes[n].log| - s.nodes[n].base + |batch| <= MAX_LOG_ENTRIES
       case Heartbeat(n) => !s.nodes[n].failed && s.nodes[n].role == Leader
       case Apply(n, index) => !s.nodes[n].failed && s.nodes[n].applied < index <= s.nodes[n].commit && index <= |s.nodes[n].log|
       case Compact(n) =>
         && !s.nodes[n].failed && s.nodes[n].applied <= s.nodes[n].commit
         && s.nodes[n].applied - s.nodes[n].base >= SNAPSHOT_LOG_THRESHOLD
         && (Waiting(s.nodes[n]) ==> s.nodes[n].applied < s.nodes[n].incoming.value.index)
       case Adopt(n) => !s.nodes[n].failed && Waiting(s.nodes[n])
       case Restart(n, commit) => s.nodes[n].applied <= commit <= s.nodes[n].commit
  }

  function WonIfQuorum(s: State, n: NodeId): State
    requires n in s.nodes
  {
    if |s.nodes[n].votes| >= Quorum(s.ids) then SendAll(Win(s, n), n) else s
  }

  function OnAppend(s: State, m: Msg): State
    requires m.Append? && m.to in s.nodes
  {
    var n := m.to;
    if m.term < s.nodes[n].term then Answer(s, n, AppendResp(n, m.from, s.nodes[n].term, false, |s.nodes[n].log|))
    else
      var f := Follow(s, n);
      if !Fits(f.nodes[n], m.prev, m.prevTerm, m.entries) then Answer(f, n, AppendResp(n, m.from, f.nodes[n].term, false, |f.nodes[n].log|))
      else if Rewrites(f.nodes[n], m.prev, m.entries) then Put(f, n, f.nodes[n].(failed := true), {})
      else Take(f, n, m.from, m.prev, m.entries, m.leaderCommit)
  }

  function OnAppendResp(s: State, m: Msg): State
    requires m.AppendResp? && m.to in s.nodes
  {
    var n := m.to;
    if s.nodes[n].role != Leader || m.term != s.nodes[n].term then s
    else if m.success then
      var c := Put(s, n, Confirmed(s.ids, n, s.nodes[n], m.from, m.index), {});
      if MatchedAt(c.nodes[n], m.from) < |c.nodes[n].log| then Send(c, n, m.from) else c
    else Send(Put(s, n, Retreated(s.nodes[n], m.from, m.index), {}), n, m.from)
  }

  /** A snapshot from the leader is kept for installation, unless everything in it has been applied. */
  function OnSnapshot(s: State, m: Msg): State
    requires m.Snapshot? && m.to in s.nodes
  {
    var n := m.to;
    if m.term != s.nodes[n].term || m.index == 0 || m.lastTerm == 0 then s
    else
      var f := Follow(s, n);
      if m.index <= f.nodes[n].applied then Affirm(f, n, m.from, m.index)
      else Put(f, n, f.nodes[n].(incoming := Some(Incoming(m.term, m.from, m.index, m.lastTerm, m.prefix))), {})
  }

  function OnSnapshotResp(s: State, m: Msg): State
    requires m.SnapshotResp? && m.to in s.nodes
  {
    var n := m.to;
    if s.nodes[n].role != Leader || m.term != s.nodes[n].term || s.nodes[n].base == 0 || s.nodes[n].base != m.index then s
    else
      var c := Put(s, n, Confirmed(s.ids, n, s.nodes[n], m.from, m.index), {});
      if MatchedAt(c.nodes[n], m.from) < |c.nodes[n].log| then Send(c, n, m.from) else c
  }

  function OnVoteRequest(s: State, m: Msg): State
    requires m.RequestVote? && m.to in s.nodes
  {
    var n := m.to;
    if Grants(s.nodes[n], m.term, m.from, m.lastIndex, m.lastTerm) then Vote(s, n, m.from)
    else Answer(s, n, VoteResp(n, m.from, s.nodes[n].term, false))
  }

  function OnVoteResp(s: State, m: Msg): State
    requires m.VoteResp? && m.to in s.nodes
  {
    var n := m.to;
    if s.nodes[n].role != Candidate || m.term != s.nodes[n].term || !m.granted then s else WonIfQuorum(Tally(s, n, m.from), n)
  }

  function Next(s: State, e: Event): State
    requires Enabled(s, e)
  {
    match e
    case Timeout(n) =>
      var c := Stand(s, n);
      if Quorum(s.ids) == 1 then WonIfQuorum(c, n) else AskVotes(c, n)
    case Deliver(m) =>
      var b := Bump(s, m.to, m.term);
      (match m
       case RequestVote(_, _, _, _, _) => OnVoteRequest(b, m)
       case VoteResp(_, _, _, _) => OnVoteResp(b, m)
       case Append(_, _, _, _, _, _, _) => OnAppend(b, m)
       case AppendResp(_, _, _, _, _) => OnAppendResp(b, m)
       case Snapshot(_, _, _, _, _, _) => OnSnapshot(b, m)
       case SnapshotResp(_, _, _, _) => OnSnapshotResp(b, m))
    case Propose(n, batch) => Extend(s, n, batch)
    case Heartbeat(n) => SendAll(s, n)
    case Apply(n, index) => Put(s, n, s.nodes[n].(applied := index), {})
    case Compact(n) => Put(s, n, s.nodes[n].(base := s.nodes[n].applied), {})
    case Adopt(n) => Install(s, n)
    case Restart(n, commit) =>
      Put(s, n, s.nodes[n].(role := Follower, commit := commit, votes := {}, next := map[], matched := map[], incoming := None, failed := false), {})
  }

  const Fresh := Node(0, None, [], 0, Follower, 0, 0, {}, map[], map[], None, false)

  function Initial(ids: set<NodeId>): State {
    State(ids, map n | n in ids :: Fresh, {}, History(map[], map[], map[], map[], map[]))
  }
}
