/** The three conditions of a sound run, each with the exact extent to which the program's own code meets it. */
module RaftLimits {
  import opened Basics
  import opened Raft
  import opened RaftLogs
  import opened RaftElection
  import opened RaftSafety
  import opened RaftCommit

  // ------------------------------------------------------------------ voters that compacted everything

  /** A voter knows the term of its last entry unless a snapshot has replaced its whole log. */
  lemma HoldsLastIff(n: Node)
    requires n.base <= |n.log| && forall i :: 0 <= i < |n.log| ==> n.log[i].term >= 1
    ensures HoldsLast(n) <==> n.log == [] || n.base < |n.log|
  {
  }

  /** Such a voter supports every candidate with an entry, however far behind. */
  lemma CompactedVoterGrants(n: Node, candidate: NodeId, lastIndex: nat, lastTerm: nat)
    requires n.log != [] && n.base == |n.log| && n.voted.None? && 1 <= lastTerm < LastTerm(n.log)
    ensures Grants(n, n.term, candidate, lastIndex, lastTerm) && !UpToDate(lastTerm, lastIndex, LastTerm(n.log), |n.log|)
  {
  }

  // ------------------------------------------------------------------ commitment past the entries

  /** Logs of the winners of terms as a run can leave them. */
  ghost predicate Record(logs: Logs) {
    forall s :: s in logs ==> 1 <= s && LogOk(logs, logs[s], s)
  }

  /** A follower of the leader of term `t` with log `l`: both logs belong to one record, and what the follower has committed is the leader's. */
  ghost predicate Receiver(logs: Logs, n: Node, l: Log, t: nat, prev: nat, entries: Log) {
    && Record(logs) && t in logs && logs[t] == l && LogOk(logs, n.log, t)
    && n.base <= n.commit <= |n.log| && n.commit <= |l| && n.log[..n.commit] == l[..n.commit]
    && prev <= |l| && Fits(n, prev, TermOf(l, prev), entries) && !Rewrites(n, prev, entries)
  }

  /** After taking the entries, what the node has committed is what its leader's log says. */
  ghost predicate CommitsLeaders(n: Node, l: Log, prev: nat, entries: Log, leaderCommit: nat) {
    && prev <= |n.log|
    && var m := Taken(n, prev, entries, leaderCommit);
       m.commit <= |m.log| && m.commit <= |l| && m.log[..m.commit] == l[..m.commit]
  }

  /** Some leader of an earlier term may have put another entry at position `e + 1`, after the same beginning, and no later entry of `l` is of its term. */
  ghost predicate Open(l: Log, t: nat, e: nat)
    requires e < |l|
  {
    exists v: nat :: OpenFor(l, t, e, v)
  }

  ghost predicate OpenFor(l: Log, t: nat, e: nat, v: nat)
    requires e < |l|
  {
    1 <= v < t && TermOf(l, e) <= v && v != l[e].term && forall k :: e < k < |l| ==> l[k].term != v
  }

  /** Two logs of one record that agree up to an entry differ in it only if it is open. */
  lemma DiffersOnlyIfOpen(logs: Logs, f: Log, l: Log, t: nat, e: nat)
    requires t in logs && logs[t] == l && LogOk(logs, l, t) && LogOk(logs, f, t)
    requires e < |f| && e < |l| && f[..e] == l[..e] && f[e] != l[e]
    ensures Open(l, t, e)
  {
    var v := f[e].term;
    assert EntryOk(logs, f, e, t) && EntryOk(logs, l, e, t);
    assert f[..e + 1][e] == f[e] && l[..e + 1][e] == l[e];
    assert logs[v][..e + 1][e] == logs[v][e];
    assert e > 0 ==> f[..e][e - 1] == l[..e][e - 1];
    forall k | e < k < |l|
      ensures l[k].term != v
    {
      assert EntryOk(logs, l, k, t);
      assert l[..k + 1][e] == l[e] && logs[l[k].term][..k + 1][e] == logs[l[k].term][e];
    }
    assert OpenFor(l, t, e, v);
  }

  lemma {:induction false} ClosedAgree(logs: Logs, f: Log, l: Log, t: nat, end: nat, c: nat)
    requires t in logs && logs[t] == l && LogOk(logs, l, t) && LogOk(logs, f, t)
    requires end <= c <= |f| && c <= |l| && f[..end] == l[..end] && forall e :: end <= e < c ==> !Open(l, t, e)
    ensures f[..c] == l[..c]
    decreases c - end
  {
    hide LogOk, Open;
    if end < c {
      if f[end] != l[end] {
        DiffersOnlyIfOpen(logs, f, l, t, end);
      }
      NextAgrees(f, l, end);
      ClosedAgree(logs, f, l, t, end + 1, c);
    }
  }

  lemma AgreesBefore(logs: Logs, n: Node, l: Log, t: nat, prev: nat, entries: Log)
    requires Receiver(logs, n, l, t, prev, entries)
    ensures prev <= |n.log| && n.log[..prev] == l[..prev]
  {
    hide LogOk, Rewrites;
    if prev < n.base {
      assert n.log[..n.commit][..prev] == n.log[..prev] && l[..n.commit][..prev] == l[..prev];
    } else {
      SharedPrefix(logs, n.log, t, l, t, prev);
    }
  }

  /** If every entry past the end of the message, up to the commitment announced, is closed, the follower commits what the leader has. */
  lemma ClosedIsSafe(logs: Logs, n: Node, l: Log, t: nat, prev: nat, entries: Log, leaderCommit: nat)
    requires Receiver(logs, n, l, t, prev, entries) && prev + |entries| <= |l| && entries == l[prev..prev + |entries|] && leaderCommit <= |l|
    requires forall e :: prev + |entries| <= e < leaderCommit ==> !Open(l, t, e)
    ensures CommitsLeaders(n, l, prev, entries, leaderCommit)
  {
    hide LogOk, Open;
    AgreesBefore(logs, n, l, t, prev, entries);
    MergedWithLeader(n.log, prev, entries, l);
    var r, end, c := Merge(n.log, prev, entries), prev + |entries|, Conflict(n.log, prev, entries);
    var goal := Min(leaderCommit, |r|);
    if leaderCommit <= n.commit {
      KeepsCommitted(n, l, r, end, c);
    } else if goal <= end {
      assert r[..end][..goal] == r[..goal] && l[..end][..goal] == l[..goal];
    } else {
      ClosedAgree(logs, r, l, t, end, goal);
    }
  }

  lemma KeepsCommitted(n: Node, l: Log, r: Log, end: nat, c: Option<nat>)
    requires n.commit <= |n.log| && n.commit <= |l| && n.log[..n.commit] == l[..n.commit]
    requires c.None? ==> Prefix(n.log, r)
    requires c.Some? ==> n.commit < c.value <= |n.log| && c.value <= |r| && r[..c.value - 1] == n.log[..c.value - 1]
    ensures n.commit <= |r| && r[..n.commit] == l[..n.commit]
  {
    if c.Some? {
      assert r[..c.value - 1][..n.commit] == r[..n.commit] && n.log[..c.value - 1][..n.commit] == n.log[..n.commit];
    } else {
      assert r[..|n.log|][..n.commit] == r[..n.commit];
    }
  }

  /** The part of a sorted log up to a term. */
  function UpTo(l: Log, s: nat): (r: Log)
    ensures Prefix(r, l)
    ensures Sorted(l) ==> forall i :: 0 <= i < |l| ==> (i < |r| <==> l[i].term <= s)
  {
    if l == [] || l[|l| - 1].term <= s then l else UpTo(l[..|l| - 1], s)
  }

  /** The leader of term `v` wrote an entry of its own after the first `e`; all others wrote what is in `l`. */
  function Forked(l: Log, t: nat, e: nat, v: nat): Logs
    requires e < |l|
  {
    map s: nat | 1 <= s <= t :: if s == v then Rival(l, e, v) else UpTo(l, s)
  }

  function Rival(l: Log, e: nat, v: nat): Log
    requires e < |l|
  {
    l[..e] + [Entry(v, [])]
  }

  /** A log that follows `l` as far as the fork allows is good. */
  lemma ForkedOk(l: Log, t: nat, e: nat, v: nat, f: Log, s: nat)
    requires Sorted(l) && e < |l| && OpenFor(l, t, e, v) && (forall i :: 0 <= i < |l| ==> 1 <= l[i].term <= t) && s <= t
    requires (f == Rival(l, e, v) && v <= s) || (Prefix(f, l) && forall i :: 0 <= i < |f| ==> f[i].term <= s)
    ensures LogOk(Forked(l, t, e, v), f, s)
  {
    hide UpTo;
    var logs := Forked(l, t, e, v);
    var forked := f == Rival(l, e, v) && v <= s;
    assert forall i :: 0 <= i < |f| && !(forked && i == e) ==> f[i] == l[i];
    assert forked && e > 0 ==> l[e - 1].term <= v;
    forall i | 0 <= i < |f|
      ensures EntryOk(logs, f, i, s)
    {
      var u := f[i].term;
      if u == v {
        assert f[..i + 1] == Rival(l, e, v)[..i + 1];
      } else {
        assert i < |UpTo(l, u)|;
        assert f[..i + 1] == l[..i + 1] && UpTo(l, u)[..i + 1] == l[..|UpTo(l, u)|][..i + 1];
      }
    }
  }

  /** Where an entry is open, a record and a follower exist that the message makes commit another one. */
  lemma OpenFails(l: Log, t: nat, prev: nat, entries: Log, leaderCommit: nat, e: nat, v: nat) returns (logs: Logs, n: Node)
    requires Sorted(l) && (forall i :: 0 <= i < |l| ==> 1 <= l[i].term <= t)
    requires prev + |entries| <= e < leaderCommit <= |l| && entries == l[prev..prev + |entries|] && OpenFor(l, t, e, v)
    ensures Receiver(logs, n, l, t, prev, entries) && !CommitsLeaders(n, l, prev, entries, leaderCommit)
  {
    hide LogOk;
    logs := Forked(l, t, e, v);
    n := Fresh.(term := t, log := Rival(l, e, v));
    RecordForked(l, t, e, v);
    ForkedOk(l, t, e, v, n.log, t);
    assert UpTo(l, t) == l;
    RivalStays(l, e, v, prev, entries);
    assert n.log[..e + 1][e] != l[..e + 1][e];
    assert prev > 0 ==> n.log[prev - 1] == l[prev - 1];
  }

  lemma RecordForked(l: Log, t: nat, e: nat, v: nat)
    requires Sorted(l) && (forall i :: 0 <= i < |l| ==> 1 <= l[i].term <= t) && e < |l| && OpenFor(l, t, e, v)
    ensures Record(Forked(l, t, e, v))
  {
    hide LogOk;
    var logs := Forked(l, t, e, v);
    forall s | s in logs
      ensures 1 <= s && LogOk(logs, logs[s], s)
    {
      ForkedOk(l, t, e, v, logs[s], s);
    }
  }

  lemma RivalStays(l: Log, e: nat, v: nat, prev: nat, entries: Log)
    requires e < |l| && prev + |entries| <= e && entries == l[prev..prev + |entries|] && l[e].term != v
    ensures Merge(Rival(l, e, v), prev, entries) == Rival(l, e, v) && Conflict(Rival(l, e, v), prev, entries).None?
  {
    var f, end := Rival(l, e, v), prev + |entries|;
    assert f[..prev] == l[..prev] && f[..end] == l[..end];
    MergedWithLeader(f, prev, entries, l);
  }

  /**
   A message is safe for every follower of every record exactly when each entry between its end and the commitment
   it announces is closed: no earlier leader can have written another entry there.
   */
  lemma AppendIsSafeIff(l: Log, t: nat, prev: nat, entries: Log, leaderCommit: nat)
    requires Sorted(l) && (forall i :: 0 <= i < |l| ==> 1 <= l[i].term <= t)
    requires prev + |entries| <= |l| && entries == l[prev..prev + |entries|] && leaderCommit <= |l|
    ensures (forall logs, n :: Receiver(logs, n, l, t, prev, entries) ==> CommitsLeaders(n, l, prev, entries, leaderCommit))
       <==> forall e :: prev + |entries| <= e < leaderCommit ==> !Open(l, t, e)
  {
    hide Receiver, CommitsLeaders, OpenFor;
    if e :| prev + |entries| <= e < leaderCommit && Open(l, t, e) {
      var v: nat :| OpenFor(l, t, e, v);
      var logs, n := OpenFails(l, t, prev, entries, leaderCommit, e, v);
    } else {
      forall logs, n | Receiver(logs, n, l, t, prev, entries)
        ensures CommitsLeaders(n, l, prev, entries, leaderCommit)
      {
        ClosedIsSafe(logs, n, l, t, prev, entries, leaderCommit);
      }
    }
  }

  // ------------------------------------------------------------------ progress left over from an earlier leadership

  /** A new leader commits its first entry on the spot exactly when old progress makes up a majority. */
  lemma WinCommitsIff(ids: set<NodeId>, id: NodeId, n: Node)
    requires n.commit <= |n.log| && n.base <= |n.log| && n.term >= 1
    requires forall i :: 0 <= i < |n.log| ==> n.log[i].term != n.term
    ensures ToLeader(ids, id, n).commit == |n.log| + 1 <==> Replicated(ids, id, n, |n.log| + 1)
    ensures !Replicated(ids, id, n, |n.log| + 1) ==> ToLeader(ids, id, n).commit == n.commit
  {
    hide Replicated;
    var m := n.(role := Leader, log := n.log + [Entry(n.term, [])]);
    SameProgress(ids, id, n, m, |m.log|);
    if !Replicated(ids, id, n, |n.log| + 1) {
      CommitStays(ids, id, m, |n.log|);
    }
  }

  // ------------------------------------------------------------------ the loops of the program

  /** Takes entries one by one, as the program does: skips what agrees, cuts off a conflict, and stops at a committed one. */
  method MergeEntries(n: Node, prev: nat, entries: Log) returns (log: Log, failed: bool)
    requires prev <= |n.log|
    ensures failed <==> Rewrites(n, prev, entries)
    ensures !failed ==> log == Merge(n.log, prev, entries)
  {
    log, failed := n.log, false;
    assert entries[0..] == entries;
    for k := 0 to |entries|
      invariant prev + k <= |log| && Merge(log, prev + k, entries[k..]) == Merge(n.log, prev, entries)
      invariant || (log == n.log && Conflict(n.log, prev + k, entries[k..]) == Conflict(n.log, prev, entries))
                || (|log| == prev + k && !Rewrites(n, prev, entries))
    {
      var pos, rest := prev + k, entries[k..];
      assert rest[0] == entries[k] && rest[1..] == entries[k + 1..];
      if pos < |log| {
        if log[pos] != entries[k] {
          if pos + 1 <= n.commit {
            return log, true;
          }
          var cut := log[..pos] + [entries[k]];
          assert cut + rest[1..] == log[..pos] + rest;
          log := cut;
        }
      } else {
        assert (log + [entries[k]]) + rest[1..] == log + rest;
        log := log + [entries[k]];
      }
      assert rest[1..] == [] ==> log + [] == log;
    }
    assert entries[|entries|..] == [];
  }

  /** Looks for the highest position to commit from the end of the log down. */
  method FindCommit(ids: set<NodeId>, id: NodeId, n: Node) returns (commit: nat)
    requires n.commit <= |n.log|
    ensures commit == AdvanceCommit(ids, id, n).commit
  {
    hide Replicated;
    var i := |n.log|;
    while i > n.commit
      invariant n.commit <= i <= |n.log| && CommitFrom(ids, id, n, i) == CommitFrom(ids, id, n, |n.log|)
    {
      if TermAt(n, i) == n.term && Replicated(ids, id, n, i) {
        return i;
      }
      i := i - 1;
    }
    return n.commit;
  }
}
