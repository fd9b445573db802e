/** Elections and logs: one leader per term, and logs that agree up to any entry they share. */
module RaftLogs {
  import opened Basics
  import opened Raft

  type Logs = map<nat, Log>

  // ------------------------------------------------------------------ logs and the winners' logs

  ghost predicate Prefix(a: Log, b: Log) {
    |a| <= |b| && b[..|a|] == a
  }

  /** Up to an entry of term `s`, a log is the log of the leader of term `s`. */
  ghost predicate EntryOk(logs: Logs, log: Log, i: nat, t: nat)
    requires i < |log|
  {
    var s := log[i].term;
    1 <= s <= t && s in logs && i < |logs[s]| && log[..i + 1] == logs[s][..i + 1]
  }

  ghost predicate Sorted(log: Log) {
    forall i, j :: 0 <= i < j < |log| ==> log[i].term <= log[j].term
  }

  ghost predicate LogOk(logs: Logs, log: Log, t: nat) {
    Sorted(log) && forall i :: 0 <= i < |log| ==> EntryOk(logs, log, i, t)
  }

  ghost predicate Grows(logs: Logs, logs': Logs) {
    forall s :: s in logs ==> s in logs' && Prefix(logs[s], logs'[s])
  }

  lemma LogOkGrows(logs: Logs, logs': Logs, log: Log, t: nat, t': nat)
    requires LogOk(logs, log, t) && Grows(logs, logs') && t <= t'
    ensures LogOk(logs', log, t')
  {
    forall i | 0 <= i < |log|
      ensures EntryOk(logs', log, i, t')
    {
      assert EntryOk(logs, log, i, t);
      var a, b := logs[log[i].term], logs'[log[i].term];
      assert b[..|a|][..i + 1] == b[..i + 1];
    }
  }

  lemma LogOkPrefix(logs: Logs, log: Log, t: nat, n: nat)
    requires LogOk(logs, log, t) && n <= |log|
    ensures LogOk(logs, log[..n], t)
  {
    forall i | 0 <= i < n
      ensures EntryOk(logs, log[..n], i, t)
    {
      assert EntryOk(logs, log, i, t);
      assert log[..n][..i + 1] == log[..i + 1];
    }
  }

  /** Two good logs with the same term at a position agree up to it. */
  lemma SharedPrefix(logs: Logs, a: Log, ta: nat, b: Log, tb: nat, n: nat)
    requires LogOk(logs, a, ta) && LogOk(logs, b, tb) && n <= |a| && n <= |b| && TermOf(a, n) == TermOf(b, n)
    ensures a[..n] == b[..n]
  {
    if n > 0 {
      assert EntryOk(logs, a, n - 1, ta) && EntryOk(logs, b, n - 1, tb);
    }
  }

  /** A leader's log with entries of its own term put at the end. */
  lemma LogOkExtended(logs: Logs, log: Log, t: nat, more: Log)
    requires LogOk(logs, log, t) && t >= 1 && (forall i :: 0 <= i < |more| ==> more[i].term == t)
    requires t in logs ==> logs[t] == log
    ensures Grows(logs, logs[t := log + more]) && LogOk(logs[t := log + more], log + more, t)
  {
    var all := log + more;
    var logs' := logs[t := all];
    LogOkGrows(logs, logs', log, t, t);
    forall i | 0 <= i < |all|
      ensures EntryOk(logs', all, i, t)
    {
      if i < |log| {
        assert EntryOk(logs', log, i, t);
        assert all[..i + 1] == log[..i + 1];
      } else {
        assert all[i] == more[i - |log|];
      }
    }
    forall i, j | 0 <= i < j < |all|
      ensures all[i].term <= all[j].term
    {
      if j >= |log| {
        assert all[j] == more[j - |log|];
        assert i < |log| ==> EntryOk(logs, log, i, t);
      }
    }
  }

  // ------------------------------------------------------------------ merging

  /** `r` is the leader's log up to `end`, or the log unchanged; `c` is where the two first differed. */
  ghost predicate MergedAs(log: Log, end: nat, leader: Log, r: Log, c: Option<nat>) {
    && end <= |r| && end <= |leader| && r[..end] == leader[..end] && (r == leader[..end] || r == log)
    && (c.None? ==> Prefix(log, r))
    && (c.Some? ==> r == leader[..end] && 0 < c.value <= |log| && c.value <= end && r[..c.value - 1] == log[..c.value - 1] && r[c.value - 1] != log[c.value - 1])
  }

  /** Entries of a leader's log, put into a log that agrees just before them, give that leader's log up to their end, or change nothing. */
  lemma MergedWithLeader(log: Log, prev: nat, entries: Log, leader: Log)
    requires prev <= |log| && prev + |entries| <= |leader| && entries == leader[prev..prev + |entries|]
    requires log[..prev] == leader[..prev]
    ensures
      var r, end := Merge(log, prev, entries), prev + |entries|;
      && end <= |r| && r[..end] == leader[..end]
      && (r == leader[..end] || r == log)
      && (Conflict(log, prev, entries).None? ==> Prefix(log, r))
      && (Conflict(log, prev, entries).Some? ==>
            var k := Conflict(log, prev, entries).value;
            r == leader[..end] && 0 < k <= |log| && k <= end && r[..k - 1] == log[..k - 1] && r[k - 1] != log[k - 1])
  {
    hide Merge, Conflict;
    Merging(log, prev, entries, leader);
  }

  lemma {:induction false} Merging(log: Log, prev: nat, entries: Log, leader: Log)
    requires prev <= |log| && prev + |entries| <= |leader| && entries == leader[prev..prev + |entries|]
    requires log[..prev] == leader[..prev]
    ensures MergedAs(log, prev + |entries|, leader, Merge(log, prev, entries), Conflict(log, prev, entries))
    decreases |entries|
  {
    hide MergedAs;
    if entries == [] {
      Unchanged(log, prev, leader);
    } else if prev == |log| {
      Appended(log, entries, leader);
    } else if log[prev] != entries[0] {
      Replaced(log, prev, entries, leader);
    } else {
      NextAgrees(log, leader, prev);
      assert entries[0] == leader[prev] && entries[1..] == leader[prev + 1..prev + |entries|];
      Merging(log, prev + 1, entries[1..], leader);
    }
  }

  lemma Unchanged(log: Log, prev: nat, leader: Log)
    requires prev <= |log| && prev <= |leader| && log[..prev] == leader[..prev]
    ensures MergedAs(log, prev, leader, log, None)
  {
    assert log[..|log|] == log;
  }

  lemma Appended(log: Log, entries: Log, leader: Log)
    requires |log| + |entries| <= |leader| && entries == leader[|log|..|log| + |entries|] && log[..|log|] == leader[..|log|]
    ensures MergedAs(log, |log| + |entries|, leader, log + entries, None)
  {
    assert log[..|log|] == log;
    SegmentJoins(leader, |log|, entries);
    assert (log + entries)[..|log|] == log;
  }

  lemma Replaced(log: Log, prev: nat, entries: Log, leader: Log)
    requires prev < |log| && entries != [] && prev + |entries| <= |leader| && entries == leader[prev..prev + |entries|]
    requires log[..prev] == leader[..prev] && log[prev] != entries[0]
    ensures MergedAs(log, prev + |entries|, leader, log[..prev] + entries, Some(prev + 1))
  {
    SegmentJoins(leader, prev, entries);
  }

  lemma SegmentJoins(leader: Log, prev: nat, entries: Log)
    requires prev + |entries| <= |leader| && entries == leader[prev..prev + |entries|]
    ensures leader[..prev] + entries == leader[..prev + |entries|]
  {
  }

  lemma NextAgrees(a: Log, b: Log, n: nat)
    requires n < |a| && n < |b| && a[..n] == b[..n] && a[n] == b[n]
    ensures a[..n + 1] == b[..n + 1]
  {
    assert a[..n + 1] == a[..n] + [a[n]] && b[..n + 1] == b[..n] + [b[n]];
  }
}
