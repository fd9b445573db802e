/**
 The rotating address search of both pools. Starting at a cursor it probes a bounded number of
 consecutive addresses, wrapping at the range end; the bound is the index size plus one.
 */
module RotatingSearch {
  import opened Basics

  function Successor(start: int, end: int, candidate: int): (next: int)
    requires start <= candidate <= end
    ensures start <= next <= end
  {
    if candidate == end then start else candidate + 1
  }

  function From(start: int, end: int, cursor: int): (candidate: int)
    requires start <= end
    ensures start <= candidate <= end
  {
    if start <= cursor <= end then cursor else start
  }

  /** The walk from `first` to `candidate`, around the range end if `wrapped`, has passed `x`. */
  ghost predicate Passed(first: int, candidate: int, wrapped: bool, x: int) {
    if wrapped then first <= x || x < candidate else first <= x < candidate
  }

  ghost function Probed(start: int, end: int, first: int, candidate: int, wrapped: bool): set<int> {
    set x: int | start <= x <= end && Passed(first, candidate, wrapped, x)
  }

  /** `n` different addresses have been probed, all of them occupied. */
  ghost predicate Searching(start: int, end: int, first: int, candidate: int, wrapped: bool, occupied: set<int>, n: int) {
    && start <= first <= end && start <= candidate <= end
    && (if wrapped then candidate <= first else first <= candidate)
    && n == (if wrapped then end - first + 1 + candidate - start else candidate - first)
    && Probed(start, end, first, candidate, wrapped) <= occupied
    && |Probed(start, end, first, candidate, wrapped)| == n
  }

  lemma ProbeStep(start: int, end: int, first: int, candidate: int, wrapped: bool, occupied: set<int>, n: int)
    requires Searching(start, end, first, candidate, wrapped, occupied, n)
    requires candidate in occupied && n <= end - start
    ensures Searching(start, end, first, Successor(start, end, candidate), wrapped || candidate == end, occupied, n + 1)
  {
    var probed := Probed(start, end, first, candidate, wrapped);
    assert candidate !in probed;
    assert Probed(start, end, first, Successor(start, end, candidate), wrapped || candidate == end) == probed + {candidate};
  }

  /** More probes than occupied addresses cannot all fail. */
  lemma Pigeonhole(start: int, end: int, first: int, candidate: int, wrapped: bool, occupied: set<int>, n: int)
    requires Searching(start, end, first, candidate, wrapped, occupied, n)
    ensures n <= |occupied|
  {
    SubsetSize(Probed(start, end, first, candidate, wrapped), occupied);
  }

  /** Probing as many addresses as the range has covers it. */
  lemma Covered(start: int, end: int, first: int, candidate: int, wrapped: bool, occupied: set<int>, n: int)
    requires Searching(start, end, first, candidate, wrapped, occupied, n) && n == end - start + 1
    ensures forall ip: int :: start <= ip <= end ==> ip in occupied
  {
    forall ip: int | start <= ip <= end
      ensures ip in occupied
    {
      assert ip in Probed(start, end, first, candidate, wrapped);
    }
  }

  /** What a search promises: a free in-range address, or none only when the whole range is occupied. */
  ghost predicate Finds(start: int, end: int, occupied: set<int>, picked: Option<int>) {
    match picked
    case Some(ip) => start <= ip <= end && ip !in occupied
    case None => forall ip: int :: start <= ip <= end ==> ip in occupied
  }

  /** The DHCPv4 form: the number of probes is the smaller of the range and the index size plus one. */
  method PickBounded(start: int, end: int, cursor: int, occupied: set<int>) returns (picked: Option<int>, cursor': int)
    ensures Finds(start, end, occupied, picked)
    ensures start <= end ==> start <= cursor' <= end
    ensures start > end ==> cursor' == cursor
  {
    if start > end {
      return None, cursor;
    }
    var probes := Min(end - start + 1, |occupied| + 1);
    var candidate := From(start, end, cursor);
    ghost var first, wrapped := candidate, false;
    for n := 0 to probes
      invariant Searching(start, end, first, candidate, wrapped, occupied, n)
    {
      var next := Successor(start, end, candidate);
      if candidate !in occupied {
        return Some(candidate), next;
      }
      ProbeStep(start, end, first, candidate, wrapped, occupied, n);
      wrapped := wrapped || candidate == end;
      candidate := next;
    }
    Pigeonhole(start, end, first, candidate, wrapped, occupied, probes);
    Covered(start, end, first, candidate, wrapped, occupied, probes);
    return None, candidate;
  }

  /** The DHCPv6 form: index size plus one probes, stopping early when the walk is back where it began. */
  method PickRound(start: int, end: int, cursor: int, occupied: set<int>) returns (picked: Option<int>, cursor': int)
    ensures Finds(start, end, occupied, picked)
    ensures picked.Some? ==> start <= cursor' <= end
    ensures picked.None? ==> cursor' == cursor
  {
    if start > end {
      return None, cursor;
    }
    var candidate := From(start, end, cursor);
    var initial := candidate;
    ghost var wrapped := false;
    for n := 0 to |occupied| + 1
      invariant Searching(start, end, initial, candidate, wrapped, occupied, n)
      invariant n <= end - start && (wrapped ==> candidate < initial)
    {
      var next := Successor(start, end, candidate);
      if candidate !in occupied {
        return Some(candidate), next;
      }
      ProbeStep(start, end, initial, candidate, wrapped, occupied, n);
      wrapped := wrapped || candidate == end;
      candidate := next;
      if candidate == initial {
        Covered(start, end, initial, candidate, wrapped, occupied, n + 1);
        return None, cursor;
      }
    }
    Pigeonhole(start, end, initial, candidate, wrapped, occupied, |occupied| + 1);
    assert false;
  }
}
