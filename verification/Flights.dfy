/**
 Merging of identical in-flight resolutions, as a machine of atomic steps: what one thread does
 under one lock, one atomic access or one condition-variable call is one step, and any thread
 may take the next one.
 */
module Flights {
  import opened Basics

  const MAX_CLIENT_FLIGHTS := 4096

  type Key = Bytes
  type Thread = nat
  type FlightId = nat
  type CallId = nat

  datatype Answer = Response(message: Bytes) | Failure(rcode: Option<u16>)

  /** A resolution in progress. `owner` is the call that created it; the program stores only its thread. */
  datatype Flight = Flight(key: Key, leaderThread: Thread, owner: CallId, result: Option<Answer>, waiters: nat)

  /** Where one call of the resolver stands. */
  datatype Phase =
    | Leading(f: FlightId)             // resolving upstream; its guard is armed
    | Stored(f: FlightId)              // result stored, waiter count not yet read
    | Notifying(f: FlightId)           // saw waiters, notification still to come
    | Removing(f: FlightId)            // completion done, table entry still there
    | Finished(f: FlightId)            // guard disarmed
    | Checking(f: FlightId)            // follower about to look at the result
    | Parked(f: FlightId)              // follower asleep on the condition variable
    | Answered(f: FlightId, r: Answer)
    | TimedOut(f: FlightId)
    | Bypassing                        // resolves without merging
    | Gone

  datatype Call = Call(thread: Thread, key: Key, phase: Phase)

  datatype State = State(table: map<Key, FlightId>, flights: seq<Flight>, calls: seq<Call>) {

    /** The call on top of its thread's stack: the only one of that thread that can step. */
    predicate Runs(c: CallId)
      requires c < |calls|
    {
      forall d :: c < d < |calls| && calls[d].thread == calls[c].thread ==> calls[d].phase == Gone
    }

    /** A thread may start a call when idle, or from inside the upstream resolution of its newest call. */
    predicate MayBegin(t: Thread) {
      forall c :: 0 <= c < |calls| && calls[c].thread == t && Runs(c) ==> calls[c].phase.Leading? || calls[c].phase.Bypassing? || calls[c].phase.Gone?
    }

    function To(c: CallId, p: Phase): State
      requires c < |calls|
    {
      this.(calls := calls[c := calls[c].(phase := p)])
    }
  }

  const Empty := State(map[], [], [])

  // ------------------------------------------------------------------ steps

  datatype Step =
    | Begin(t: Thread, k: Key)
    | Store(c: CallId, r: Answer)
    | LoadWaiters(c: CallId)
    | NotifyAll(c: CallId)
    | Remove(c: CallId)
    | Park(c: CallId)
    | Wake(c: CallId)
    | TakeResult(c: CallId)
    | GiveUp(c: CallId)
    | Return(c: CallId)

  /** Under the table lock: follow the flight of this key, or lead a new one, or do neither. */
  function Acquire(s: State, t: Thread, k: Key): State
    requires k in s.table ==> s.table[k] < |s.flights|
  {
    if k in s.table then
      var f := s.table[k];
      if s.flights[f].leaderThread == t then s.(calls := s.calls + [Call(t, k, Bypassing)])
      else s.(flights := s.flights[f := s.flights[f].(waiters := s.flights[f].waiters + 1)],
              calls := s.calls + [Call(t, k, Checking(f))])
    else if |s.table| >= MAX_CLIENT_FLIGHTS then s.(calls := s.calls + [Call(t, k, Bypassing)])
    else
      State(s.table[k := |s.flights|], s.flights + [Flight(k, t, |s.calls|, None, 0)],
            s.calls + [Call(t, k, Leading(|s.flights|))])
  }

  /** Every follower asleep on `f` wakes. */
  function Woken(calls: seq<Call>, f: FlightId): seq<Call> {
    seq(|calls|, i requires 0 <= i < |calls| => if calls[i].phase == Parked(f) then calls[i].(phase := Checking(f)) else calls[i])
  }

  function StepCall(step: Step): CallId
    requires !step.Begin?
  {
    step.c
  }

  predicate Enabled(s: State, step: Step) {
    match step
    case Begin(t, k) => s.MayBegin(t) && (k in s.table ==> s.table[k] < |s.flights|)
    case _ =>
      var c := StepCall(step);
      c < |s.calls| && s.Runs(c) && AllowedIn(s, step, s.calls[c].phase)
  }

  predicate AllowedIn(s: State, step: Step, p: Phase) {
    match step
    case Begin(_, _) => false
    case Store(_, _) => p.Leading? && p.f < |s.flights|
    case LoadWaiters(_) => p.Stored? && p.f < |s.flights|
    case NotifyAll(_) => p.Notifying?
    case Remove(_) => p.Removing?
    case Park(_) => p.Checking? && p.f < |s.flights| && s.flights[p.f].result.None?
    case Wake(_) => p.Parked?
    case TakeResult(_) => p.Checking? && p.f < |s.flights| && s.flights[p.f].result.Some?
    case GiveUp(_) => p.Checking? && p.f < |s.flights| && s.flights[p.f].result.None?
    case Return(_) => p.Finished? || p.Answered? || p.TimedOut? || p.Bypassing?
  }

  /**
   `Store` is the first half of completion, both from a normal finish and from a guard dropped early,
   which stores a failure. `Wake` is a timeout or a spurious wake-up. `GiveUp` is an expired deadline.
   */
  function Next(s: State, step: Step): State
    requires Enabled(s, step)
  {
    match step
    case Begin(t, k) => Acquire(s, t, k)
    case Store(c, r) =>
      var f := s.calls[c].phase.f;
      s.(flights := s.flights[f := s.flights[f].(result := Some(r))]).To(c, Stored(f))
    case LoadWaiters(c) =>
      var f := s.calls[c].phase.f;
      s.To(c, if s.flights[f].waiters > 0 then Notifying(f) else Removing(f))
    case NotifyAll(c) =>
      var f := s.calls[c].phase.f;
      s.(calls := Woken(s.calls, f)).To(c, Removing(f))
    case Remove(c) => s.(table := s.table - {s.calls[c].key}).To(c, Finished(s.calls[c].phase.f))
    case Park(c) => s.To(c, Parked(s.calls[c].phase.f))
    case Wake(c) => s.To(c, Checking(s.calls[c].phase.f))
    case TakeResult(c) => s.To(c, Answered(s.calls[c].phase.f, s.flights[s.calls[c].phase.f].result.value))
    case GiveUp(c) => s.To(c, TimedOut(s.calls[c].phase.f))
    case Return(c) => s.To(c, Gone)
  }

  // ------------------------------------------------------------------ invariant

  predicate Leads(p: Phase, f: FlightId) {
    p == Leading(f) || p == Stored(f) || p == Notifying(f) || p == Removing(f)
  }

  /** The notification of `f` is still to come. */
  predicate WillNotify(p: Phase, f: FlightId) {
    p == Leading(f) || p == Stored(f) || p == Notifying(f)
  }

  /** A table entry is a flight of that key whose owner is still leading it. */
  ghost predicate EntryOk(s: State, k: Key, f: FlightId) {
    f < |s.flights| && s.flights[f].key == k && s.flights[f].owner < |s.calls| && Leads(s.calls[s.flights[f].owner].phase, f)
  }

  ghost predicate FlightOk(s: State, f: FlightId)
    requires f < |s.flights|
  {
    var g := s.flights[f];
    && g.owner < |s.calls|
    && s.calls[g.owner].thread == g.leaderThread && s.calls[g.owner].key == g.key
    && (Leads(s.calls[g.owner].phase, f) || s.calls[g.owner].phase == Finished(f) || s.calls[g.owner].phase == Gone)
    && (g.result.None? <==> s.calls[g.owner].phase == Leading(f))
  }

  /** A follower of `f`: same key, another thread, and counted. */
  ghost predicate Follows(s: State, c: CallId, f: FlightId)
    requires c < |s.calls|
  {
    && f < |s.flights| && s.flights[f].key == s.calls[c].key
    && s.flights[f].leaderThread != s.calls[c].thread && s.flights[f].waiters > 0
  }

  ghost predicate CallOk(s: State, c: CallId)
    requires c < |s.calls|
  {
    var call := s.calls[c];
    match call.phase
    case Leading(f) => OwnsEntry(s, c, f)
    case Stored(f) => OwnsEntry(s, c, f)
    case Notifying(f) => OwnsEntry(s, c, f)
    case Removing(f) => OwnsEntry(s, c, f)
    case Finished(f) => f < |s.flights| && s.flights[f].owner == c
    case Checking(f) => Follows(s, c, f)
    case Parked(f) => Follows(s, c, f) && s.flights[f].owner < |s.calls| && WillNotify(s.calls[s.flights[f].owner].phase, f)
    case Answered(f, r) => f < |s.flights| && s.flights[f].key == call.key && s.flights[f].result == Some(r)
    case TimedOut(f) => f < |s.flights|
    case Bypassing => true
    case Gone => true
  }

  ghost predicate OwnsEntry(s: State, c: CallId, f: FlightId)
    requires c < |s.calls|
  {
    && f < |s.flights| && s.flights[f].owner == c && s.flights[f].key == s.calls[c].key
    && s.calls[c].key in s.table && s.table[s.calls[c].key] == f
  }

  ghost predicate Inv(s: State) {
    && |s.table| <= MAX_CLIENT_FLIGHTS
    && (forall k :: k in s.table ==> EntryOk(s, k, s.table[k]))
    && (forall f :: 0 <= f < |s.flights| ==> FlightOk(s, f))
    && (forall c :: 0 <= c < |s.calls| ==> CallOk(s, c))
  }

  // ------------------------------------------------------------------ every step keeps it

  lemma FollowKeeps(s: State, t: Thread, k: Key)
    requires Inv(s) && k in s.table && s.table[k] < |s.flights| && s.flights[s.table[k]].leaderThread != t
    ensures
      var f := s.table[k];
      Inv(s.(flights := s.flights[f := s.flights[f].(waiters := s.flights[f].waiters + 1)], calls := s.calls + [Call(t, k, Checking(f))]))
  {
    hide Leads, WillNotify;
    var f := s.table[k];
    assert EntryOk(s, k, f);
    var s' := s.(flights := s.flights[f := s.flights[f].(waiters := s.flights[f].waiters + 1)], calls := s.calls + [Call(t, k, Checking(f))]);
    forall c | 0 <= c < |s'.calls|
      ensures CallOk(s', c)
    {
      assert c < |s.calls| ==> CallOk(s, c);
    }
    forall g | 0 <= g < |s'.flights|
      ensures FlightOk(s', g)
    {
      assert FlightOk(s, g);
    }
    forall x | x in s'.table
      ensures EntryOk(s', x, s'.table[x])
    {
      assert EntryOk(s, x, s.table[x]);
    }
  }

  lemma LeadKeeps(s: State, t: Thread, k: Key)
    requires Inv(s) && k !in s.table && |s.table| < MAX_CLIENT_FLIGHTS
    ensures Inv(State(s.table[k := |s.flights|], s.flights + [Flight(k, t, |s.calls|, None, 0)], s.calls + [Call(t, k, Leading(|s.flights|))]))
  {
    hide WillNotify;
    var s' := State(s.table[k := |s.flights|], s.flights + [Flight(k, t, |s.calls|, None, 0)], s.calls + [Call(t, k, Leading(|s.flights|))]);
    forall c | 0 <= c < |s'.calls|
      ensures CallOk(s', c)
    {
      assert c < |s.calls| ==> CallOk(s, c);
    }
    forall g | 0 <= g < |s'.flights|
      ensures FlightOk(s', g)
    {
      assert g < |s.flights| ==> FlightOk(s, g);
    }
    forall x | x in s'.table
      ensures EntryOk(s', x, s'.table[x])
    {
      assert x in s.table ==> EntryOk(s, x, s.table[x]);
    }
  }

  lemma BypassKeeps(s: State, t: Thread, k: Key)
    requires Inv(s)
    ensures Inv(s.(calls := s.calls + [Call(t, k, Bypassing)]))
  {
    hide Leads, WillNotify;
    var s' := s.(calls := s.calls + [Call(t, k, Bypassing)]);
    forall c | 0 <= c < |s'.calls|
      ensures CallOk(s', c)
    {
      assert c < |s.calls| ==> CallOk(s, c);
    }
    forall g | 0 <= g < |s'.flights|
      ensures FlightOk(s', g)
    {
      assert FlightOk(s, g);
    }
    forall x | x in s'.table
      ensures EntryOk(s', x, s'.table[x])
    {
      assert EntryOk(s, x, s.table[x]);
    }
  }

  /** A call that owns no flight moves on; nobody else depends on it. */
  lemma FollowerMoves(s: State, c: CallId, p: Phase)
    requires Inv(s) && c < |s.calls|
    requires s.calls[c].phase.Checking? || s.calls[c].phase.Parked? || s.calls[c].phase.Answered? || s.calls[c].phase.TimedOut? || s.calls[c].phase.Bypassing?
    requires CallOk(s.To(c, p), c)
    ensures Inv(s.To(c, p))
  {
    var s' := s.To(c, p);
    forall f | 0 <= f < |s.flights|
      ensures FlightOk(s', f) && s.flights[f].owner != c
    {
      assert FlightOk(s, f);
    }
    forall d | 0 <= d < |s'.calls|
      ensures CallOk(s', d)
    {
      assert CallOk(s, d);
    }
    forall x | x in s'.table
      ensures EntryOk(s', x, s'.table[x])
    {
      assert EntryOk(s, x, s.table[x]);
    }
  }

  lemma StoreKeeps(s: State, c: CallId, r: Answer)
    requires Inv(s) && c < |s.calls| && s.calls[c].phase.Leading? && s.calls[c].phase.f < |s.flights|
    ensures
      var f := s.calls[c].phase.f;
      Inv(s.(flights := s.flights[f := s.flights[f].(result := Some(r))]).To(c, Stored(f)))
  {
    var f := s.calls[c].phase.f;
    var s' := s.(flights := s.flights[f := s.flights[f].(result := Some(r))]).To(c, Stored(f));
    assert CallOk(s, c) && FlightOk(s, f);
    forall g | 0 <= g < |s'.flights|
      ensures FlightOk(s', g)
    {
      assert FlightOk(s, g);
    }
    forall d | 0 <= d < |s'.calls|
      ensures CallOk(s', d)
    {
      assert CallOk(s, d);
    }
    forall x | x in s'.table
      ensures EntryOk(s', x, s'.table[x])
    {
      assert EntryOk(s, x, s.table[x]);
    }
  }

  /** With no waiter counted nobody is asleep, so skipping the notification loses none. */
  lemma LoadKeeps(s: State, c: CallId)
    requires Inv(s) && c < |s.calls| && s.calls[c].phase.Stored? && s.calls[c].phase.f < |s.flights|
    ensures
      var f := s.calls[c].phase.f;
      Inv(s.To(c, if s.flights[f].waiters > 0 then Notifying(f) else Removing(f)))
  {
    var f := s.calls[c].phase.f;
    var s' := s.To(c, if s.flights[f].waiters > 0 then Notifying(f) else Removing(f));
    assert CallOk(s, c) && FlightOk(s, f);
    forall g | 0 <= g < |s'.flights|
      ensures FlightOk(s', g)
    {
      assert FlightOk(s, g);
    }
    forall d | 0 <= d < |s'.calls|
      ensures CallOk(s', d)
    {
      assert CallOk(s, d);
    }
    forall x | x in s'.table
      ensures EntryOk(s', x, s'.table[x])
    {
      assert EntryOk(s, x, s.table[x]);
    }
  }

  lemma NotifyKeeps(s: State, c: CallId)
    requires Inv(s) && c < |s.calls| && s.calls[c].phase.Notifying?
    ensures
      var f := s.calls[c].phase.f;
      Inv(s.(calls := Woken(s.calls, f)).To(c, Removing(f)))
  {
    hide WillNotify;
    var f := s.calls[c].phase.f;
    var s' := s.(calls := Woken(s.calls, f)).To(c, Removing(f));
    assert CallOk(s, c) && FlightOk(s, f);
    forall g | 0 <= g < |s'.flights|
      ensures FlightOk(s', g)
    {
      assert FlightOk(s, g);
    }
    forall d | 0 <= d < |s'.calls|
      ensures CallOk(s', d)
    {
      NotifyCallOk(s, c, d);
    }
    forall x | x in s'.table
      ensures EntryOk(s', x, s'.table[x])
    {
      assert EntryOk(s, x, s.table[x]);
    }
  }

  lemma NotifyCallOk(s: State, c: CallId, d: CallId)
    requires Inv(s) && c < |s.calls| && s.calls[c].phase.Notifying? && d < |s.calls|
    ensures CallOk(s.(calls := Woken(s.calls, s.calls[c].phase.f)).To(c, Removing(s.calls[c].phase.f)), d)
  {
    assert CallOk(s, c) && CallOk(s, d) && FlightOk(s, s.calls[c].phase.f);
    if s.calls[d].phase.Parked? {
      assert FlightOk(s, s.calls[d].phase.f);
    }
  }

  lemma RemoveKeeps(s: State, c: CallId)
    requires Inv(s) && c < |s.calls| && s.calls[c].phase.Removing?
    ensures Inv(s.(table := s.table - {s.calls[c].key}).To(c, Finished(s.calls[c].phase.f)))
  {
    hide WillNotify;
    var k, f := s.calls[c].key, s.calls[c].phase.f;
    var s' := s.(table := s.table - {k}).To(c, Finished(f));
    RemovedSize(s.table, k);
    assert CallOk(s, c) && FlightOk(s, f);
    forall x | x in s'.table
      ensures EntryOk(s', x, s'.table[x])
    {
      assert EntryOk(s, x, s.table[x]);
    }
    forall g | 0 <= g < |s'.flights|
      ensures FlightOk(s', g)
    {
      assert FlightOk(s, g);
    }
    forall d | 0 <= d < |s'.calls|
      ensures CallOk(s', d)
    {
      RemoveCallOk(s, c, d);
    }
  }

  lemma RemoveCallOk(s: State, c: CallId, d: CallId)
    requires Inv(s) && c < |s.calls| && s.calls[c].phase.Removing? && d < |s.calls|
    ensures CallOk(s.(table := s.table - {s.calls[c].key}).To(c, Finished(s.calls[c].phase.f)), d)
  {
    assert CallOk(s, c) && CallOk(s, d) && FlightOk(s, s.calls[c].phase.f);
  }

  lemma LeaderReturns(s: State, c: CallId)
    requires Inv(s) && c < |s.calls| && s.calls[c].phase.Finished?
    ensures Inv(s.To(c, Gone))
  {
    var s' := s.To(c, Gone);
    assert CallOk(s, c);
    forall x | x in s'.table
      ensures EntryOk(s', x, s'.table[x])
    {
      assert EntryOk(s, x, s.table[x]);
    }
    forall g | 0 <= g < |s'.flights|
      ensures FlightOk(s', g)
    {
      assert FlightOk(s, g);
    }
    forall d | 0 <= d < |s'.calls|
      ensures CallOk(s', d)
    {
      assert CallOk(s, d);
    }
  }

  lemma StepKeeps(s: State, step: Step)
    requires Inv(s) && Enabled(s, step)
    ensures Inv(Next(s, step))
  {
    hide State.Runs, State.MayBegin, Woken, Inv;
    match step
    case Begin(t, k) =>
      if k in s.table {
        if s.flights[s.table[k]].leaderThread == t {
          BypassKeeps(s, t, k);
        } else {
          FollowKeeps(s, t, k);
        }
      } else if |s.table| >= MAX_CLIENT_FLIGHTS {
        BypassKeeps(s, t, k);
      } else {
        LeadKeeps(s, t, k);
      }
    case Store(c, r) => StoreKeeps(s, c, r);
    case LoadWaiters(c) => LoadKeeps(s, c);
    case NotifyAll(c) => NotifyKeeps(s, c);
    case Remove(c) => RemoveKeeps(s, c);
    case _ => FollowerKeeps(s, step);
  }

  lemma FollowerKeeps(s: State, step: Step)
    requires Inv(s) && Enabled(s, step) && (step.Park? || step.Wake? || step.TakeResult? || step.GiveUp? || step.Return?)
    ensures Inv(Next(s, step))
  {
    hide State.Runs, State.MayBegin;
    var c := StepCall(step);
    assert CallOk(s, c);
    if step.Park? {
      assert FlightOk(s, s.calls[c].phase.f);
    }
    if s.calls[c].phase.Finished? {
      LeaderReturns(s, c);
    } else {
      var p := Next(s, step).calls[c].phase;
      assert Next(s, step) == s.To(c, p);
      FollowerMoves(s, c, p);
    }
  }

  // ------------------------------------------------------------------ whole runs

  ghost predicate IsRun(states: seq<State>, steps: seq<Step>) {
    && |states| == |steps| + 1 && states[0] == Empty
    && (forall i :: 0 <= i < |steps| ==> Enabled(states[i], steps[i]) && states[i + 1] == Next(states[i], steps[i]))
  }

  lemma {:induction false} RunKeeps(states: seq<State>, steps: seq<Step>, n: nat)
    requires IsRun(states, steps) && n < |states|
    ensures Inv(states[n])
  {
    hide Inv, Enabled, Next;
    if n > 0 {
      RunKeeps(states, steps, n - 1);
      StepKeeps(states[n - 1], steps[n - 1]);
    } else {
      EmptyInv();
    }
  }

  lemma EmptyInv()
    ensures Inv(Empty)
  {
  }

  /** A follower sleeps only on a flight of its own key, led by a call of another thread that has yet to notify it. */
  lemma NoLostWakeUp(states: seq<State>, steps: seq<Step>, n: nat, c: CallId)
    requires IsRun(states, steps) && n < |states|
    requires c < |states[n].calls| && states[n].calls[c].phase.Parked?
    ensures
      var s, f := states[n], states[n].calls[c].phase.f;
      exists d | 0 <= d < |s.calls| :: WillNotify(s.calls[d].phase, f) && s.calls[d].thread != s.calls[c].thread && s.calls[d].key == s.calls[c].key
  {
    hide IsRun;
    RunKeeps(states, steps, n);
    var s, f := states[n], states[n].calls[c].phase.f;
    assert CallOk(s, c) && FlightOk(s, f);
    assert WillNotify(s.calls[s.flights[f].owner].phase, f);
  }

  /** Once completion of a flight is over, nobody sleeps on it and its result is there for everyone who looks. */
  lemma CompletedFlight(states: seq<State>, steps: seq<Step>, n: nat, d: CallId, f: FlightId)
    requires IsRun(states, steps) && n < |states| && d < |states[n].calls|
    requires states[n].calls[d].phase == Removing(f) || states[n].calls[d].phase == Finished(f)
    ensures f < |states[n].flights| && states[n].flights[f].result.Some?
    ensures forall c :: 0 <= c < |states[n].calls| ==> states[n].calls[c].phase != Parked(f)
  {
    hide IsRun;
    RunKeeps(states, steps, n);
    var s := states[n];
    assert CallOk(s, d) && FlightOk(s, f);
    forall c | 0 <= c < |s.calls|
      ensures s.calls[c].phase != Parked(f)
    {
      assert CallOk(s, c);
    }
  }

  /** The table stays within its cap, and two calls never lead for the same key. */
  lemma OneFlightPerKey(states: seq<State>, steps: seq<Step>, n: nat, c: CallId, d: CallId, f: FlightId, g: FlightId)
    requires IsRun(states, steps) && n < |states| && c < |states[n].calls| && d < |states[n].calls|
    requires Leads(states[n].calls[c].phase, f) && Leads(states[n].calls[d].phase, g)
    requires states[n].calls[c].key == states[n].calls[d].key
    ensures c == d && f == g && |states[n].table| <= MAX_CLIENT_FLIGHTS
  {
    hide IsRun;
    RunKeeps(states, steps, n);
    assert CallOk(states[n], c) && CallOk(states[n], d);
  }

  /** The entry a leader removes is its own flight, which then is in the table no more. */
  lemma RemovesOwnFlight(states: seq<State>, steps: seq<Step>, n: nat, c: CallId)
    requires IsRun(states, steps) && n < |steps| && steps[n] == Remove(c) && c < |states[n].calls| && states[n].calls[c].phase.Removing?
    ensures
      var s, f := states[n], states[n].calls[c].phase.f;
      && s.calls[c].key in s.table && s.table[s.calls[c].key] == f
      && f !in states[n + 1].table.Values
      && states[n + 1].table == map k | k in s.table && s.table[k] != f :: s.table[k]
  {
    RunKeeps(states, steps, n);
    hide IsRun;
    var s, f := states[n], states[n].calls[c].phase.f;
    assert CallOk(s, c);
    forall k | k in s.table
      ensures s.table[k] == f ==> k == s.calls[c].key
    {
      assert EntryOk(s, k, s.table[k]);
    }
  }

  /** A stored result stays, and a flight that left the table stays out. */
  lemma StepSettles(s: State, step: Step, f: FlightId)
    requires Inv(s) && Enabled(s, step) && f < |s.flights|
    ensures
      var s' := Next(s, step);
      && f < |s'.flights|
      && (s.flights[f].result.Some? ==> s'.flights[f].result == s.flights[f].result)
      && (f !in s.table.Values ==> f !in s'.table.Values)
      && s'.flights[f].key == s.flights[f].key
  {
    hide State.Runs, State.MayBegin, Woken;
    if step.Store? {
      assert CallOk(s, step.c) && FlightOk(s, s.calls[step.c].phase.f);
    }
  }

  lemma {:induction false} RunSettles(states: seq<State>, steps: seq<Step>, n: nat, m: nat, f: FlightId)
    requires IsRun(states, steps) && n <= m < |states| && f < |states[n].flights|
    ensures f < |states[m].flights| && states[m].flights[f].key == states[n].flights[f].key
    ensures states[n].flights[f].result.Some? ==> states[m].flights[f].result == states[n].flights[f].result
    ensures f !in states[n].table.Values ==> f !in states[m].table.Values
    decreases m
  {
    hide Inv, Enabled, Next;
    if n < m {
      RunSettles(states, steps, n, m - 1, f);
      RunKeeps(states, steps, m - 1);
      StepSettles(states[m - 1], steps[m - 1], f);
    }
  }

  /** Everyone who follows a flight, whenever that is, is answered alike, with a result its leader stored for that key. */
  lemma FollowersAgree(states: seq<State>, steps: seq<Step>, n: nat, m: nat, c: CallId, d: CallId, f: FlightId, r: Answer, q: Answer)
    requires IsRun(states, steps) && n <= m < |states| && c < |states[n].calls| && d < |states[m].calls|
    requires states[n].calls[c].phase == Answered(f, r) && states[m].calls[d].phase == Answered(f, q)
    ensures r == q && states[n].calls[c].key == states[m].calls[d].key
  {
    hide IsRun;
    RunKeeps(states, steps, n);
    RunKeeps(states, steps, m);
    assert CallOk(states[n], c) && CallOk(states[m], d);
    RunSettles(states, steps, n, m, f);
  }

  // ------------------------------------------------------------------ who joins whom, and what they get

  predicate InCharge(p: Phase) {
    p.Leading? || p.Stored? || p.Notifying? || p.Removing?
  }

  /** The keys being resolved by a leader. */
  function LedKeys(s: State): set<Key> {
    set d | 0 <= d < |s.calls| && InCharge(s.calls[d].phase) :: s.calls[d].key
  }

  /** Call `d` leads flight `f` for the key. */
  predicate LeaderOf(s: State, k: Key, d: CallId, f: FlightId) {
    d < |s.calls| && s.calls[d].key == k && Leads(s.calls[d].phase, f)
  }

  lemma TableIsLed(s: State)
    requires Inv(s)
    ensures s.table.Keys == LedKeys(s)
    ensures forall k, d: CallId, f: FlightId :: LeaderOf(s, k, d, f) ==> k in s.table && s.table[k] == f && f < |s.flights| && s.flights[f].leaderThread == s.calls[d].thread
    ensures forall k :: k in s.table ==> s.table[k] < |s.flights| && LeaderOf(s, k, s.flights[s.table[k]].owner, s.table[k])
  {
    forall k, d: CallId, f: FlightId | LeaderOf(s, k, d, f)
      ensures k in s.table && s.table[k] == f && f < |s.flights| && s.flights[f].leaderThread == s.calls[d].thread
    {
      assert CallOk(s, d) && FlightOk(s, f);
    }
    forall k | k in s.table
      ensures s.table[k] < |s.flights| && LeaderOf(s, k, s.flights[s.table[k]].owner, s.table[k]) && k in LedKeys(s)
    {
      assert EntryOk(s, k, s.table[k]) && FlightOk(s, s.table[k]);
    }
    forall k | k in LedKeys(s)
      ensures k in s.table
    {
      var d :| 0 <= d < |s.calls| && InCharge(s.calls[d].phase) && s.calls[d].key == k;
      assert LeaderOf(s, k, d, s.calls[d].phase.f);
    }
  }

  /**
   A call joins the flight another thread leads for its key; it leads a new one when nobody does and fewer than 4096
   keys are led; it goes alone when its own thread leads, or the table is full.
   */
  lemma JoinLaw(states: seq<State>, steps: seq<Step>, n: nat)
    requires IsRun(states, steps) && n < |steps| && steps[n].Begin?
    ensures
      var s, s', t, k := states[n], states[n + 1], steps[n].t, steps[n].k;
      var c := |s.calls|;
      && |s'.calls| == c + 1 && s'.calls[..c] == s.calls && s'.calls[c].thread == t && s'.calls[c].key == k
      && (forall f: FlightId :: s'.calls[c].phase == Checking(f) <==> exists d: CallId :: LeaderOf(s, k, d, f) && s.calls[d].thread != t)
      && (s'.calls[c].phase == Bypassing <==>
            (exists d: CallId, f: FlightId :: LeaderOf(s, k, d, f) && s.calls[d].thread == t) || ((forall d: CallId, f: FlightId :: !LeaderOf(s, k, d, f)) && |LedKeys(s)| >= 4096))
      && (s'.calls[c].phase == Leading(|s.flights|) <==> (forall d: CallId, f: FlightId :: !LeaderOf(s, k, d, f)) && |LedKeys(s)| < 4096)
  {
    hide LeaderOf, Inv, LedKeys;
    RunKeeps(states, steps, n);
    var s := states[n];
    TableIsLed(s);
    assert |s.table| == |s.table.Keys|;
    LeaderExists(s, steps[n].k);
  }

  lemma LeaderExists(s: State, k: Key)
    requires Inv(s)
    ensures k in s.table ==> s.table[k] < |s.flights| && exists d: CallId :: LeaderOf(s, k, d, s.table[k])
    ensures forall d: CallId, f: FlightId :: LeaderOf(s, k, d, f) ==> d < |s.calls|
  {
    TableIsLed(s);
  }

  /** A result is what the flight's own leader stored while it led it. */
  lemma {:induction false} StoredByLeader(states: seq<State>, steps: seq<Step>, n: nat, f: FlightId) returns (m: nat, d: CallId)
    requires IsRun(states, steps) && n < |states| && f < |states[n].flights| && states[n].flights[f].result.Some?
    ensures m < n && steps[m] == Store(d, states[n].flights[f].result.value) && d < |states[m].calls| && states[m].calls[d].phase == Leading(f)
    ensures states[m].calls[d].key == states[n].flights[f].key
  {
    hide Inv, Enabled, Next;
    var s, step := states[n - 1], steps[n - 1];
    RunKeeps(states, steps, n - 1);
    if f < |s.flights| && s.flights[f].result.Some? {
      m, d := StoredByLeader(states, steps, n - 1, f);
      StepSettles(s, step, f);
    } else {
      m := n - 1;
      d := NewResult(s, step, f);
    }
  }

  /** Only the leader's own store gives a flight its result. */
  lemma NewResult(s: State, step: Step, f: FlightId) returns (d: CallId)
    requires Inv(s) && Enabled(s, step) && f < |Next(s, step).flights| && Next(s, step).flights[f].result.Some?
    requires f < |s.flights| ==> s.flights[f].result.None?
    ensures d < |s.calls| && step == Store(d, Next(s, step).flights[f].result.value) && s.calls[d].phase == Leading(f) && s.calls[d].key == Next(s, step).flights[f].key
  {
    hide State.Runs, State.MayBegin, Woken, Inv;
    assert step.Store?;
    d := step.c;
    LeaderKey(s, d);
  }

  lemma LeaderKey(s: State, d: CallId)
    requires Inv(s) && d < |s.calls| && s.calls[d].phase.Leading?
    ensures s.calls[d].phase.f < |s.flights| && s.flights[s.calls[d].phase.f].key == s.calls[d].key
  {
    assert CallOk(s, d);
  }

  /** What a follower is answered is what a leader of its own key, on another call, resolved. */
  lemma AnswerLaw(states: seq<State>, steps: seq<Step>, n: nat, c: CallId) returns (m: nat, d: CallId)
    requires IsRun(states, steps) && n < |states| && c < |states[n].calls| && states[n].calls[c].phase.Answered?
    ensures m < n && steps[m] == Store(d, states[n].calls[c].phase.r) && d < |states[m].calls| && states[m].calls[d].key == states[n].calls[c].key
  {
    hide IsRun;
    RunKeeps(states, steps, n);
    assert CallOk(states[n], c);
    m, d := StoredByLeader(states, steps, n, states[n].calls[c].phase.f);
  }
}
