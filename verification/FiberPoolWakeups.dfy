/** run_all sleeps until a worker tells it that the pool is quiescent; the wake-up is never lost. */
module FiberPoolWakeups {
  import opened Seqs
  import opened FiberPool
  import opened FiberPoolInvariant
  import opened FiberPoolRuns
  import opened FiberPoolTheorems

  /**
   The pool with who is awake: `up` holds the workers on their way to the next look at
   their queue, and `asleep` says that a run_all is waiting for the broadcast.
   */
  datatype Watch = Watch(pool: Pool, up: set<nat>, asleep: bool)

  datatype Event =
    | Work(step: Step)
    | FallAsleep          // run_all finds the pool busy and waits
    | Rouse(w: nat)       // worker `w` is signalled, or wakes by itself
    | WakeEarly           // run_all wakes by itself and will look again

  predicate Possible(s: Watch, e: Event) {
    match e
    case Work(step) => Enabled(s.pool, step) && (step.Cleanup? ==> Unused(s.pool)) && (step.Turn? ==> step.w in s.up)
    case FallAsleep => !Quiescent(s.pool)
    case Rouse(w) => true
    case WakeEarly => true
  }

  /** A worker that finds nothing to run tells run_all if the pool is quiescent, and goes to sleep. */
  function Happen(s: Watch, e: Event): Watch
    requires Closed(s.pool) && Possible(s, e)
  {
    match e
    case Work(step) =>
      var pool := Apply(s.pool, step);
      if step.Turn? then Watch(pool, s.up - {step.w}, s.asleep && !Quiescent(pool))
      else Watch(pool, if step.SwapOut? then s.up + {step.w} else s.up, s.asleep)
    case FallAsleep => s.(asleep := true)
    case Rouse(w) => s.(up := s.up + {w})
    case WakeEarly => s.(asleep := false)
  }

  /** If run_all sleeps although the pool is quiescent, a worker is about to tell it. */
  ghost predicate Attended(s: Watch) {
    s.asleep && Quiescent(s.pool) ==> exists w :: w in s.up && w < |s.pool.cpu|
  }

  lemma {:induction false} FireDueCounts(s: Pool, now: int)
    requires Shape(s) && Known(s, s.timers)
    ensures FireDue(s, now).nready >= s.nready
    ensures FireDue(s, now).nready == s.nready ==> FireDue(s, now) == s
    decreases |s.timers|
  {
    if s.timers != [] && s.tasks[s.timers[0]].wake <= now { FireDueCounts(FireOne(s), now); }
  }

  lemma {:induction false} WakeIoCounts(s: Pool, es: seq<TaskId>, fired: set<TaskId>)
    requires Shape(s) && Known(s, es)
    ensures WakeIo(s, es, fired).nready >= s.nready
    ensures WakeIo(s, es, fired).nready == s.nready ==> WakeIo(s, es, fired) == s
    decreases |es|
  {
    if es != [] { WakeIoCounts(if es[0] in fired then WakeIoOne(s, es[0]) else s, es[1..], fired); }
  }

  lemma ReadyIsCounted(s: Pool)
    requires Inv(s)
    ensures Closed(s) && s.nready >= 0
  {
    var at :| Placed(s, at, {}, None);
    PlacedIsClosed(s, at, {}, None);
  }

  /** Only a fiber leaving its stack can make a busy pool quiescent. */
  lemma QuietOnlyByLeaving(s: Pool, step: Step)
    requires Inv(s) && Closed(s) && Enabled(s, step) && !step.Cleanup? && !step.SwapOut? && !Quiescent(s)
    ensures !Quiescent(Apply(s, step))
  {
    ReadyIsCounted(s);
    hide Inv, Closed;
    match step
    case Turn(w, now) => hide Quiescent; if Quiescent(TakeTurn(s, w, now)) { QuietTurnWasQuiet(s, w, now); }
    case Deliver(fired) => hide Quiescent; if Quiescent(Apply(s, step)) { QuietDeliveryWasQuiet(s, fired); }
    case Finish(w, r) => FiberIsLeaving(s, step);
    case Yield(w) => FiberIsLeaving(s, step);
    case Sleep(w, _, _) => FiberIsLeaving(s, step);
    case Await(w, on) => FiberIsLeaving(s, step);
    case IoWait(w, _) => FiberIsLeaving(s, step);
    case _ =>
  }

  lemma FiberIsLeaving(s: Pool, step: Step)
    requires Closed(s) && Enabled(s, step)
    requires step.Yield? || step.Sleep? || step.Await? || step.IoWait? || step.Finish?
    ensures !Quiescent(Apply(s, step))
  {
    hide WakeWaiters, InsertByWake;
    assert |Apply(s, step).cpu| == |s.cpu| && !Apply(s, step).cpu[step.w].Idle?;
  }

  lemma QuietTurnWasQuiet(s: Pool, w: nat, now: int)
    requires Closed(s) && w < |s.cpu| && s.nready >= 0 && Quiescent(TakeTurn(s, w, now))
    ensures Quiescent(s)
  {
    FireDueCounts(s, now);
    FireDueKeepsQueues(s, now);
    hide FireDue;
    DispatchIsBusy(FireDue(s, now), w);
  }

  lemma DispatchIsBusy(s: Pool, w: nat)
    requires Shape(s) && w < |s.ready| && Known(s, s.ready[w])
    ensures s.ready[w] != [] ==> !Quiescent(Dispatch(s, w))
  {
    if s.ready[w] != [] { assert Dispatch(s, w).cpu[w].Runs?; }
  }

  lemma QuietDeliveryWasQuiet(s: Pool, fired: set<TaskId>)
    requires Closed(s) && s.nready >= 0 && Quiescent(Apply(s, Deliver(fired)))
    ensures Quiescent(s)
  {
    hide WakeIo;
    WakeIoCounts(s.(polled := []), s.polled, fired);
  }

  lemma AttendedStep(s: Watch, e: Event)
    requires Inv(s.pool) && Closed(s.pool) && Possible(s, e) && Attended(s)
    ensures Inv(Happen(s, e).pool) && Closed(Happen(s, e).pool) && Attended(Happen(s, e))
  {
    if e.Work? {
      WorkKeepsInv(s.pool, e.step);
      AttendedWork(s, e.step);
    }
  }

  lemma WorkKeepsInv(s: Pool, step: Step)
    requires Inv(s) && Closed(s) && Enabled(s, step) && (step.Cleanup? ==> Unused(s))
    ensures Inv(Apply(s, step)) && Closed(Apply(s, step))
  {
    hide Inv, Closed, Apply;
    assert Next(s, Apply(s, step));
    InvStep(s, Apply(s, step));
    ReadyIsCounted(Apply(s, step));
  }

  lemma AttendedWork(s: Watch, step: Step)
    requires Inv(s.pool) && Closed(s.pool) && Possible(s, Work(step)) && Attended(s)
    ensures Attended(Happen(s, Work(step)))
  {
    hide Inv, Closed;
    var s' := Happen(s, Work(step));
    if s'.asleep && Quiescent(s'.pool) && !step.Turn? {
      if step.SwapOut? {
        assert step.w in s'.up;
      } else {
        if !Quiescent(s.pool) { QuietOnlyByLeaving(s.pool, step); }
        assert |s'.pool.cpu| == |s.pool.cpu| by { WorkersFixed(s.pool, step); }
      }
    }
  }

  lemma WorkersFixed(s: Pool, step: Step)
    requires Closed(s) && Enabled(s, step)
    ensures |Apply(s, step).cpu| == |s.cpu|
  {
    hide FireDue, WakeWaiters;
    match step
    case Deliver(fired) => WakeIoWorkers(s.(polled := []), s.polled, fired);
    case _ =>
  }

  lemma {:induction false} WakeIoWorkers(s: Pool, es: seq<TaskId>, fired: set<TaskId>)
    requires Shape(s) && Known(s, es)
    ensures |WakeIo(s, es, fired).cpu| == |s.cpu|
    decreases |es|
  {
    if es != [] { WakeIoWorkers(if es[0] in fired then WakeIoOne(s, es[0]) else s, es[1..], fired); }
  }

  /** All workers of a new pool have yet to look at their queues. */
  ghost predicate Begins(s: Watch) {
    (exists n :: n > 0 && s.pool == Start(n) && forall w :: 0 <= w < n ==> w in s.up) && !s.asleep
  }

  ghost predicate Goes(s: Watch, s': Watch) {
    Closed(s.pool) && exists e :: Possible(s, e) && s' == Happen(s, e)
  }

  ghost predicate WatchRun(states: seq<Watch>) {
    && |states| > 0 && Begins(states[0])
    && forall i :: 0 <= i < |states| - 1 ==> Goes(states[i], states[i + 1])
  }

  /**
   In every run, a run_all that sleeps while the pool is quiescent is woken: some worker is
   on its way to its queue, and its turn makes the broadcast.
   */
  lemma {:induction false} RunAllIsWoken(states: seq<Watch>, now: int) returns (w: nat)
    requires WatchRun(states)
    requires states[|states| - 1].asleep && Quiescent(states[|states| - 1].pool)
    ensures var s := states[|states| - 1];
      Closed(s.pool) && Possible(s, Work(Turn(w, now))) && !Happen(s, Work(Turn(w, now))).asleep
  {
    hide Inv, Closed, Goes;
    var n :| n > 0 && states[0].pool == Start(n) && forall w :: 0 <= w < n ==> w in states[0].up;
    StartInv(n);
    ReadyIsCounted(states[0].pool);
    var k := 0;
    while k < |states| - 1
      invariant 0 <= k < |states| && Inv(states[k].pool) && Closed(states[k].pool) && Attended(states[k])
    {
      assert Goes(states[k], states[k + 1]);
      GoesOn(states[k], states[k + 1]);
      k := k + 1;
    }
    var s := states[|states| - 1];
    w :| w in s.up && w < |s.pool.cpu|;
    StaysQuiet(s.pool, w, now);
  }

  lemma GoesOn(s: Watch, s': Watch)
    requires Inv(s.pool) && Goes(s, s') && Attended(s)
    ensures Inv(s'.pool) && Closed(s'.pool) && Attended(s')
  {
    hide Inv, Closed, Happen, Possible, Attended;
    var e :| Possible(s, e) && s' == Happen(s, e);
    AttendedStep(s, e);
  }

  lemma StaysQuiet(s: Pool, w: nat, now: int)
    requires Inv(s) && Closed(s) && Quiescent(s) && w < |s.cpu|
    ensures Quiescent(Apply(s, Turn(w, now)))
  {
    hide Inv, Closed, Apply;
    assert Enabled(s, Turn(w, now));
    QuietUntilSpawn(s, Turn(w, now));
  }
}
