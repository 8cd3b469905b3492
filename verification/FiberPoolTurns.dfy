/** Which fiber runs next: the exact effect of a scheduler turn and of a finish on the queues, and where tasks live. */
module FiberPoolTurns {
  import opened Seqs
  import opened FiberPool
  import opened FiberPoolInvariant
  import opened FiberPoolRuns
  import opened FiberPoolTheorems
  import opened FiberPoolDrain
  import opened FiberPoolProgress
  import opened FiberPoolDelivery
  import opened FiberPoolWakeups

  // ------------------------------------------------------------------------ one turn

  /** Worker `w` has taken the head of `q` if there is one, and its queue is the rest. */
  ghost predicate Took(s: Pool, w: nat, q: seq<TaskId>) {
    && w < |s.cpu| == |s.ready|
    && (q == [] ==> s.cpu[w] == Idle && s.ready[w] == [])
    && (q != [] ==> s.cpu[w] == Runs(q[0]) && s.ready[w] == q[1..])
  }

  /**
   A turn appends the timers that are due to their home queues, in order, and then runs the head of its
   own. So a worker stays idle only if nothing is queued to it and nothing is due.
   */
  lemma TurnIsExact(s: Pool, w: nat, now: int) returns (k: nat)
    requires Inv(s) && Enabled(s, Turn(w, now))
    ensures Closed(s) && k <= |s.timers| && (forall i :: 0 <= i < |s.timers| ==> (i < k <==> s.tasks[s.timers[i]].wake <= now))
    ensures var s' := Apply(s, Turn(w, now));
      && s'.timers == s.timers[k..]
      && Took(s', w, s.ready[w] + OfWorker(s.tasks, s.timers[..k], w))
      && forall v :: 0 <= v < |s.ready| && v != w ==>
           s'.cpu[v] == s.cpu[v] && s'.ready[v] == s.ready[v] + OfWorker(s.tasks, s.timers[..k], v)
  {
    var at: Places :| Placed(s, at, {}, None);
    InvShape(s);
    hide Inv, Placed, FireDue, OfWorker;
    PlacedSize(s, at);
    k := FireDueIsExact(s, at, now);
    FireDueKeepsQueues(s, now);
    DispatchTakes(FireDue(s, now), w);
  }

  lemma DispatchTakes(s: Pool, w: nat)
    requires Shape(s) && w < |s.ready| && Known(s, s.ready[w]) && s.cpu[w] == Idle
    ensures var s' := Dispatch(s, w);
      && Took(s', w, s.ready[w]) && s'.timers == s.timers && |s'.cpu| == |s.cpu|
      && forall v :: 0 <= v < |s.ready| && v != w ==> s'.cpu[v] == s.cpu[v] && s'.ready[v] == s.ready[v]
  {
  }

  // ---------------------------------------------------------------- who waits, who is woken

  /** A fiber that awaits an undone task stops running and stands first among its waiters. */
  lemma AwaitSuspends(s: Pool, w: nat, on: TaskId)
    requires Inv(s) && Enabled(s, Await(w, on)) && s.tasks[on].status != Done
    ensures Closed(s)
    ensures var s' := Apply(s, Await(w, on)); var t := s.cpu[w].task;
      && t < |s.tasks| == |s'.tasks| && s'.cpu == s.cpu[w := Leaves(t)]
      && s'.tasks[on].waiters == [t] + s.tasks[on].waiters && s'.tasks[t].status == Blocked
  {
    InvShape(s);
    RunnerAwaitsNothing(s, w);
    hide Inv;
  }

  /** The waiters of `u` go to their home queues in the order of its list, the newest first. */
  lemma {:induction false} WakeWaitersIsExact(s: Pool, u: TaskId)
    requires Shape(s) && u < |s.tasks| && Known(s, s.tasks[u].waiters)
    ensures forall w :: 0 <= w < |s.ready| ==>
      WakeWaiters(s, u).ready[w] == s.ready[w] + OfWorker(s.tasks, s.tasks[u].waiters, w)
    decreases |s.tasks[u].waiters|
  {
    var ws := s.tasks[u].waiters;
    if ws != [] {
      var m := WakeOne(s, u);
      assert |m.tasks| == |s.tasks|;
      assert forall x :: 0 <= x < |s.tasks| ==> m.tasks[x].home == s.tasks[x].home;
      WakeOneWaiters(s, u);
      WakeWaitersIsExact(m, u);
      forall w | 0 <= w < |s.ready| { OfWorkerHomes(s.tasks, m.tasks, m.tasks[u].waiters, w); }
    }
  }

  lemma WakeOneWaiters(s: Pool, u: TaskId)
    requires Shape(s) && u < |s.tasks| && Known(s, s.tasks[u].waiters) && s.tasks[u].waiters != []
    ensures WakeOne(s, u).tasks[u].waiters == s.tasks[u].waiters[1..]
  {
  }

  /** A finish queues the waiters, the newest first, behind what was queued, and nothing else moves. */
  lemma FinishIsExact(s: Pool, w: nat, r: int)
    requires Inv(s) && Enabled(s, Finish(w, r))
    ensures Closed(s)
    ensures var s' := Apply(s, Finish(w, r)); var t := s.cpu[w].task;
      && t < |s.tasks| && |s'.ready| == |s.ready| && s'.cpu == s.cpu[w := Leaves(t)]
      && s'.timers == s.timers && s'.iowait == s.iowait
      && forall v :: 0 <= v < |s.ready| ==> s'.ready[v] == s.ready[v] + OfWorker(s.tasks, s.tasks[t].waiters, v)
  {
    InvShape(s);
    hide Inv;
    var t := s.cpu[w].task;
    var m := SetResult(s, t, r);
    WakeWaitersIsExact(m, t);
    WakeWaitersLists(m, t);
    hide WakeWaiters, OfWorker;
    forall v | 0 <= v < |s.ready| { OfWorkerHomes(s.tasks, m.tasks, s.tasks[t].waiters, v); }
  }

  // ------------------------------------------------------------------------ round robin

  /** Tasks are spread over the workers in the order they were spawned. */
  ghost predicate Spread(s: Pool) {
    && s.spin == |s.tasks| && |s.ready| == |s.cpu| > 0
    && forall t :: 0 <= t < |s.tasks| ==> s.tasks[t].home == t % |s.ready|
  }

  lemma {:induction false} FireDueSpin(s: Pool, now: int)
    requires Shape(s) && Known(s, s.timers)
    ensures FireDue(s, now).spin == s.spin
    decreases |s.timers|
  {
    if s.timers != [] && s.tasks[s.timers[0]].wake <= now { FireDueSpin(FireOne(s), now); }
  }

  lemma {:induction false} WakeWaitersSpin(s: Pool, u: TaskId)
    requires Shape(s) && u < |s.tasks| && Known(s, s.tasks[u].waiters)
    ensures WakeWaiters(s, u).spin == s.spin
    decreases |s.tasks[u].waiters|
  {
    if s.tasks[u].waiters != [] { WakeWaitersSpin(WakeOne(s, u), u); }
  }

  lemma {:induction false} WakeIoSpin(s: Pool, es: seq<TaskId>, fired: set<TaskId>)
    requires Shape(s) && Known(s, es)
    ensures WakeIo(s, es, fired).spin == s.spin && |WakeIo(s, es, fired).ready| == |s.ready|
    decreases |es|
  {
    if es != [] { WakeIoSpin(if es[0] in fired then WakeIoOne(s, es[0]) else s, es[1..], fired); }
  }

  lemma StepSpin(s: Pool, step: Step)
    requires Closed(s) && Enabled(s, step)
    ensures Apply(s, step).spin == s.spin + if step.Spawn? then 1 else 0
    ensures step.Spawn? ==>
      |Apply(s, step).tasks| == |s.tasks| + 1 && Apply(s, step).tasks[|s.tasks|].home == s.spin % |s.ready|
  {
    match step
    case Turn(w, now) =>
      FireDueSpin(s, now);
      FireDueKeepsQueues(s, now);
      hide FireDue;
    case Finish(w, r) =>
      WakeWaitersSpin(SetResult(s, s.cpu[w].task, r), s.cpu[w].task);
      hide WakeWaiters;
    case Deliver(fired) =>
      WakeIoSpin(s.(polled := []), s.polled, fired);
      hide WakeIo;
    case _ =>
  }

  lemma SpreadStep(s: Pool, s': Pool)
    requires Inv(s) && Inv(s') && Next(s, s') && Spread(s)
    ensures Spread(s')
  {
    hide Placed;
    var at: Places :| Placed(s, at, {}, None);
    var step :| Enabled(s, step) && (step.Cleanup? ==> Unused(s)) && s' == Apply(s, step);
    StepSpin(s, step);
    StepSize(s, step);
    WorkersFixed(s, step);
    ClosedSizes(s);
    assert Closed(s') by { InvShape(s'); }
    ClosedSizes(s');
    hide Apply, Closed, Enabled, Inv;
    forall t | 0 <= t < |s'.tasks| ensures s'.tasks[t].home == t % |s'.ready| {
      if t < |s.tasks| { StepLife(s, at, step, t); }
    }
  }

  /** In every reachable state the workers' shares of the tasks ever spawned differ by one at most: task `t` is
   on worker `t` modulo their number. */
  lemma {:induction false} RoundRobin(s: Pool)
    requires Reachable(s)
    ensures Spread(s)
  {
    hide Inv, Next;
    var states :| Run(states) && states[|states| - 1] == s;
    RunInv(states);
    var n :| n > 0 && states[0] == Start(n);
    var k := 0;
    while k < |states| - 1
      invariant 0 <= k < |states| && Spread(states[k])
    {
      assert Next(states[k], states[k + 1]);
      SpreadStep(states[k], states[k + 1]);
      k := k + 1;
    }
  }

  // --------------------------------------------------------------------- the wake field

  /** A task that is not on the timer list has wake time -1. */
  ghost predicate WakesMarked(s: Pool) {
    forall t :: 0 <= t < |s.tasks| && t !in s.timers ==> s.tasks[t].wake == -1
  }

  /** `s'` has the timers of `s`, and every task its wake time. */
  ghost predicate SameTimers(s: Pool, s': Pool) {
    && s'.timers == s.timers && |s'.tasks| == |s.tasks|
    && forall t {:trigger s'.tasks[t]} :: 0 <= t < |s.tasks| ==> s'.tasks[t].wake == s.tasks[t].wake
  }

  lemma {:induction false} FireDueMarks(s: Pool, now: int)
    requires Shape(s) && Known(s, s.timers) && WakesMarked(s)
    ensures WakesMarked(FireDue(s, now))
    decreases |s.timers|
  {
    if s.timers != [] && s.tasks[s.timers[0]].wake <= now {
      assert s.timers == [s.timers[0]] + s.timers[1..];
      FireDueMarks(FireOne(s), now);
    }
  }

  lemma {:induction false} WakeWaitersTimers(s: Pool, u: TaskId)
    requires Shape(s) && u < |s.tasks| && Known(s, s.tasks[u].waiters)
    ensures SameTimers(s, WakeWaiters(s, u))
    decreases |s.tasks[u].waiters|
  {
    if s.tasks[u].waiters != [] { WakeWaitersTimers(WakeOne(s, u), u); }
  }

  lemma {:induction false} WakeIoTimers(s: Pool, es: seq<TaskId>, fired: set<TaskId>)
    requires Shape(s) && Known(s, es)
    ensures SameTimers(s, WakeIo(s, es, fired))
    decreases |es|
  {
    if es != [] { WakeIoTimers(if es[0] in fired then WakeIoOne(s, es[0]) else s, es[1..], fired); }
  }

  lemma SleepMarks(s: Pool, t: TaskId, wake: int)
    requires t < |s.tasks| && Known(s, s.timers) && WakesMarked(s)
    ensures WakesMarked(AddTimer(s, t, wake))
  {
    var tasks := s.tasks[t := s.tasks[t].(wake := wake, status := Blocked)];
    var k := InsertByWakeSplits(tasks, s.timers, t);
    hide InsertByWake;
    forall x | x in s.timers || x == t ensures x in s.timers[..k] + [t] + s.timers[k..] {
      assert s.timers == s.timers[..k] + s.timers[k..];
    }
  }

  lemma MarksStep(s: Pool, step: Step)
    requires Inv(s) && Closed(s) && Enabled(s, step) && (step.Cleanup? ==> Unused(s)) && WakesMarked(s)
    ensures WakesMarked(Apply(s, step))
  {
    hide Inv, WakesMarked;
    match step
    case Turn(w, now) => TurnMarks(s, w, now);
    case Sleep(w, now, ms) => DepartMarks(s, w); SleepMarks(Depart(s, w), s.cpu[w].task, now + ms);
    case Finish(w, r) => FinishMarks(s, w, r);
    case Deliver(fired) => DeliverMarks(s, fired);
    case Cleanup => CleanupMarks(s);
    case _ => OtherMarks(s, step);
  }

  lemma TurnMarks(s: Pool, w: nat, now: int)
    requires Closed(s) && w < |s.ready| && WakesMarked(s)
    ensures WakesMarked(TakeTurn(s, w, now))
  {
    FireDueMarks(s, now);
    FireDueKeepsQueues(s, now);
    hide FireDue, Closed;
  }

  lemma DepartMarks(s: Pool, w: nat)
    requires Executing(s, w) && WakesMarked(s)
    ensures WakesMarked(Depart(s, w))
  {
  }

  lemma FinishMarks(s: Pool, w: nat, r: int)
    requires Closed(s) && Executing(s, w) && WakesMarked(s)
    ensures WakesMarked(FinishTask(s, w, r))
  {
    WakeWaitersTimers(SetResult(s, s.cpu[w].task, r), s.cpu[w].task);
    hide WakeWaiters, Closed;
  }

  lemma DeliverMarks(s: Pool, fired: set<TaskId>)
    requires Closed(s) && WakesMarked(s)
    ensures WakesMarked(Apply(s, Deliver(fired)))
  {
    WakeIoTimers(s.(polled := []), s.polled, fired);
    hide WakeIo;
  }

  lemma CleanupMarks(s: Pool)
    requires Inv(s) && Closed(s) && Enabled(s, Cleanup) && Unused(s) && WakesMarked(s)
    ensures WakesMarked(ReclaimAll(s))
  {
    hide Inv, Closed;
    QuietLists(s);
  }

  lemma OtherMarks(s: Pool, step: Step)
    requires Closed(s) && Enabled(s, step) && WakesMarked(s)
    requires !step.Turn? && !step.Sleep? && !step.Finish? && !step.Deliver? && !step.Cleanup?
    ensures WakesMarked(Apply(s, step))
  {
    match step
    case Spawn => assert SpawnTask(s).timers == s.timers;
    case _ =>
  }

  /** As the record's comment says: the wake time is that of the timer list, else -1. */
  lemma {:induction false} WakeFieldIsExact(s: Pool)
    requires Reachable(s)
    ensures WakesMarked(s)
  {
    hide Inv, Next;
    var states :| Run(states) && states[|states| - 1] == s;
    RunInv(states);
    var n :| n > 0 && states[0] == Start(n);
    var k := 0;
    while k < |states| - 1
      invariant 0 <= k < |states| && WakesMarked(states[k])
    {
      assert Next(states[k], states[k + 1]);
      NextMarks(states[k], states[k + 1]);
      k := k + 1;
    }
  }

  lemma NextMarks(s: Pool, s': Pool)
    requires Inv(s) && Next(s, s') && WakesMarked(s)
    ensures WakesMarked(s')
  {
    hide Inv, Apply, Closed, WakesMarked;
    var step :| Enabled(s, step) && (step.Cleanup? ==> Unused(s)) && s' == Apply(s, step);
    MarksStep(s, step);
  }
}
