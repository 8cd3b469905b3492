/**
 What can happen between the moment run_all sees the pool quiescent and its cleanup: which
 tasks can still run there, and when the cleanup frees something that is in use.
 */
module FiberPoolDrain {
  import opened Seqs
  import opened FiberPool
  import opened FiberPoolInvariant
  import opened FiberPoolRuns
  import opened FiberPoolTheorems

  // ------------------------------------------------------------- tasks that stay put

  ghost predicate Off(list: seq<TaskId>, x: set<TaskId>) {
    forall i :: 0 <= i < |list| ==> list[i] !in x
  }

  /** The tasks of `x` run on no worker, are on no queue, timer or I/O list, and wait only on each other. */
  ghost predicate Still(s: Pool, x: set<TaskId>) {
    && (forall t :: t in x ==> t < |s.tasks|)
    && (forall w :: 0 <= w < |s.ready| ==> Off(s.ready[w], x))
    && Off(s.timers, x) && Off(s.iowait, x) && Off(s.polled, x)
    && (forall w :: 0 <= w < |s.cpu| && s.cpu[w].Runs? ==> s.cpu[w].task !in x)
    && (forall u :: 0 <= u < |s.tasks| && u !in x ==> Off(s.tasks[u].waiters, x))
  }

  /** No worker is leaving the stack of a task of `x` either. */
  ghost predicate OffStack(s: Pool, x: set<TaskId>) {
    forall w :: 0 <= w < |s.cpu| && s.cpu[w].Leaves? ==> s.cpu[w].task !in x
  }

  ghost predicate SameStatus(s: Pool, s': Pool, x: set<TaskId>) {
    && |s.tasks| <= |s'.tasks|
    && forall t {:trigger s'.tasks[t]} :: t in x && t < |s.tasks| ==> s'.tasks[t].status == s.tasks[t].status
  }

  /** `s'` has finished no task of `x`, and what run_all and the outside awaiter know is as in `s`. */
  ghost predicate Untouched(s: Pool, s': Pool, x: set<TaskId>) {
    && SameStatus(s, s', x)
    && s'.mainWait == s.mainWait && s'.drains == s.drains && s'.seen == s.seen
  }

  lemma OffConcat(a: seq<TaskId>, b: seq<TaskId>, x: set<TaskId>)
    ensures Off(a + b, x) <==> Off(a, x) && Off(b, x)
  {
    if Off(a + b, x) {
      forall i | 0 <= i < |a| ensures a[i] !in x { assert (a + b)[i] == a[i]; }
      forall i | 0 <= i < |b| ensures b[i] !in x { assert (a + b)[|a| + i] == b[i]; }
    }
  }

  lemma {:induction false} OffWithout(list: seq<TaskId>, t: TaskId, x: set<TaskId>)
    requires Off(list, x)
    ensures Off(Without(list, t), x)
  {
    if list != [] { OffWithout(list[1..], t, x); }
  }

  lemma PushStill(s: Pool, t: TaskId, x: set<TaskId>)
    requires Shape(s) && t < |s.tasks| && t !in x && Still(s, x)
    ensures Still(Push(s, t), x) && Untouched(s, Push(s, t), x)
  {
    OffConcat(s.ready[s.tasks[t].home], [t], x);
  }

  lemma FireOneStill(s: Pool, x: set<TaskId>)
    requires Shape(s) && s.timers != [] && s.timers[0] < |s.tasks| && Still(s, x)
    ensures Still(FireOne(s), x) && Untouched(s, FireOne(s), x)
  {
    assert Still(PopTimer(s), x);
    PushStill(PopTimer(s), s.timers[0], x);
  }

  lemma {:induction false} FireDueStill(s: Pool, now: int, x: set<TaskId>)
    requires Shape(s) && Known(s, s.timers) && Still(s, x)
    ensures Still(FireDue(s, now), x) && Untouched(s, FireDue(s, now), x)
    decreases |s.timers|
  {
    if s.timers != [] && s.tasks[s.timers[0]].wake <= now {
      FireOneStill(s, x);
      FireDueStill(FireOne(s), now, x);
    }
  }

  lemma TurnStill(s: Pool, w: nat, now: int, x: set<TaskId>)
    requires Closed(s) && w < |s.ready| && Still(s, x)
    ensures Still(TakeTurn(s, w, now), x) && Untouched(s, TakeTurn(s, w, now), x)
  {
    FireDueStill(s, now, x);
    FireDueKeepsQueues(s, now);
    hide FireDue;
    DispatchStill(FireDue(s, now), w, x);
  }

  lemma DispatchStill(s: Pool, w: nat, x: set<TaskId>)
    requires Shape(s) && w < |s.ready| && Known(s, s.ready[w]) && Still(s, x)
    ensures Still(Dispatch(s, w), x) && Untouched(s, Dispatch(s, w), x)
  {
  }

  lemma DepartStill(s: Pool, w: nat, x: set<TaskId>)
    requires Still(s, x) && Executing(s, w)
    ensures Still(Depart(s, w), x) && s.cpu[w].task !in x
  {
  }

  lemma TimerStill(s: Pool, t: TaskId, wake: int, x: set<TaskId>)
    requires Still(s, x) && t < |s.tasks| && t !in x && Known(s, s.timers)
    ensures Still(AddTimer(s, t, wake), x) && Untouched(s, AddTimer(s, t, wake), x)
  {
    var tasks := s.tasks[t := s.tasks[t].(wake := wake, status := Blocked)];
    var k := InsertByWakeSplits(tasks, s.timers, t);
    OffConcat(s.timers[..k] + [t], s.timers[k..], x);
    OffConcat(s.timers[..k], [t], x);
  }

  lemma WaiterStill(s: Pool, t: TaskId, on: TaskId, x: set<TaskId>)
    requires Still(s, x) && t < |s.tasks| && on < |s.tasks| && t !in x
    ensures Still(AddWaiter(s, t, on), x) && Untouched(s, AddWaiter(s, t, on), x)
  {
    OffConcat([t], s.tasks[on].waiters, x);
  }

  lemma IoStill(s: Pool, t: TaskId, x: set<TaskId>)
    requires Still(s, x) && t < |s.tasks| && t !in x
    ensures Still(EnterIo(s, t), x) && Untouched(s, EnterIo(s, t), x)
    ensures Still(AddIo(s, t), x) && Untouched(s, AddIo(s, t), x)
  {
    OffConcat([t], s.iowait, x);
  }

  lemma WakeOneStill(s: Pool, u: TaskId, x: set<TaskId>)
    requires Shape(s) && u < |s.tasks| && u !in x && Still(s, x)
    requires s.tasks[u].waiters != [] && s.tasks[u].waiters[0] < |s.tasks|
    ensures Still(WakeOne(s, u), x) && Untouched(s, WakeOne(s, u), x)
  {
    var t := s.tasks[u].waiters[0];
    assert Off(s.tasks[u].waiters, x);
    assert Still(PopWaiter(s, u), x);
    PushStill(PopWaiter(s, u), t, x);
  }

  lemma {:induction false} WakeWaitersStill(s: Pool, u: TaskId, x: set<TaskId>)
    requires Shape(s) && u < |s.tasks| && Known(s, s.tasks[u].waiters) && u !in x && Still(s, x)
    ensures Still(WakeWaiters(s, u), x) && Untouched(s, WakeWaiters(s, u), x)
    decreases |s.tasks[u].waiters|
  {
    if s.tasks[u].waiters != [] {
      WakeOneStill(s, u, x);
      WakeWaitersStill(WakeOne(s, u), u, x);
    }
  }

  lemma FinishStill(s: Pool, w: nat, r: int, x: set<TaskId>)
    requires Closed(s) && Executing(s, w) && Still(s, x)
    ensures Still(FinishTask(s, w, r), x) && Untouched(s, FinishTask(s, w, r), x)
  {
    var t := s.cpu[w].task;
    var m := SetResult(s, t, r);
    assert Still(m, x);
    WakeWaitersStill(m, t, x);
  }

  lemma WakeIoOneStill(s: Pool, t: TaskId, x: set<TaskId>)
    requires Shape(s) && t < |s.tasks| && t !in x && Still(s, x)
    ensures Still(WakeIoOne(s, t), x) && Untouched(s, WakeIoOne(s, t), x)
  {
    OffWithout(s.iowait, t, x);
    PushStill(RemoveIo(s, t), t, x);
  }

  lemma {:induction false} WakeIoStill(s: Pool, es: seq<TaskId>, fired: set<TaskId>, x: set<TaskId>)
    requires Shape(s) && Known(s, es) && Off(es, x) && Still(s, x)
    ensures Still(WakeIo(s, es, fired), x) && Untouched(s, WakeIo(s, es, fired), x)
    decreases |es|
  {
    if es != [] {
      if es[0] in fired { WakeIoOneStill(s, es[0], x); }
      WakeIoStill(if es[0] in fired then WakeIoOne(s, es[0]) else s, es[1..], fired, x);
    }
  }

  /** No step wakes, runs or finishes a task that stays put. */
  lemma StepStill(s: Pool, step: Step, x: set<TaskId>)
    requires Closed(s) && Enabled(s, step) && Still(s, x)
    ensures Still(Apply(s, step), x) && SameStatus(s, Apply(s, step), x)
    ensures !step.MainAwait? && !step.MainResume? && !step.SeeQuiet? && !step.Cleanup? ==> Untouched(s, Apply(s, step), x)
    ensures step.MainAwait? || step.MainResume? ==>
      Apply(s, step).drains == s.drains && Apply(s, step).seen == s.seen && |Apply(s, step).tasks| == |s.tasks|
  {
    match step
    case Spawn => SpawnStill(s, x);
    case Turn(w, now) => TurnStill(s, w, now, x);
    case Yield(w) => SuspendStill(s, step, x);
    case Sleep(w, now, ms) => SuspendStill(s, step, x);
    case Await(w, on) => SuspendStill(s, step, x);
    case IoWait(w, ok) => SuspendStill(s, step, x);
    case Finish(w, r) => FinishStill(s, w, r, x);
    case Deliver(fired) => hide WakeIo; DeliverStill(s, fired, x);
    case SwapOut(w) => LeaveStill(s, w, x);
    case Detach(t) => DetachStill(s, t, x);
    case _ =>
  }

  lemma DeliverStill(s: Pool, fired: set<TaskId>, x: set<TaskId>)
    requires Closed(s) && Still(s, x)
    ensures Still(WakeIo(s.(polled := []), s.polled, fired), x)
    ensures Untouched(s, WakeIo(s.(polled := []), s.polled, fired), x)
  {
    hide WakeIo;
    WakeIoStill(s.(polled := []), s.polled, fired, x);
  }

  lemma SuspendStill(s: Pool, step: Step, x: set<TaskId>)
    requires Closed(s) && Enabled(s, step) && Still(s, x)
    requires step.Yield? || step.Sleep? || step.Await? || step.IoWait?
    ensures Still(Apply(s, step), x) && Untouched(s, Apply(s, step), x)
  {
    var m, t := Depart(s, step.w), s.cpu[step.w].task;
    DepartStill(s, step.w, x);
    assert Shape(m) && Known(m, m.timers);
    hide Still, Closed, Untouched;
    match step
    case Yield(_) =>
      PushStill(m, t, x);
      UntouchedFrom(s, m, Push(m, t), x);
    case Sleep(_, now, ms) =>
      TimerStill(m, t, now + ms, x);
      UntouchedFrom(s, m, AddTimer(m, t, now + ms), x);
    case Await(_, on) =>
      WaiterStill(m, t, on, x);
      UntouchedFrom(s, m, AddWaiter(m, t, on), x);
      UntouchedFrom(s, s, s, x);
    case IoWait(_, ok) =>
      IoWaitStill(m, t, ok, x);
      UntouchedFrom(s, m, Apply(s, step), x);
  }

  lemma IoWaitStill(s: Pool, t: TaskId, ok: bool, x: set<TaskId>)
    requires Shape(s) && Still(s, x) && t < |s.tasks| && t !in x
    ensures Shape(EnterIo(s, t))
    ensures var s' := if ok then AddIo(EnterIo(s, t), t) else Push(EnterIo(s, t), t); Still(s', x) && Untouched(s, s', x)
  {
    var m := EnterIo(s, t);
    assert Shape(m);
    hide Still, Untouched, Shape;
    IoStill(s, t, x);
    if ok {
      IoStill(m, t, x);
      UntouchedTransitive(s, m, AddIo(m, t), x);
    } else {
      PushStill(m, t, x);
      UntouchedTransitive(s, m, Push(m, t), x);
    }
  }

  lemma UntouchedFrom(s: Pool, m: Pool, s': Pool, x: set<TaskId>)
    requires m == s.(cpu := m.cpu) && (s' == m || Untouched(m, s', x))
    ensures Untouched(s, s', x)
  {
  }

  lemma UntouchedTransitive(a: Pool, b: Pool, c: Pool, x: set<TaskId>)
    requires Untouched(a, b, x) && Untouched(b, c, x)
    ensures Untouched(a, c, x)
  {
  }

  lemma SpawnStill(s: Pool, x: set<TaskId>)
    requires Shape(s) && Still(s, x)
    ensures Still(SpawnTask(s), x) && Untouched(s, SpawnTask(s), x)
  {
    var t := Task(s.spin % |s.ready|, Ready, false, false, 0, -1, [], 0, 0, Plain, 0);
    var m := s.(tasks := s.tasks + [t], spin := s.spin + 1);
    assert Still(m, x);
    PushStill(m, |s.tasks|, x);
  }

  lemma LeaveStill(s: Pool, w: nat, x: set<TaskId>)
    requires w < |s.cpu| && s.cpu[w].Leaves? && s.cpu[w].task < |s.tasks| && Still(s, x)
    ensures Still(LeaveStack(s, w), x) && Untouched(s, LeaveStack(s, w), x)
  {
  }

  lemma DetachStill(s: Pool, t: TaskId, x: set<TaskId>)
    requires t < |s.tasks| && Still(s, x)
    ensures Still(DetachTask(s, t), x) && Untouched(s, DetachTask(s, t), x)
  {
  }

  /** A worker leaves only the stack of a task it was running. */
  lemma StepOffStack(s: Pool, step: Step, x: set<TaskId>)
    requires Closed(s) && Enabled(s, step) && Still(s, x) && OffStack(s, x)
    ensures OffStack(Apply(s, step), x)
  {
    match step
    case Deliver(fired) => WakeIoCpu(s.(polled := []), s.polled, fired);
    case _ =>
  }

  lemma {:induction false} WakeIoCpu(s: Pool, es: seq<TaskId>, fired: set<TaskId>)
    requires Shape(s) && Known(s, es)
    ensures WakeIo(s, es, fired).cpu == s.cpu
    decreases |es|
  {
    if es != [] { WakeIoCpu(if es[0] in fired then WakeIoOne(s, es[0]) else s, es[1..], fired); }
  }

  // --------------------------------------------------------- the window, in every run

  /** The tasks spawned first, `n` of them. */
  ghost function Below(n: nat): set<TaskId> { if n == 0 then {} else Below(n - 1) + {n - 1} }

  lemma {:induction false} BelowMembers(n: nat)
    ensures forall t: TaskId :: t in Below(n) <==> t < n
  {
    if n > 0 {
      BelowMembers(n - 1);
      assert forall t: TaskId :: t in Below(n) <==> t in Below(n - 1) || t == n - 1;
    }
  }

  /** While a run_all is between check and cleanup, the tasks it saw stay put. */
  ghost predicate WindowOk(s: Pool) {
    s.drains > 0 ==> s.seen <= |s.tasks| && Still(s, Below(s.seen)) && OffStack(s, Below(s.seen))
  }

  lemma QuietIsStill(s: Pool)
    requires Inv(s) && Quiescent(s)
    ensures Still(s, Below(|s.tasks|)) && OffStack(s, Below(|s.tasks|))
  {
    var at :| Placed(s, at, {}, None);
    QuietWaits(s, at);
    BelowMembers(|s.tasks|);
    hide Placed, Below;
  }

  lemma WindowOpens(s: Pool)
    requires Inv(s) && Closed(s) && Quiescent(s)
    ensures WindowOk(Apply(s, SeeQuiet))
  {
    hide Inv, Still, OffStack, Closed, Quiescent;
    QuietIsStill(s);
    StepStill(s, SeeQuiet, Below(|s.tasks|));
    StepOffStack(s, SeeQuiet, Below(|s.tasks|));
  }

  lemma WindowStays(s: Pool, step: Step)
    requires Closed(s) && Enabled(s, step) && !step.SeeQuiet? && WindowOk(s)
    ensures WindowOk(Apply(s, step))
  {
    var x := if s.drains > 0 then Below(s.seen) else {};
    assert Still(s, {});
    hide Still, OffStack, Closed, Below;
    StepStill(s, step, x);
    if s.drains > 0 { StepOffStack(s, step, x); }
    assert step.Cleanup? ==> |Apply(s, step).tasks| == |s.tasks| && Apply(s, step).seen == s.seen;
    hide Apply;
  }

  lemma WindowStep(s: Pool, s': Pool)
    requires Inv(s) && Next(s, s') && WindowOk(s)
    ensures WindowOk(s')
  {
    hide Inv, WindowOk, Closed, Apply;
    var step :| Enabled(s, step) && (step.Cleanup? ==> Unused(s)) && s' == Apply(s, step);
    if step.SeeQuiet? { WindowOpens(s); } else { WindowStays(s, step); }
  }

  lemma {:induction false} RunWindow(states: seq<Pool>)
    requires Run(states)
    ensures forall i :: 0 <= i < |states| ==> WindowOk(states[i])
  {
    hide Inv, Next, Still, OffStack;
    RunInv(states);
    var n :| n > 0 && states[0] == Start(n);
    assert WindowOk(states[0]);
    hide WindowOk;
    var k := 0;
    while k < |states| - 1
      invariant 0 <= k < |states| && forall i :: 0 <= i <= k ==> WindowOk(states[i])
    {
      assert Next(states[k], states[k + 1]);
      WindowStep(states[k], states[k + 1]);
      k := k + 1;
    }
  }

  lemma ReachableWindow(s: Pool)
    requires Reachable(s)
    ensures WindowOk(s)
  {
    hide Next, WindowOk;
    var states :| Run(states) && states[|states| - 1] == s;
    RunWindow(states);
  }

  // ------------------------------------------------------------ what could still run

  /** Task `t` is queued, timed, waiting for I/O or being executed. */
  ghost predicate Scheduled(s: Pool, t: TaskId) {
    || (exists w :: 0 <= w < |s.ready| && t in s.ready[w])
    || t in s.timers || t in s.iowait
    || (exists w :: 0 <= w < |s.cpu| && s.cpu[w] == Runs(t))
  }

  /** Task `t` is scheduled or a worker has not yet left its stack. */
  ghost predicate Busy(s: Pool, t: TaskId) {
    Scheduled(s, t) || exists w :: 0 <= w < |s.cpu| && s.cpu[w] == Leaves(t)
  }

  /** Each task of `c` waits on the next one. */
  ghost predicate AwaitPath(s: Pool, c: seq<TaskId>) {
    && |c| > 0
    && (forall i :: 0 <= i < |c| ==> c[i] < |s.tasks|)
    && forall i, j :: 0 <= i < j < |c| && j == i + 1 ==> c[i] in s.tasks[c[j]].waiters
  }

  /** Task `t` is scheduled, or its awaits lead to a task that is. */
  ghost predicate CouldRun(s: Pool, t: TaskId) {
    exists c :: AwaitPath(s, c) && c[0] == t && Scheduled(s, c[|c| - 1])
  }

  lemma QuietMeansNoneBusy(s: Pool, at: Places)
    requires Placed(s, at, {}, None)
    ensures Quiescent(s) <==> forall t :: !Busy(s, t)
  {
    if Quiescent(s) {
      QuietWaits(s, at);
    } else {
      var t := BusyOne(s, at);
    }
  }

  lemma BusyOne(s: Pool, at: Places) returns (t: TaskId)
    requires Placed(s, at, {}, None) && !Quiescent(s)
    ensures Busy(s, t)
  {
    TotalLengthZero(s.ready);
    if w :| 0 <= w < |s.ready| && s.ready[w] != [] {
      t := s.ready[w][0];
    } else if s.timers != [] {
      t := s.timers[0];
    } else if s.iowait != [] {
      t := s.iowait[0];
    } else {
      var w :| 0 <= w < |s.cpu| && s.cpu[w] != Idle;
      t := s.cpu[w].task;
      assert s.cpu[w] == Runs(t) || s.cpu[w] == Leaves(t);
    }
  }

  lemma BusyIsLive(s: Pool, at: Places, t: TaskId)
    requires Placed(s, at, {}, None) && Busy(s, t)
    ensures Live(s, t)
  {
  }

  lemma StillIsNotBusy(s: Pool, x: set<TaskId>, t: TaskId)
    requires Still(s, x) && t in x
    ensures !Scheduled(s, t) && (OffStack(s, x) ==> !Busy(s, t))
  {
  }

  /** Task `t` is in use: it could still run, or a worker is on its stack. */
  ghost predicate InUse(s: Pool, t: TaskId) { CouldRun(s, t) || Busy(s, t) }

  lemma BusyIsInUse(s: Pool, at: Places, t: TaskId)
    requires Placed(s, at, {}, None) && Busy(s, t)
    ensures Live(s, t) && InUse(s, t)
  {
    BusyIsLive(s, at, t);
  }

  lemma InUseFindsBusy(s: Pool, t: TaskId) returns (u: TaskId)
    requires InUse(s, t)
    ensures Busy(s, u)
  {
    if Busy(s, t) {
      u := t;
    } else {
      var c :| AwaitPath(s, c) && c[0] == t && Scheduled(s, c[|c| - 1]);
      u := c[|c| - 1];
    }
  }

  lemma BusyIsNew(s: Pool, t: TaskId)
    requires WindowOk(s) && s.drains > 0 && Busy(s, t)
    ensures s.seen <= t
  {
    BelowMembers(s.seen);
    hide Below, Busy;
    if t < s.seen { StillIsNotBusy(s, Below(s.seen), t); }
  }

  /**
   Over all runs, a cleanup frees a task that could still run or is on a stack if and only
   if some task spawned since the last check is queued, timed, waiting for I/O or on a
   stack; which is to say, if and only if the pool is not quiescent again.
   */
  lemma CleanupIsUnsafeExactly(s: Pool)
    requires Reachable(s) && s.drains > 0
    ensures (exists t :: Live(s, t) && !Live(ReclaimAll(s), t) && InUse(s, t))
       <==> (exists t :: s.seen <= t && Busy(s, t))
    ensures (exists t :: s.seen <= t && Busy(s, t)) <==> !Quiescent(s)
  {
    hide Reachable, Placed, InUse, Busy, Quiescent;
    var at := ReachablePlaced(s);
    ReachableWindow(s);
    QuietMeansNoneBusy(s, at);
    hide WindowOk;
    forall t | Busy(s, t) ensures Live(s, t) && InUse(s, t) && s.seen <= t {
      BusyIsInUse(s, at, t);
      BusyIsNew(s, t);
    }
    if t :| InUse(s, t) { var u := InUseFindsBusy(s, t); }
  }

  // -------------------------------------------------------------- continuations of a run

  /** Each state follows from the one before it. */
  ghost predicate Trace(states: seq<Pool>) {
    |states| > 0 && forall i :: 0 <= i < |states| - 1 ==> Next(states[i], states[i + 1])
  }

  ghost predicate Leads(s: Pool, s': Pool) {
    exists states :: Trace(states) && states[0] == s && states[|states| - 1] == s'
  }

  ghost function Idlers(s: Pool): set<TaskId> { set t | t in Below(|s.tasks|) && !CouldRun(s, t) }

  lemma PathGrows(s: Pool, t: TaskId, c: seq<TaskId>)
    requires AwaitPath(s, c) && t < |s.tasks| && t in s.tasks[c[0]].waiters
    ensures AwaitPath(s, [t] + c) && ([t] + c)[0] == t && ([t] + c)[|c|] == c[|c| - 1]
  {
  }

  lemma WaiterCouldRun(s: Pool, t: TaskId, u: TaskId)
    requires CouldRun(s, u) && u < |s.tasks| && t < |s.tasks| && t in s.tasks[u].waiters
    ensures CouldRun(s, t)
  {
    hide Scheduled;
    var c :| AwaitPath(s, c) && c[0] == u && Scheduled(s, c[|c| - 1]);
    PathGrows(s, t, c);
  }

  lemma ScheduledCouldRun(s: Pool, t: TaskId)
    requires Scheduled(s, t) && t < |s.tasks|
    ensures CouldRun(s, t)
  {
    hide Scheduled;
    assert AwaitPath(s, [t]) && [t][0] == t;
  }

  lemma IdlersMembers(s: Pool)
    ensures forall t: TaskId :: t in Idlers(s) <==> t < |s.tasks| && !CouldRun(s, t)
  {
    BelowMembers(|s.tasks|);
    hide Below, CouldRun;
  }

  lemma UnscheduledIsStill(s: Pool, x: set<TaskId>)
    requires forall i :: 0 <= i < |s.polled| ==> s.polled[i] in s.iowait
    requires forall t :: t in x ==> t < |s.tasks| && !Scheduled(s, t)
    requires forall u :: 0 <= u < |s.tasks| && u !in x ==> Off(s.tasks[u].waiters, x)
    ensures Still(s, x)
  {
    forall w | 0 <= w < |s.ready| ensures Off(s.ready[w], x) {
      forall i | 0 <= i < |s.ready[w]| ensures s.ready[w][i] !in x { assert s.ready[w][i] in s.ready[w]; }
    }
  }

  /** The tasks that could not run stay put. */
  lemma IdlersStayPut(s: Pool)
    requires Inv(s)
    ensures Still(s, Idlers(s))
  {
    var at :| Placed(s, at, {}, None);
    PlacedIsClosed(s, at, {}, None);
    var x := Idlers(s);
    IdlersMembers(s);
    hide Placed, CouldRun, Idlers, Scheduled, Still;
    forall t | t in x ensures !Scheduled(s, t) {
      if Scheduled(s, t) { ScheduledCouldRun(s, t); }
    }
    forall u | 0 <= u < |s.tasks| && u !in x ensures Off(s.tasks[u].waiters, x) {
      forall i | 0 <= i < |s.tasks[u].waiters| ensures s.tasks[u].waiters[i] !in x {
        WaiterCouldRun(s, s.tasks[u].waiters[i], u);
      }
    }
    assert forall i :: 0 <= i < |s.polled| ==> s.polled[i] in s.iowait by { CapturedIsListed(s, at); }
    UnscheduledIsStill(s, x);
  }

  lemma CapturedIsListed(s: Pool, at: Places)
    requires Placed(s, at, {}, None)
    ensures forall i :: 0 <= i < |s.polled| ==> s.polled[i] in s.iowait
  {
  }

  /** Tasks that stay put do so, unfinished or done as they are, in every continuation. */
  lemma {:induction false} TraceStill(states: seq<Pool>, x: set<TaskId>)
    requires Trace(states) && Still(states[0], x)
    ensures forall i :: 0 <= i < |states| ==> Still(states[i], x) && SameStatus(states[0], states[i], x)
  {
    hide Still, Next;
    var k := 0;
    while k < |states| - 1
      invariant 0 <= k < |states|
      invariant forall i :: 0 <= i <= k ==> Still(states[i], x) && SameStatus(states[0], states[i], x)
    {
      assert Next(states[k], states[k + 1]);
      NextStill(states[k], states[k + 1], x);
      k := k + 1;
    }
  }

  lemma NextStill(s: Pool, s': Pool, x: set<TaskId>)
    requires Next(s, s') && Still(s, x)
    ensures Still(s', x) && SameStatus(s, s', x)
  {
    hide Still, Apply, SameStatus;
    var step :| Enabled(s, step) && (step.Cleanup? ==> Unused(s)) && s' == Apply(s, step);
    StepStill(s, step, x);
  }

  /** A task that could not run is never scheduled again, whatever else happens. */
  lemma StuckForever(s: Pool, s': Pool, t: TaskId)
    requires Inv(s) && t < |s.tasks| && !CouldRun(s, t) && Leads(s, s')
    ensures !Scheduled(s', t) && t < |s'.tasks| && s'.tasks[t].status == s.tasks[t].status
  {
    hide Inv, Next, Still, CouldRun, Scheduled, Idlers;
    IdlersStayPut(s);
    IdlersMembers(s);
    var states :| Trace(states) && states[0] == s && states[|states| - 1] == s';
    TraceStill(states, Idlers(s));
    StillIsNotBusy(s', Idlers(s), t);
  }

  // ------------------------------------------------------------------ the outside awaiter

  /** An awaiter whose task stays put, undone, stays parked. */
  lemma ParkedStep(s: Pool, s': Pool, x: set<TaskId>, t: TaskId)
    requires Next(s, s') && Still(s, x) && t in x && t < |s.tasks| && s.tasks[t].status != Done && s.mainWait == Some(t)
    ensures Still(s', x) && t < |s'.tasks| && s'.tasks[t].status != Done && s'.mainWait == Some(t)
  {
    hide Still;
    var step :| Enabled(s, step) && (step.Cleanup? ==> Unused(s)) && s' == Apply(s, step);
    StepStill(s, step, x);
    assert s'.tasks[t].status == s.tasks[t].status;
    assert step.SeeQuiet? ==> s'.mainWait == s.mainWait;
    hide Apply;
  }

  lemma {:induction false} ParkedForever(states: seq<Pool>, x: set<TaskId>, t: TaskId)
    requires Trace(states) && Still(states[0], x) && t in x && t < |states[0].tasks|
    requires states[0].tasks[t].status != Done && states[0].mainWait == Some(t)
    ensures forall i :: 0 <= i < |states| ==> states[i].mainWait == Some(t)
  {
    hide Still, Next;
    var k := 0;
    while k < |states| - 1
      invariant 0 <= k < |states| && Still(states[k], x)
      invariant t < |states[k].tasks| && states[k].tasks[t].status != Done
      invariant forall i :: 0 <= i <= k ==> states[i].mainWait == Some(t)
    {
      assert Next(states[k], states[k + 1]);
      ParkedStep(states[k], states[k + 1], x, t);
      k := k + 1;
    }
  }

  /**
   A cleanup frees the task of a parked outside awaiter under it. An awaiter parked on a
   task that run_all saw can get away before the cleanup if and only if that task is done.
   */
  lemma AwaiterEscapesExactly(s: Pool, t: TaskId)
    requires Reachable(s) && s.drains > 0 && s.mainWait == Some(t)
    ensures Live(s, t) && !Live(ReclaimAll(s), t)
    ensures t < s.seen ==> (s.tasks[t].status == Done <==> exists s' :: Leads(s, s') && s'.mainWait != Some(t))
  {
    hide Reachable;
    var at := ReachablePlaced(s);
    assert Live(s, t);
    if t < s.seen && s.tasks[t].status == Done {
      DoneEscapes(s, at, t);
    } else if t < s.seen {
      ReachableWindow(s);
      BelowMembers(s.seen);
      hide Placed, Below, Still, Next;
      forall s' | Leads(s, s') ensures s'.mainWait == Some(t) {
        var states :| Trace(states) && states[0] == s && states[|states| - 1] == s';
        ParkedForever(states, Below(s.seen), t);
      }
    }
  }

  lemma DoneEscapes(s: Pool, at: Places, t: TaskId)
    requires Placed(s, at, {}, None) && s.mainWait == Some(t) && t < |s.tasks| && s.tasks[t].status == Done
    ensures exists s' :: Leads(s, s') && s'.mainWait != Some(t)
  {
    hide Placed, Leads;
    StepLeads(s, MainResume);
  }

  lemma StepLeads(s: Pool, step: Step)
    requires Inv(s) && Enabled(s, step) && !step.Cleanup?
    ensures Closed(s) && Inv(Apply(s, step)) && Leads(s, Apply(s, step))
  {
    hide Placed, Apply, Closed;
    var at :| Placed(s, at, {}, None);
    var at' := StepPlaces(s, at, step);
    NextLeads(s, Apply(s, step), step);
  }

  lemma NextLeads(s: Pool, s': Pool, step: Step)
    requires Closed(s) && Enabled(s, step) && !step.Cleanup? && s' == Apply(s, step)
    ensures Leads(s, s')
  {
    hide Apply, Closed;
    assert Next(s, s');
    hide Next;
    assert Trace([s, s']);
  }
}
