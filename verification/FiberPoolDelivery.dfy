/** What the executor hands out, over whole runs: results to those who await them, and sleep to sleepers. */
module FiberPoolDelivery {
  import opened Seqs
  import opened FiberPool
  import opened FiberPoolInvariant
  import opened FiberPoolRuns
  import opened FiberPoolTheorems
  import opened FiberPoolDrain
  import opened FiberPoolProgress

  // --------------------------------------------------------------------- results

  /** What serving the waiters of `u` does to task `x`. */
  lemma {:induction false} WakeWaitersHands(s: Pool, u: TaskId, x: TaskId)
    requires Shape(s) && u < |s.tasks| && Known(s, s.tasks[u].waiters) && u !in s.tasks[u].waiters && x < |s.tasks|
    ensures var s' := WakeWaiters(s, u);
      && s'.tasks[u] == s.tasks[u].(waiters := [])
      && (x != u && x !in s.tasks[u].waiters ==> s'.tasks[x] == s.tasks[x])
      && (x in s.tasks[u].waiters ==> s'.tasks[x] == s.tasks[x].(status := Ready, awaited := s.tasks[u].result))
    decreases |s.tasks[u].waiters|
  {
    var ws := s.tasks[u].waiters;
    if ws != [] {
      var m := WakeOne(s, u);
      assert m.tasks[u].waiters == ws[1..];
      assert ws == [ws[0]] + ws[1..];
      WakeWaitersHands(m, u, x);
    } else {
      assert s.tasks[u].(waiters := []) == s.tasks[u];
    }
  }

  /** From `s` to `s'` task `t` finished with `r`; those in `ws` were handed `r` and made ready. */
  ghost predicate HandsOut(s: Pool, s': Pool, t: TaskId, ws: seq<TaskId>, r: int) {
    && t < |s.tasks| == |s'.tasks| && s'.tasks[t].status == Done && s'.tasks[t].result == r
    && (forall x :: x in ws ==> x < |s.tasks| && s'.tasks[x].awaited == r && s'.tasks[x].status == Ready)
    && (forall x :: 0 <= x < |s.tasks| && x != t && x !in ws ==> s'.tasks[x] == s.tasks[x])
  }

  /** A fiber whose function returned `r` is done with result `r`, and everyone who waited for it has `r` and is ready. */
  lemma FinishDelivers(s: Pool, w: nat, r: int)
    requires Inv(s) && Enabled(s, Finish(w, r))
    ensures Closed(s) && s.cpu[w].task < |s.tasks|
    ensures HandsOut(s, Apply(s, Finish(w, r)), s.cpu[w].task, s.tasks[s.cpu[w].task].waiters, r)
  {
    InvShape(s);
    RunnerAwaitsNothing(s, w);
    hide Inv, HandsOut;
    FinishHands(s, w, r);
  }

  lemma FinishHands(s: Pool, w: nat, r: int)
    requires Closed(s) && Executing(s, w) && s.cpu[w].task !in s.tasks[s.cpu[w].task].waiters
    ensures HandsOut(s, FinishTask(s, w, r), s.cpu[w].task, s.tasks[s.cpu[w].task].waiters, r)
  {
    var t := s.cpu[w].task;
    var m := SetResult(s, t, r);
    var ws := s.tasks[t].waiters;
    assert Known(s, ws);
    hide WakeWaiters;
    forall x | 0 <= x < |s.tasks| {
      WakeWaitersHands(m, t, x);
    }
    assert FinishTask(s, w, r).tasks == WakeWaiters(m, t).tasks[t := WakeWaiters(m, t).tasks[t].(status := Done)];
    hide Closed, FinishTask;
    forall x | x in ws ensures x < |s.tasks| {
      var i :| 0 <= i < |ws| && ws[i] == x;
    }
  }

  lemma RunnerAwaitsNothing(s: Pool, w: nat)
    requires Inv(s) && Executing(s, w)
    ensures s.cpu[w].task < |s.tasks| && s.cpu[w].task !in s.tasks[s.cpu[w].task].waiters
  {
    var at :| Placed(s, at, {}, None);
    var t := s.cpu[w].task;
    assert Lists(s, at, s.tasks[t].waiters, Waiting(t));
  }

  /** A done task keeps its result in every continuation, and the invariant holds there. */
  lemma {:induction false} TraceKeepsResult(states: seq<Pool>, t: TaskId)
    requires Trace(states) && Inv(states[0]) && t < |states[0].tasks| && states[0].tasks[t].status == Done
    ensures var s, s' := states[0], states[|states| - 1];
      Inv(s') && t < |s'.tasks| && s'.tasks[t].status == Done && s'.tasks[t].result == s.tasks[t].result
  {
    hide Inv, Next;
    var k := 0;
    while k < |states| - 1
      invariant 0 <= k < |states| && Inv(states[k]) && t < |states[k].tasks|
      invariant states[k].tasks[t].status == Done && states[k].tasks[t].result == states[0].tasks[t].result
    {
      assert Next(states[k], states[k + 1]);
      InvStep(states[k], states[k + 1]);
      NextKeepsResult(states[k], states[k + 1], t);
      k := k + 1;
    }
  }

  lemma NextKeepsResult(s: Pool, s': Pool, t: TaskId)
    requires Inv(s) && Next(s, s') && t < |s.tasks| && s.tasks[t].status == Done
    ensures t < |s'.tasks| && s'.tasks[t].status == Done && s'.tasks[t].result == s.tasks[t].result
  {
    hide Placed, Apply, Closed, Enabled;
    var at :| Placed(s, at, {}, None);
    var step :| Enabled(s, step) && (step.Cleanup? ==> Unused(s)) && s' == Apply(s, step);
    StepLife(s, at, step, t);
  }

  /**
   Whatever happens after a fiber's function returned `r`: the task's result stays `r`, which is what
   an await of it returns at once and an outside awaiter leaves with, and every fiber that resumes
   inside an await of it finds `r`.
   */
  lemma ReturnedIsAwaited(s: Pool, w: nat, r: int, s': Pool, x: TaskId)
    requires Reachable(s) && Enabled(s, Finish(w, r)) && Closed(s) && Leads(Apply(s, Finish(w, r)), s')
    ensures var t := s.cpu[w].task;
      && t < |s'.tasks| && s'.tasks[t].status == Done && s'.tasks[t].result == r
      && (x < |s'.tasks| && s'.tasks[x].resume == InAwait(t) ==> s'.tasks[x].awaited == r)
  {
    hide Reachable, Apply, Inv, Next;
    var t := s.cpu[w].task;
    ReachableInv(s);
    FinishDelivers(s, w, r);
    StepLeads(s, Finish(w, r));
    var states :| Trace(states) && states[0] == Apply(s, Finish(w, r)) && states[|states| - 1] == s';
    TraceKeepsResult(states, t);
    if x < |s'.tasks| && s'.tasks[x].resume == InAwait(t) { AwaitedDone(s', x, t); }
  }

  lemma AwaitedDone(s: Pool, x: TaskId, t: TaskId)
    requires Inv(s) && x < |s.tasks| && t < |s.tasks| && s.tasks[t].status == Done && s.tasks[x].resume == InAwait(t)
    ensures s.tasks[x].awaited == s.tasks[t].result
  {
    var at: Places :| Placed(s, at, {}, None);
  }

  // --------------------------------------------------------------------- sleepers

  /** Task `t` sleeps until the clock shows `due`. */
  ghost predicate Asleep(s: Pool, t: TaskId, due: int) {
    t in s.timers && t < |s.tasks| && s.tasks[t].wake == due && s.tasks[t].status == Blocked
  }

  /** The step sees a clock at or past `due`. */
  predicate Late(step: Step, due: int) { step.Turn? && step.now >= due }

  /** Sleeping puts the fiber to sleep until `ms` after `now`. */
  lemma SleepSleeps(s: Pool, w: nat, now: int, ms: int)
    requires Inv(s) && Enabled(s, Sleep(w, now, ms))
    ensures Closed(s) && Asleep(Apply(s, Sleep(w, now, ms)), s.cpu[w].task, now + ms)
  {
    InvShape(s);
    hide Inv;
    TimerHolds(Depart(s, w), s.cpu[w].task, now + ms);
    hide AddTimer;
  }

  lemma TimerHolds(s: Pool, t: TaskId, wake: int)
    requires t < |s.tasks| && Known(s, s.timers)
    ensures Asleep(AddTimer(s, t, wake), t, wake)
  {
    var tasks := s.tasks[t := s.tasks[t].(wake := wake, status := Blocked)];
    var k := InsertByWakeSplits(tasks, s.timers, t);
    assert (s.timers[..k] + [t] + s.timers[k..])[k] == t;
    hide InsertByWake;
  }

  /** A sleeper is on no other list and runs on no worker. */
  lemma AsleepIsElsewhere(s: Pool, at: Places, t: TaskId)
    requires Placed(s, at, {}, None) && t in s.timers
    ensures t < |s.tasks| == |at| && s.ntimers > 0 && t !in s.polled
    ensures forall w :: 0 <= w < |s.ready| ==> t !in s.ready[w]
    ensures forall w :: 0 <= w < |s.cpu| ==> s.cpu[w] != Runs(t)
    ensures forall u :: 0 <= u < |s.tasks| ==> t !in s.tasks[u].waiters
  {
    assert at[t] == Timed;
    forall u | 0 <= u < |s.tasks| ensures t !in s.tasks[u].waiters {
      assert Lists(s, at, s.tasks[u].waiters, Waiting(u));
    }
  }

  lemma {:induction false} FireDueLeaves(s: Pool, now: int, t: TaskId, due: int)
    requires Shape(s) && Known(s, s.timers) && Asleep(s, t, due) && now < due
    ensures Asleep(FireDue(s, now), t, due)
    decreases |s.timers|
  {
    if s.timers != [] && s.tasks[s.timers[0]].wake <= now {
      assert s.timers == [s.timers[0]] + s.timers[1..];
      FireDueLeaves(FireOne(s), now, t, due);
    }
  }

  lemma TurnLeaves(s: Pool, at: Places, w: nat, now: int, t: TaskId, due: int)
    requires Placed(s, at, {}, None) && |at| == |s.tasks| && Closed(s) && w < |s.ready| && Asleep(s, t, due) && now < due
    ensures Asleep(TakeTurn(s, w, now), t, due)
  {
    hide Placed;
    FireDueLeaves(s, now, t, due);
    var at' := FireDuePlaces(s, at, now);
    FireDueKeepsQueues(s, now);
    AsleepIsElsewhere(FireDue(s, now), at', t);
    hide FireDue;
  }

  lemma {:induction false} WakeWaitersLists(s: Pool, u: TaskId)
    requires Shape(s) && u < |s.tasks| && Known(s, s.tasks[u].waiters)
    ensures WakeWaiters(s, u).timers == s.timers && WakeWaiters(s, u).iowait == s.iowait
    decreases |s.tasks[u].waiters|
  {
    if s.tasks[u].waiters != [] { WakeWaitersLists(WakeOne(s, u), u); }
  }

  lemma {:induction false} WakeIoLeaves(s: Pool, es: seq<TaskId>, fired: set<TaskId>, t: TaskId)
    requires Shape(s) && Known(s, es) && t < |s.tasks| && t !in es
    ensures WakeIo(s, es, fired).tasks[t] == s.tasks[t] && WakeIo(s, es, fired).timers == s.timers
    decreases |es|
  {
    if es != [] {
      assert es == [es[0]] + es[1..];
      WakeIoLeaves(if es[0] in fired then WakeIoOne(s, es[0]) else s, es[1..], fired, t);
    }
  }

  /** No step but a late turn ends a sleep. */
  lemma AsleepStep(s: Pool, step: Step, t: TaskId, due: int)
    requires Inv(s) && Closed(s) && Enabled(s, step) && (step.Cleanup? ==> Unused(s)) && Asleep(s, t, due) && !Late(step, due)
    ensures Asleep(Apply(s, step), t, due)
  {
    var at: Places :| Placed(s, at, {}, None);
    hide Inv, Placed, Asleep, Closed, Apply;
    match step
    case Turn(w, now) => TurnStepLeaves(s, at, w, now, t, due);
    case Sleep(w, now, ms) => SleepStepLeaves(s, at, w, now, ms, t, due);
    case Finish(w, r) => FinishStepLeaves(s, at, w, r, t, due);
    case Deliver(fired) => DeliverStepLeaves(s, at, fired, t, due);
    case Cleanup => AsleepIsUsed(s, at, t, due);
    case _ => OtherLeaves(s, at, step, t, due);
  }

  /** A pool with a sleeper is not quiescent. */
  lemma AsleepIsUsed(s: Pool, at: Places, t: TaskId, due: int)
    requires Placed(s, at, {}, None) && Asleep(s, t, due)
    ensures !Unused(s)
  {
    AsleepIsElsewhere(s, at, t);
  }

  lemma TurnStepLeaves(s: Pool, at: Places, w: nat, now: int, t: TaskId, due: int)
    requires Placed(s, at, {}, None) && Closed(s) && Enabled(s, Turn(w, now)) && Asleep(s, t, due) && now < due
    ensures Asleep(Apply(s, Turn(w, now)), t, due)
  {
    hide Placed;
    PlacedSize(s, at);
    TurnLeaves(s, at, w, now, t, due);
    hide TakeTurn;
  }

  lemma SleepStepLeaves(s: Pool, at: Places, w: nat, now: int, ms: int, t: TaskId, due: int)
    requires Placed(s, at, {}, None) && Closed(s) && Enabled(s, Sleep(w, now, ms)) && Asleep(s, t, due)
    ensures Asleep(Apply(s, Sleep(w, now, ms)), t, due)
  {
    hide Placed;
    AsleepIsElsewhere(s, at, t);
    SleepLeaves(Depart(s, w), s.cpu[w].task, now + ms, t, due);
    hide AddTimer;
  }

  lemma FinishStepLeaves(s: Pool, at: Places, w: nat, r: int, t: TaskId, due: int)
    requires Placed(s, at, {}, None) && Closed(s) && Enabled(s, Finish(w, r)) && Asleep(s, t, due)
    ensures Asleep(Apply(s, Finish(w, r)), t, due)
  {
    hide Placed;
    AsleepIsElsewhere(s, at, t);
    FinishLeaves(s, w, r, t, due);
    hide FinishTask;
  }

  lemma DeliverStepLeaves(s: Pool, at: Places, fired: set<TaskId>, t: TaskId, due: int)
    requires Placed(s, at, {}, None) && Closed(s) && Asleep(s, t, due)
    ensures Asleep(Apply(s, Deliver(fired)), t, due)
  {
    hide Placed, WakeIo;
    AsleepIsElsewhere(s, at, t);
    WakeIoLeaves(s.(polled := []), s.polled, fired, t);
  }

  lemma SleepLeaves(s: Pool, x: TaskId, wake: int, t: TaskId, due: int)
    requires Known(s, s.timers) && x < |s.tasks| && x != t && Asleep(s, t, due)
    ensures Asleep(AddTimer(s, x, wake), t, due)
  {
    var tasks := s.tasks[x := s.tasks[x].(wake := wake, status := Blocked)];
    var k := InsertByWakeSplits(tasks, s.timers, x);
    assert t in s.timers[..k] + [x] + s.timers[k..] by {
      assert s.timers == s.timers[..k] + s.timers[k..];
    }
    hide InsertByWake;
  }

  lemma FinishLeaves(s: Pool, w: nat, r: int, t: TaskId, due: int)
    requires Inv(s) && Closed(s) && Executing(s, w) && s.cpu[w].task != t && Asleep(s, t, due)
    requires t !in s.tasks[s.cpu[w].task].waiters
    ensures Asleep(FinishTask(s, w, r), t, due)
  {
    hide Inv, Apply, Closed;
    FinishDelivers(s, w, r);
    FinishLists(s, w, r);
    assert FinishTask(s, w, r) == Apply(s, Finish(w, r)) by { FinishIsApply(s, w, r); }
    hide FinishTask;
  }

  lemma FinishIsApply(s: Pool, w: nat, r: int)
    requires Closed(s) && Executing(s, w)
    ensures Apply(s, Finish(w, r)) == FinishTask(s, w, r)
  {
  }

  lemma FinishLists(s: Pool, w: nat, r: int)
    requires Closed(s) && Executing(s, w)
    ensures FinishTask(s, w, r).timers == s.timers && FinishTask(s, w, r).iowait == s.iowait
  {
    WakeWaitersLists(SetResult(s, s.cpu[w].task, r), s.cpu[w].task);
    hide WakeWaiters;
  }

  lemma OtherLeaves(s: Pool, at: Places, step: Step, t: TaskId, due: int)
    requires Placed(s, at, {}, None) && Closed(s) && Enabled(s, step) && Asleep(s, t, due)
    requires !step.Turn? && !step.Sleep? && !step.Finish? && !step.Deliver? && !step.Cleanup?
    ensures Asleep(Apply(s, step), t, due)
  {
    hide Placed;
    AsleepIsElsewhere(s, at, t);
    match step
    case Spawn => assert SpawnTask(s).tasks[t] == s.tasks[t];
    case _ =>
  }

  /** Firing at or past its time queues a sleeper at home. */
  lemma FireWakes(s: Pool, at: Places, now: int, t: TaskId)
    requires Placed(s, at, {}, None) && |at| == |s.tasks| && Closed(s) && t in s.timers && t < |s.tasks| && s.tasks[t].wake <= now
    ensures t in FireDue(s, now).ready[s.tasks[t].home]
  {
    hide Placed;
    var i :| 0 <= i < |s.timers| && s.timers[i] == t;
    var k := FireDueIsExact(s, at, now);
    assert s.timers[..k][i] == t;
    OfWorkerHolds(s.tasks, s.timers[..k], i);
  }

  /** Task `t` is in its home worker's queue or on its stack. */
  ghost predicate Awake(s: Pool, t: TaskId)
    requires t < |s.tasks|
  {
    var h := s.tasks[t].home;
    h < |s.ready| && h < |s.cpu| && (t in s.ready[h] || s.cpu[h] == Runs(t))
  }

  /** The first turn of any worker that sees the time queues the sleeper at home, or runs it. */
  lemma LateTurnWakes(s: Pool, w: nat, now: int, t: TaskId, due: int)
    requires Inv(s) && Closed(s) && Enabled(s, Turn(w, now)) && Asleep(s, t, due) && now >= due
    ensures var s' := Apply(s, Turn(w, now)); t < |s'.tasks| && Awake(s', t)
  {
    var at: Places :| Placed(s, at, {}, None);
    hide Inv, Placed, FireDue;
    PlacedSize(s, at);
    FireWakes(s, at, now, t);
    FireDueEffect(s, now, w);
    FireDueKeepsQueues(s, now);
    DispatchLeavesAwake(FireDue(s, now), w, t);
  }

  lemma DispatchLeavesAwake(s: Pool, w: nat, t: TaskId)
    requires Shape(s) && w < |s.ready| && Known(s, s.ready[w]) && t < |s.tasks| && t in s.ready[s.tasks[t].home]
    ensures t < |Dispatch(s, w).tasks| && Awake(Dispatch(s, w), t)
  {
    if w == s.tasks[t].home { DispatchEffect(s, w, t); }
  }

  ghost predicate Takes(s: Pool, step: Step, s': Pool) {
    Closed(s) && Enabled(s, step) && (step.Cleanup? ==> Unused(s)) && s' == Apply(s, step)
  }

  /** The states a run passes through, and the steps between them. */
  ghost predicate Passes(states: seq<Pool>, steps: seq<Step>) {
    |states| == |steps| + 1 && forall i :: 0 <= i < |steps| ==> Takes(states[i], steps[i], states[i + 1])
  }

  /** A fiber that sleeps `ms` from `now` sleeps through every step but a scheduler turn at or past `now + ms`. */
  lemma {:induction false} SleepLasts(states: seq<Pool>, steps: seq<Step>, w: nat, now: int, ms: int)
    requires Passes(states, steps) && |steps| > 0 && Reachable(states[0]) && steps[0] == Sleep(w, now, ms)
    requires forall i :: 1 <= i < |steps| ==> !Late(steps[i], now + ms)
    ensures Executing(states[0], w)
    ensures Asleep(states[|steps|], states[0].cpu[w].task, now + ms) && Inv(states[|steps|])
  {
    hide Reachable, Inv, Takes, Asleep;
    assert Takes(states[0], steps[0], states[1]);
    ReachableInv(states[0]);
    FallsAsleep(states[0], w, now, ms, states[1]);
    var t := states[0].cpu[w].task;
    var k := 1;
    while k < |steps|
      invariant 1 <= k <= |steps| && Inv(states[k]) && Asleep(states[k], t, now + ms)
    {
      SleepsOn(states[k], steps[k], states[k + 1], t, now + ms);
      k := k + 1;
    }
  }

  lemma FallsAsleep(s: Pool, w: nat, now: int, ms: int, s': Pool)
    requires Inv(s) && Takes(s, Sleep(w, now, ms), s')
    ensures Inv(s') && Executing(s, w) && Asleep(s', s.cpu[w].task, now + ms)
  {
    hide Inv, Closed, Apply, Asleep;
    SleepSleeps(s, w, now, ms);
    TakesInv(s, Sleep(w, now, ms), s');
  }

  lemma SleepsOn(s: Pool, step: Step, s': Pool, t: TaskId, due: int)
    requires Inv(s) && Takes(s, step, s') && Asleep(s, t, due) && !Late(step, due)
    ensures Inv(s') && Asleep(s', t, due)
  {
    hide Inv, Closed, Apply, Asleep, Enabled, Late;
    AsleepStep(s, step, t, due);
    TakesInv(s, step, s');
  }

  lemma TakesInv(s: Pool, step: Step, s': Pool)
    requires Inv(s) && Takes(s, step, s')
    ensures Inv(s')
  {
    hide Inv, Apply, Enabled, Closed, Unused;
    assert Next(s, s');
    InvStep(s, s');
  }

  /** And the first such turn, of whatever worker, queues it at home or runs it. */
  lemma SleepEnds(states: seq<Pool>, steps: seq<Step>, w: nat, now: int, ms: int, v: nat, clock: int)
    requires Passes(states, steps) && |steps| > 0 && Reachable(states[0]) && steps[0] == Sleep(w, now, ms)
    requires forall i :: 1 <= i < |steps| ==> !Late(steps[i], now + ms)
    requires Enabled(states[|steps|], Turn(v, clock)) && clock >= now + ms
    ensures Closed(states[|steps|]) && Executing(states[0], w)
    ensures var t := states[0].cpu[w].task; var s' := Apply(states[|steps|], Turn(v, clock));
      t < |s'.tasks| && Awake(s', t)
  {
    hide Reachable, Inv, Apply, Closed, Takes;
    SleepLasts(states, steps, w, now, ms);
    InvShape(states[|steps|]);
    LateTurnWakes(states[|steps|], v, clock, states[0].cpu[w].task, now + ms);
  }

  // ------------------------------------------------------------------ I/O deliveries

  /** The wait list after a delivery, entry by entry. */
  lemma {:induction false} WakeIoExactly(s: Pool, es: seq<TaskId>, fired: set<TaskId>, t: TaskId)
    requires Shape(s) && Known(s, es) && Distinct(es) && Distinct(s.iowait) && t < |s.tasks|
    ensures |WakeIo(s, es, fired).ready| == |s.ready|
    ensures t in WakeIo(s, es, fired).iowait <==> t in s.iowait && !(t in es && t in fired)
    ensures t in WakeIo(s, es, fired).ready[s.tasks[t].home] <==> t in s.ready[s.tasks[t].home] || (t in es && t in fired)
    ensures t !in es || t !in fired ==> WakeIo(s, es, fired).tasks[t] == s.tasks[t]
    decreases |es|
  {
    if es != [] {
      var e := es[0];
      var m := if e in fired then WakeIoOne(s, e) else s;
      assert es == [e] + es[1..];
      WithoutMembers(s.iowait, e);
      assert e in fired ==> m.ready[s.tasks[e].home] == s.ready[s.tasks[e].home] + [e];
      WakeIoExactly(m, es[1..], fired, t);
    }
  }

  /** From `s` to `s'` task `t` went from the wait list to its queue if `woken`, and stayed as it was if not. */
  ghost predicate Served(s: Pool, s': Pool, t: TaskId, woken: bool)
    requires t < |s.tasks|
  {
    var h := s.tasks[t].home;
    && h < |s.ready| == |s'.ready| && t < |s'.tasks|
    && (t in s'.iowait <==> t in s.iowait && !woken)
    && (t in s'.ready[h] <==> t in s.ready[h] || woken)
    && (!woken ==> s'.tasks[t] == s.tasks[t])
  }

  /** A delivery takes off the wait list, and queues, exactly the captured fibers whose descriptor fired. */
  lemma DeliverExactly(s: Pool, fired: set<TaskId>, t: TaskId)
    requires Inv(s) && t < |s.tasks|
    ensures Closed(s)
    ensures Served(s, Apply(s, Deliver(fired)), t, t in s.polled && t in fired)
  {
    assert Distinct(s.polled) && Distinct(s.iowait) by { CapturesDistinct(s); }
    hide Inv, Placed, WakeIo;
    InvShape(s);
    WakeIoExactly(s.(polled := []), s.polled, fired, t);
  }

  lemma CapturesDistinct(s: Pool)
    requires Inv(s)
    ensures Distinct(s.polled) && Distinct(s.iowait)
  {
    var at: Places :| Placed(s, at, {}, None);
  }
}
