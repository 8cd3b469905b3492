/** What the executor promises, read off any state of any run. */
module FiberPoolTheorems {
  import opened Seqs
  import opened FiberPool
  import opened FiberPoolInvariant
  import opened FiberPoolRuns

  // ------------------------------------------------------------------------ placement

  /** Task `t` is on the list that `p` names. */
  ghost predicate On(s: Pool, t: TaskId, p: Place)
    requires Shape(s) && t < |s.tasks|
  {
    match p
    case Queued => t in s.ready[s.tasks[t].home]
    case Timed => t in s.timers
    case Waiting(u) => u < |s.tasks| && t in s.tasks[u].waiters
    case OnIo => t in s.iowait
    case Nowhere => false
  }

  ghost predicate Suspended(s: Pool, t: TaskId)
    requires Shape(s) && t < |s.tasks|
  {
    Live(s, t) && s.tasks[t].status != Done && s.cpu[s.tasks[t].home] != Runs(t)
  }

  lemma OnIsAt(s: Pool, at: Places, t: TaskId, p: Place)
    requires Placed(s, at, {}, None) && t < |s.tasks|
    ensures On(s, t, p) <==> p != Nowhere && at[t] == p
  {
    if p.Waiting? && p.on < |at| {
      assert Lists(s, at, s.tasks[p.on].waiters, p);
    }
  }

  /**
   In every reachable state a suspended task is on exactly one list, no other task is on
   any, the lists hold no task twice, only the home worker's queue can hold a task, and
   the counters are the lengths of the lists.
   */
  lemma PlacementIsUnique(s: Pool)
    requires Reachable(s)
    ensures Shape(s)
    ensures forall t :: 0 <= t < |s.tasks| && Suspended(s, t) ==> exists p :: On(s, t, p)
    ensures forall t, p, q :: 0 <= t < |s.tasks| && On(s, t, p) && On(s, t, q) ==> p == q
    ensures forall t, p :: 0 <= t < |s.tasks| && On(s, t, p) ==> Suspended(s, t)
    ensures forall w, t :: 0 <= w < |s.ready| && t in s.ready[w] ==> t < |s.tasks| && w == s.tasks[t].home
    ensures Distinct(s.timers) && Distinct(s.iowait)
    ensures forall w :: 0 <= w < |s.ready| ==> Distinct(s.ready[w])
    ensures forall u :: 0 <= u < |s.tasks| ==> Distinct(s.tasks[u].waiters)
    ensures s.nready == TotalLength(s.ready) && s.ntimers == |s.timers| && s.niowait == |s.iowait|
  {
    hide Reachable;
    ReachableInv(s);
    var at :| Placed(s, at, {}, None);
    forall t, p | 0 <= t < |s.tasks|
      ensures On(s, t, p) <==> p != Nowhere && at[t] == p
    {
      OnIsAt(s, at, t, p);
    }
    SuspendedIsPlaced(s, at);
    assert forall u :: 0 <= u < |s.tasks| ==> Lists(s, at, s.tasks[u].waiters, Waiting(u));
    hide On, Suspended, WorkersOk, LifecycleOk;
    forall t | 0 <= t < |s.tasks| && Suspended(s, t)
      ensures exists p :: On(s, t, p)
    {
      assert On(s, t, at[t]);
    }
  }

  lemma SuspendedIsPlaced(s: Pool, at: Places)
    requires Placed(s, at, {}, None)
    ensures forall t :: 0 <= t < |s.tasks| ==> (Suspended(s, t) <==> at[t] != Nowhere)
  {
  }

  // --------------------------------------------------------------------- quiescence

  /** Each task of `c` waits on the next one, and none is done. */
  ghost predicate AwaitChain(s: Pool, c: seq<TaskId>) {
    && |c| > 0
    && (forall i :: 0 <= i < |c| ==> Live(s, c[i]) && s.tasks[c[i]].status != Done)
    && forall i, j :: 0 <= i < j < |c| && j == i + 1 ==> c[i] in s.tasks[c[j]].waiters
  }

  /** A chain whose last task waits on its first. */
  ghost predicate AwaitCycle(s: Pool, c: seq<TaskId>) {
    AwaitChain(s, c) && c[|c| - 1] in s.tasks[c[0]].waiters
  }

  /** Following the awaits of a quiescent state must run into a task already met. */
  lemma {:induction false} ChainFindsCycle(s: Pool, at: Places, c: seq<TaskId>) returns (cycle: seq<TaskId>)
    requires Placed(s, at, {}, None) && Quiescent(s) && AwaitChain(s, c) && Distinct(c)
    ensures AwaitCycle(s, cycle)
    decreases |s.tasks| - |c|
  {
    hide Placed, Quiescent;
    var u := NextAwaited(s, at, c[|c| - 1]);
    if u in c {
      var k :| 0 <= k < |c| && c[k] == u;
      ChainCloses(s, c, k);
      cycle := c[k..];
    } else {
      ChainGrows(s, c, u);
      DistinctIsShort(c + [u], |s.tasks|);
      cycle := ChainFindsCycle(s, at, c + [u]);
    }
  }

  lemma ChainCloses(s: Pool, c: seq<TaskId>, k: nat)
    requires AwaitChain(s, c) && k < |c| && c[|c| - 1] in s.tasks[c[k]].waiters
    ensures AwaitCycle(s, c[k..])
  {
  }

  lemma ChainGrows(s: Pool, c: seq<TaskId>, u: TaskId)
    requires AwaitChain(s, c) && Distinct(c) && u !in c && Live(s, u) && s.tasks[u].status != Done
    requires c[|c| - 1] in s.tasks[u].waiters
    ensures AwaitChain(s, c + [u]) && Distinct(c + [u]) && forall i :: 0 <= i < |c + [u]| ==> (c + [u])[i] < |s.tasks|
  {
  }

  lemma NextAwaited(s: Pool, at: Places, t: TaskId) returns (u: TaskId)
    requires Placed(s, at, {}, None) && Quiescent(s) && Live(s, t) && s.tasks[t].status != Done
    ensures Live(s, u) && s.tasks[u].status != Done && t in s.tasks[u].waiters
  {
    QuietWaits(s, at);
    u := at[t].on;
    assert Lists(s, at, s.tasks[u].waiters, Waiting(u));
  }

  /** A sequence of distinct numbers below `n` has at most `n` of them. */
  lemma {:induction false} DistinctIsShort(c: seq<TaskId>, n: nat)
    requires Distinct(c) && forall i :: 0 <= i < |c| ==> c[i] < n
    ensures |c| <= n
    decreases n
  {
    if c != [] {
      assert c[0] < n;
      var top: TaskId := n - 1;
      var d := Without(c, top);
      WithoutMembers(c, top);
      forall i | 0 <= i < |d|
        ensures d[i] < n - 1
      {
        assert d[i] in d;
      }
      DistinctIsShort(d, n - 1);
    }
  }

  /**
   When the quiescence test holds, every live task is done exactly when no tasks await
   each other in a circle. So nothing that could still run is left.
   */
  lemma QuiescenceIsSound(s: Pool)
    requires Reachable(s) && Quiescent(s)
    ensures (forall t :: 0 <= t < |s.tasks| && Live(s, t) ==> s.tasks[t].status == Done)
       <==> !exists c :: AwaitCycle(s, c)
  {
    hide Reachable, Quiescent, AwaitCycle, Placed;
    var at := ReachablePlaced(s);
    forall c | AwaitCycle(s, c)
      ensures exists t :: 0 <= t < |s.tasks| && Live(s, t) && s.tasks[t].status != Done
    {
      CycleIsUndone(s, c);
    }
    if t :| 0 <= t < |s.tasks| && Live(s, t) && s.tasks[t].status != Done {
      var c := UndoneFindsCycle(s, at, t);
    }
  }

  lemma ReachablePlaced(s: Pool) returns (at: Places)
    requires Reachable(s)
    ensures Placed(s, at, {}, None)
  {
    hide Reachable, Placed;
    ReachableInv(s);
    at :| Placed(s, at, {}, None);
  }

  lemma UndoneFindsCycle(s: Pool, at: Places, t: TaskId) returns (c: seq<TaskId>)
    requires Placed(s, at, {}, None) && Quiescent(s) && Live(s, t) && s.tasks[t].status != Done
    ensures AwaitCycle(s, c)
  {
    hide Placed, Quiescent, AwaitCycle;
    c := ChainFindsCycle(s, at, [t]);
  }

  lemma CycleIsUndone(s: Pool, c: seq<TaskId>)
    requires AwaitCycle(s, c)
    ensures exists t :: 0 <= t < |s.tasks| && Live(s, t) && s.tasks[t].status != Done
  {
    assert Live(s, c[0]) && s.tasks[c[0]].status != Done;
  }

  /** A quiescent pool stays quiescent until something is spawned from outside it. */
  lemma QuietUntilSpawn(s: Pool, step: Step)
    requires Inv(s) && Closed(s) && Quiescent(s) && Enabled(s, step)
    ensures Quiescent(Apply(s, step)) <==> step != Spawn
  {
    QuietLists(s);
    hide Inv, Closed, FireDue, WakeIo, WakeWaiters, FinishTask, TakeTurn, DetachTask, SpawnTask;
    match step
    case Turn(w, now) => QuietTurn(s, w, now);
    case Spawn => SpawnIsBusy(s);
    case Deliver(fired) => QuietDeliver(s, fired);
    case Detach(t) => QuietDetach(s, t);
    case _ =>
  }

  lemma QuietLists(s: Pool)
    requires Inv(s) && Quiescent(s)
    ensures s.timers == [] && s.polled == [] && forall w :: 0 <= w < |s.ready| ==> s.ready[w] == []
  {
    hide Placed;
    var at :| Placed(s, at, {}, None);
    QuietWaits(s, at);
  }

  lemma SpawnIsBusy(s: Pool)
    requires Shape(s) && Quiescent(s)
    ensures !Quiescent(SpawnTask(s))
  {
  }

  lemma QuietDeliver(s: Pool, fired: set<TaskId>)
    requires Closed(s) && Quiescent(s) && s.polled == []
    ensures Quiescent(Apply(s, Deliver(fired)))
  {
    assert WakeIo(s.(polled := []), s.polled, fired) == s.(polled := []);
  }

  lemma QuietDetach(s: Pool, t: TaskId)
    requires t < |s.tasks| && Quiescent(s)
    ensures Quiescent(DetachTask(s, t))
  {
  }

  lemma QuietTurn(s: Pool, w: nat, now: int)
    requires Closed(s) && Quiescent(s) && s.timers == [] && w < |s.ready| && s.ready[w] == []
    ensures Quiescent(TakeTurn(s, w, now))
  {
    assert FireDue(s, now) == s;
  }

  /**
   run_all drops the lock between its check and its cleanup. A spawn right before the
   cleanup is lost: it frees a task that is queued and was never run.
   */
  lemma SpawnInWindowIsLost(s: Pool)
    requires Inv(s) && s.drains > 0
    ensures Shape(s)
    ensures var m := SpawnTask(s); var t := |s.tasks|;
      && m.tasks[t].status == Ready && t in m.ready[m.tasks[t].home]
      && (forall w :: 0 <= w < |m.popped| ==> m.popped[w] == s.popped[w])
      && ReclaimAll(m).tasks[t].frees == 1 && ReclaimAll(m).tasks[t].status != Done
  {
  }

  // ------------------------------------------------------------------- fiber safety

  /** A fiber is only ever on its home worker's stack, hence on one stack at most. */
  lemma OneStack(s: Pool, v: nat, w: nat)
    requires Reachable(s) && v < |s.cpu| && w < |s.cpu| && s.cpu[v] != Idle && s.cpu[w] != Idle
    requires s.cpu[v].task == s.cpu[w].task
    ensures v == w && Live(s, s.cpu[v].task) && s.tasks[s.cpu[v].task].home == v
  {
    hide Reachable;
    ReachableInv(s);
    var at :| Placed(s, at, {}, None);
  }

  /** How one step may change the lifetime of task `t`. */
  ghost predicate LifeStep(s: Pool, s': Pool, step: Step, t: TaskId)
    requires t < |s.tasks|
  {
    && t < |s'.tasks| && s'.tasks[t].home == s.tasks[t].home
    && (s.tasks[t].ioResult == 0 ==> s'.tasks[t].ioResult == 0)
    && (s.tasks[t].status == Done ==> s'.tasks[t].status == Done && s'.tasks[t].result == s.tasks[t].result)
    && (s'.tasks[t].frees != s.tasks[t].frees ==>
          && s.tasks[t].frees == 0 && s'.tasks[t].frees == 1
          && (step.Cleanup? || (s'.tasks[t].reap && s'.tasks[t].status == Done && s'.tasks[t].fullyDone)))
  }

  lemma StepLife(s: Pool, at: Places, step: Step, t: TaskId)
    requires Placed(s, at, {}, None) && Closed(s) && Enabled(s, step) && t < |s.tasks|
    ensures LifeStep(s, Apply(s, step), step, t)
  {
    match step {
      case Turn(w, now) =>
        TurnLife(s, at, w, now, t);
      case Finish(w, r) =>
        FinishLife(s, at, w, r, t);
      case Deliver(fired) =>
        SideOnly(s, s.(polled := []), at);
        hide LifeStep;
        var at' := WakeIoPlaces(s.(polled := []), at, s.polled, fired);
        SameLivesLife(s, s.(polled := []), Apply(s, step), step, t);
      case Yield(w) => SuspendLife(s, at, step, t);
      case Sleep(w, _, _) => SuspendLife(s, at, step, t);
      case Await(w, _) => SuspendLife(s, at, step, t);
      case IoWait(w, _) => SuspendLife(s, at, step, t);
      case _ =>
        OtherLife(s, at, step, t);
    }
  }

  lemma SameLivesLife(s: Pool, m: Pool, s': Pool, step: Step, t: TaskId)
    requires s.tasks == m.tasks && SameLives(m, s') && t < |s.tasks|
    ensures LifeStep(s, s', step, t)
  {
  }

  lemma TurnLife(s: Pool, at: Places, w: nat, now: int, t: TaskId)
    requires Placed(s, at, {}, None) && |at| == |s.tasks| && Closed(s) && w < |s.cpu| && t < |s.tasks|
    ensures LifeStep(s, TakeTurn(s, w, now), Turn(w, now), t)
  {
    hide Placed;
    var at' := FireDuePlaces(s, at, now);
    FireDueKeepsQueues(s, now);
    var m := FireDue(s, now);
    assert m.tasks[t].frees == s.tasks[t].frees;
    if m.ready[w] != [] {
      assert TakeTurn(s, w, now).tasks == m.tasks[m.ready[w][0] := m.tasks[m.ready[w][0]].(fullyDone := false, resume := Plain)];
    }
  }

  lemma FinishLife(s: Pool, at: Places, w: nat, r: int, t: TaskId)
    requires Placed(s, at, {}, None) && |at| == |s.tasks| && Closed(s) && Executing(s, w) && t < |s.tasks|
    ensures LifeStep(s, FinishTask(s, w, r), Finish(w, r), t)
  {
    var u := s.cpu[w].task;
    assert s.tasks[u].status != Done && s.tasks[u].home == w && Live(s, u);
    hide Placed, LifeStep, SameLives;
    SetResultPlaces(s, at, u, r);
    var m := SetResult(s, u, r);
    var at' := WakeWaitersPlaces(m, at, u);
    DoneLife(s, WakeWaiters(m, u), FinishTask(s, w, r), Finish(w, r), u, r, t);
  }

  lemma DoneLife(s: Pool, m: Pool, s': Pool, step: Step, u: TaskId, r: int, t: TaskId)
    requires u < |s.tasks| && t < |s.tasks| && s.tasks[u].status != Done && SameLives(SetResult(s, u, r), m)
    requires s'.tasks == m.tasks[u := m.tasks[u].(status := Done)]
    ensures LifeStep(s, s', step, t)
  {
    assert m.tasks[t].frees == s.tasks[t].frees;
  }

  lemma SuspendLife(s: Pool, at: Places, step: Step, t: TaskId)
    requires Placed(s, at, {}, None) && Closed(s) && Enabled(s, step) && t < |s.tasks|
    requires step.Yield? || step.Sleep? || step.Await? || step.IoWait?
    ensures LifeStep(s, Apply(s, step), step, t)
  {
    assert s.tasks[s.cpu[step.w].task].status != Done && Known(s, s.timers);
    hide Placed, Closed;
    match step
    case Yield(w) => PushLife(s, Depart(s, w), s.cpu[w].task, step, t);
    case Sleep(w, now, ms) => TimerLife(s, Depart(s, w), s.cpu[w].task, now + ms, step, t);
    case Await(w, on) => if s.tasks[on].status != Done { WaiterLife(s, Depart(s, w), s.cpu[w].task, on, step, t); }
    case IoWait(w, ok) => IoLife(s, Depart(s, w), s.cpu[w].task, ok, step, t);
  }

  lemma TimerLife(s: Pool, m: Pool, x: TaskId, wake: int, step: Step, t: TaskId)
    requires m.tasks == s.tasks && x < |s.tasks| && t < |s.tasks| && s.tasks[x].status != Done && Known(m, m.timers)
    ensures LifeStep(s, AddTimer(m, x, wake), step, t)
  {
  }

  lemma WaiterLife(s: Pool, m: Pool, x: TaskId, on: TaskId, step: Step, t: TaskId)
    requires m.tasks == s.tasks && x < |s.tasks| && on < |s.tasks| && t < |s.tasks| && s.tasks[x].status != Done
    ensures LifeStep(s, AddWaiter(m, x, on), step, t)
  {
  }

  lemma IoLife(s: Pool, m: Pool, x: TaskId, ok: bool, step: Step, t: TaskId)
    requires m.tasks == s.tasks && Shape(m) && x < |s.tasks| && t < |s.tasks| && s.tasks[x].status != Done
    ensures Shape(EnterIo(m, x))
    ensures LifeStep(s, if ok then AddIo(EnterIo(m, x), x) else Push(EnterIo(m, x), x), step, t)
  {
  }

  lemma PushLife(s: Pool, m: Pool, x: TaskId, step: Step, t: TaskId)
    requires m.tasks == s.tasks && Shape(m) && x < |s.tasks| && t < |s.tasks| && s.tasks[x].status != Done
    ensures LifeStep(s, Push(m, x), step, t)
  {
  }

  lemma OtherLife(s: Pool, at: Places, step: Step, t: TaskId)
    requires Placed(s, at, {}, None) && Closed(s) && Enabled(s, step) && t < |s.tasks|
    requires !step.Turn? && !step.Finish? && !step.Deliver?
    requires !step.Yield? && !step.Sleep? && !step.Await? && !step.IoWait?
    ensures LifeStep(s, Apply(s, step), step, t)
  {
    assert LifecycleOk(s) && WorkersOk(s, at, {});
    assert s.tasks[t].frees <= 1;
    assert step.SwapOut? ==> Live(s, s.cpu[step.w].task);
    hide Placed, Closed;
    match step
    case SwapOut(w) => LeaveLife(s, w, t);
    case Detach(u) => DetachLife(s, u, t);
    case _ =>
  }

  lemma LeaveLife(s: Pool, w: nat, t: TaskId)
    requires w < |s.cpu| && s.cpu[w].Leaves? && Live(s, s.cpu[w].task) && t < |s.tasks|
    ensures LifeStep(s, LeaveStack(s, w), SwapOut(w), t)
  {
  }

  lemma DetachLife(s: Pool, u: TaskId, t: TaskId)
    requires Live(s, u) && t < |s.tasks|
    ensures LifeStep(s, DetachTask(s, u), Detach(u), t)
  {
  }

  /**
   A task is freed at most once: by a cleanup of run_all, or when it was detached, is done
   and has left its stack. Afterwards no worker and no list holds it, unless the step was a
   cleanup of a pool that had ceased to be quiescent.
   */
  lemma FreeingIsSafe(s: Pool, step: Step, t: TaskId)
    requires Reachable(s) && Closed(s) && Enabled(s, step) && Live(s, t) && !Live(Apply(s, step), t)
    ensures Shape(Apply(s, step)) && LifeStep(s, Apply(s, step), step, t) && Apply(s, step).tasks[t].frees == 1
    ensures !step.Cleanup? || Quiescent(s) ==> Released(Apply(s, step), t)
  {
    hide Reachable, Apply;
    ReachableInv(s);
    var at :| Placed(s, at, {}, None);
    assert Shape(Apply(s, step)) by { ShapeStep(s, at, step); }
    hide Placed, Released;
    StepLife(s, at, step, t);
    if !step.Cleanup? || Quiescent(s) {
      var at' := StepPlaces(s, at, step);
      FreedIsGone(Apply(s, step), at', t);
    }
  }

  /** No list and no worker's stack holds `t`. */
  ghost predicate Released(s: Pool, t: TaskId)
    requires Shape(s) && t < |s.tasks|
  {
    && (forall p :: !On(s, t, p))
    && forall w :: 0 <= w < |s.cpu| ==> s.cpu[w] != Runs(t) && s.cpu[w] != Leaves(t)
  }

  lemma ShapeStep(s: Pool, at: Places, step: Step)
    requires Placed(s, at, {}, None) && Closed(s) && Enabled(s, step)
    ensures Shape(Apply(s, step))
  {
    if !step.Cleanup? {
      hide Placed, Apply;
      var at' := StepPlaces(s, at, step);
      PlacedIsClosed(Apply(s, step), at', {}, None);
    }
  }

  lemma FreedIsGone(s: Pool, at: Places, t: TaskId)
    requires Placed(s, at, {}, None) && t < |s.tasks| && !Live(s, t)
    ensures Shape(s) && Released(s, t)
  {
    assert at[t] == Nowhere;
    forall p { OnIsAt(s, at, t, p); }
  }

  // -------------------------------------------------------- await, fairness, timers

  /** No step moves a task to another worker. */
  lemma HomesAreFixed(s: Pool, step: Step, t: TaskId)
    requires Reachable(s) && Closed(s) && Enabled(s, step) && t < |s.tasks|
    ensures t < |Apply(s, step).tasks| && Apply(s, step).tasks[t].home == s.tasks[t].home
  {
    hide Reachable, Apply;
    ReachableInv(s);
    var at :| Placed(s, at, {}, None);
    hide Placed;
    StepLife(s, at, step, t);
  }

  /** The result of a finished task never changes, not even by being freed. */
  lemma ResultsAreFinal(s: Pool, step: Step, u: TaskId)
    requires Reachable(s) && Closed(s) && Enabled(s, step) && u < |s.tasks| && s.tasks[u].status == Done
    ensures u < |Apply(s, step).tasks| && Apply(s, step).tasks[u].status == Done
    ensures Apply(s, step).tasks[u].result == s.tasks[u].result
  {
    hide Reachable, Apply;
    ReachableInv(s);
    var at :| Placed(s, at, {}, None);
    hide Placed;
    StepLife(s, at, step, u);
  }

  /** A fiber dispatched inside an await of `u` finds the result `u` finished with. */
  lemma AwaitReturnsResult(s: Pool, w: nat)
    requires Reachable(s) && w < |s.cpu| && w < |s.ready| && s.ready[w] != []
    ensures s.ready[w][0] < |s.tasks|
    ensures var t := s.tasks[s.ready[w][0]]; t.resume.InAwait? ==>
      t.resume.on < |s.tasks| && s.tasks[t.resume.on].status == Done && t.awaited == s.tasks[t.resume.on].result
  {
    hide Reachable;
    ReachableInv(s);
    var at :| Placed(s, at, {}, None);
    assert at[s.ready[w][0]] == Queued;
  }

  /** Each worker has dispatched, in order, a prefix of what was queued to it; its queue is the rest. */
  lemma DispatchInPushOrder(s: Pool, w: nat)
    requires Reachable(s) && w < |s.ready|
    ensures w < |s.pushed| && w < |s.popped| && s.pushed[w] == s.popped[w] + s.ready[w]
  {
    hide Reachable;
    ReachableInv(s);
    var at :| Placed(s, at, {}, None);
  }

  /** The pump finds every entry it captured still registered when poll(2) returns. */
  lemma CapturesStayRegistered(s: Pool, t: TaskId)
    requires Reachable(s) && t in s.polled
    ensures t in s.iowait && Live(s, t) && s.tasks[t].status == Blocked
  {
    hide Reachable;
    ReachableInv(s);
    var at :| Placed(s, at, {}, None);
  }

  /** The tasks of `ts` that live on worker `w`, in order. */
  function OfWorker(tasks: seq<Task>, ts: seq<TaskId>, w: nat): seq<TaskId>
    requires forall i :: 0 <= i < |ts| ==> ts[i] < |tasks|
  {
    if ts == [] then []
    else (if tasks[ts[0]].home == w then [ts[0]] else []) + OfWorker(tasks, ts[1..], w)
  }

  /**
   Firing removes exactly the timers due at or before `now`, and queues each once on its
   home worker in timer order.
   */
  lemma {:induction false} FireDueIsExact(s: Pool, at: Places, now: int) returns (k: nat)
    requires Placed(s, at, {}, None) && |at| == |s.tasks| && Shape(s) && Known(s, s.timers)
    ensures k <= |s.timers| && FireDue(s, now).timers == s.timers[k..]
    ensures forall i :: 0 <= i < |s.timers| ==> (i < k <==> s.tasks[s.timers[i]].wake <= now)
    ensures forall w :: 0 <= w < |s.ready| ==>
      FireDue(s, now).ready[w] == s.ready[w] + OfWorker(s.tasks, s.timers[..k], w)
    decreases |s.timers|
  {
    if s.timers != [] && s.tasks[s.timers[0]].wake <= now {
      var m, at' := FireOne(s), at[s.timers[0] := Queued];
      FireOneTimers(s, at);
      assert FireDue(s, now) == FireDue(m, now);
      hide Placed, FireDue, FireOne, OfWorker, Known, Shape;
      FireOnePlaces(s, at);
      PlacedIsClosed(m, at', {}, None);
      assert Shape(m) && Known(m, m.timers) by { ClosedParts(m); }
      var j := FireDueIsExact(m, at', now);
      k := j + 1;
      FireOneQueues(s, m, j);
      FiredPrefix(s, m, now, j);
    } else {
      k := 0;
      NothingDue(s, at, now);
    }
  }

  lemma ClosedParts(s: Pool)
    requires Closed(s)
    ensures Shape(s) && Known(s, s.timers)
  {
  }

  lemma NothingDue(s: Pool, at: Places, now: int)
    requires Placed(s, at, {}, None) && Shape(s) && Known(s, s.timers)
    requires s.timers == [] || s.tasks[s.timers[0]].wake > now
    ensures FireDue(s, now) == s && s.timers[0..] == s.timers
    ensures forall i :: 0 <= i < |s.timers| ==> s.tasks[s.timers[i]].wake > now
    ensures forall w :: 0 <= w < |s.ready| ==> s.ready[w] + OfWorker(s.tasks, s.timers[..0], w) == s.ready[w]
  {
    if s.timers != [] { AscendingFrom(s, at); }
  }

  /** The entries due in `s` are its head and those due in `m`. */
  lemma FiredPrefix(s: Pool, m: Pool, now: int, j: nat)
    requires s.timers != [] && Known(s, s.timers) && m.timers == s.timers[1..] && |m.tasks| == |s.tasks| && j <= |m.timers|
    requires s.tasks[s.timers[0]].wake <= now
    requires forall i :: 0 < i < |s.timers| ==> m.tasks[s.timers[i]] == s.tasks[s.timers[i]]
    requires forall i :: 0 <= i < |m.timers| ==> (i < j <==> m.tasks[m.timers[i]].wake <= now)
    ensures forall i :: 0 <= i < |s.timers| ==> (i < j + 1 <==> s.tasks[s.timers[i]].wake <= now)
    ensures m.timers[j..] == s.timers[j + 1..]
  {
    forall i | 0 < i < |s.timers| ensures i < j + 1 <==> s.tasks[s.timers[i]].wake <= now {
      assert m.timers[i - 1] == s.timers[i];
    }
  }

  lemma AscendingFrom(s: Pool, at: Places)
    requires Placed(s, at, {}, None) && s.timers != []
    ensures Known(s, s.timers)
    ensures forall i :: 0 <= i < |s.timers| ==> s.tasks[s.timers[0]].wake <= s.tasks[s.timers[i]].wake
  {
  }

  lemma FireOneTimers(s: Pool, at: Places)
    requires Placed(s, at, {}, None) && s.timers != [] && Shape(s) && Known(s, s.timers)
    ensures FireOne(s).timers == s.timers[1..] && |FireOne(s).tasks| == |s.tasks|
    ensures forall i :: 0 < i < |s.timers| ==> FireOne(s).tasks[s.timers[i]] == s.tasks[s.timers[i]]
    ensures forall x :: 0 <= x < |s.tasks| ==> FireOne(s).tasks[x].home == s.tasks[x].home
  {
  }

  lemma FireOneQueues(s: Pool, m: Pool, j: nat)
    requires Shape(s) && Known(s, s.timers) && s.timers != [] && m == FireOne(s) && j < |s.timers|
    requires forall x :: 0 <= x < |s.tasks| ==> m.tasks[x].home == s.tasks[x].home
    ensures forall w :: 0 <= w < |s.ready| ==>
      m.ready[w] + OfWorker(m.tasks, m.timers[..j], w) == s.ready[w] + OfWorker(s.tasks, s.timers[..j + 1], w)
  {
    assert s.timers[..j + 1][1..] == m.timers[..j];
    forall w | 0 <= w < |s.ready| {
      OfWorkerHomes(s.tasks, m.tasks, m.timers[..j], w);
    }
  }

  lemma {:induction false} OfWorkerHomes(a: seq<Task>, b: seq<Task>, ts: seq<TaskId>, w: nat)
    requires |a| == |b| && forall i :: 0 <= i < |ts| ==> ts[i] < |a|
    requires forall x :: 0 <= x < |a| ==> b[x].home == a[x].home
    ensures OfWorker(a, ts, w) == OfWorker(b, ts, w)
  {
    if ts != [] { OfWorkerHomes(a, b, ts[1..], w); }
  }
}
