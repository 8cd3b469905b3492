/** Every step of the executor keeps the invariant, so it holds in every run. */
module FiberPoolRuns {
  import opened Seqs
  import opened FiberPool
  import opened FiberPoolInvariant

  // ------------------------------------------------------- steps that change lifetimes

  lemma SpawnPlaces(s: Pool, at: Places)
    requires Placed(s, at, {}, None)
    ensures Placed(SpawnTask(s), at + [Queued], {}, None)
  {
    hide QueuesOk, TimersOk, WaitersOk, IoOk, WorkersOk, LifecycleOk;
    var t := Task(s.spin % |s.ready|, Ready, false, false, 0, -1, [], 0, 0, Plain, 0);
    var m := s.(tasks := s.tasks + [t], spin := s.spin + 1);
    SpawnLimbo(s, m, at, t);
    PushPlaces(m, at + [Nowhere], |s.tasks|, None);
    assert (at + [Nowhere])[|s.tasks| := Queued] == at + [Queued];
  }

  lemma SpawnLimbo(s: Pool, m: Pool, at: Places, t: Task)
    requires Placed(s, at, {}, None)
    requires t == Task(t.home, Ready, false, false, 0, -1, [], 0, 0, Plain, 0) && t.home < |s.ready|
    requires m == s.(tasks := s.tasks + [t], spin := m.spin)
    ensures Placed(m, at + [Nowhere], {|s.tasks|}, None)
  {
    hide QueuesOk, TimersOk, WaitersOk, IoOk, WorkersOk, LifecycleOk;
    SpawnLists(s, m, at, t);
    SpawnWorkers(s, m, at, t);
  }

  lemma SpawnWorkers(s: Pool, m: Pool, at: Places, t: Task)
    requires Shape(s) && |at| == |s.tasks| && WorkersOk(s, at, {}) && LifecycleOk(s)
    requires t == Task(t.home, Ready, false, false, 0, -1, [], 0, 0, Plain, 0) && t.home < |s.ready|
    requires m == s.(tasks := s.tasks + [t], spin := m.spin)
    ensures Shape(m) && WorkersOk(m, at + [Nowhere], {|s.tasks|}) && LifecycleOk(m)
  {
    SpawnLifecycle(s, m, t);
    hide LifecycleOk;
  }

  lemma SpawnLifecycle(s: Pool, m: Pool, t: Task)
    requires Shape(s) && LifecycleOk(s) && t.home < |s.ready| && t.status == Ready && t.frees == 0 && !t.reap
    requires m == s.(tasks := s.tasks + [t], spin := m.spin)
    ensures Shape(m) && LifecycleOk(m)
  {
  }

  lemma SpawnLists(s: Pool, m: Pool, at: Places, t: Task)
    requires Shape(s) && |at| == |s.tasks| && m == s.(tasks := s.tasks + [t], spin := m.spin)
    requires t.home < |s.ready| && t.waiters == [] && t.resume == Plain && WorkersOk(s, at, {})
    requires QueuesOk(s, at) && TimersOk(s, at) && WaitersOk(s, at, None) && IoOk(s, at)
    ensures Shape(m) && QueuesOk(m, at + [Nowhere]) && TimersOk(m, at + [Nowhere])
    ensures WaitersOk(m, at + [Nowhere], None) && IoOk(m, at + [Nowhere])
  {
    SpawnQueues(s, m, at, t);
    SpawnWaiters(s, m, at, t);
    SpawnList(s, m, at, t, s.timers, Timed);
    SpawnList(s, m, at, t, s.iowait, OnIo);
    hide Lists, QueuesOk, WaitersOk, WorkersOk;
  }

  lemma SpawnList(s: Pool, m: Pool, at: Places, t: Task, list: seq<TaskId>, p: Place)
    requires |at| == |s.tasks| && m == s.(tasks := s.tasks + [t], spin := m.spin) && p != Nowhere && Lists(s, at, list, p)
    ensures Lists(m, at + [Nowhere], list, p)
  {
  }

  lemma SpawnQueues(s: Pool, m: Pool, at: Places, t: Task)
    requires Shape(s) && |at| == |s.tasks| && m == s.(tasks := s.tasks + [t], spin := m.spin) && t.home < |s.ready|
    requires QueuesOk(s, at)
    ensures Shape(m) && QueuesOk(m, at + [Nowhere])
  {
  }

  lemma SpawnWaiters(s: Pool, m: Pool, at: Places, t: Task)
    requires |at| == |s.tasks| && m == s.(tasks := s.tasks + [t], spin := m.spin)
    requires t.waiters == [] && t.resume == Plain && WaitersOk(s, at, None)
    ensures WaitersOk(m, at + [Nowhere], None)
  {
    assert Deliveries(m, at + [Nowhere], None);
    forall u | 0 <= u < |at| + 1
      ensures Lists(m, at + [Nowhere], m.tasks[u].waiters, Waiting(u))
    {
      if u < |at| {
        SpawnList(s, m, at, t, s.tasks[u].waiters, Waiting(u));
      }
    }
  }

  /** The end of a fiber's function: it is done, still on its stack, and on no list. */
  lemma FinishPlaces(s: Pool, at: Places, w: nat, r: int) returns (at': Places)
    requires Placed(s, at, {}, None) && Executing(s, w)
    ensures Closed(s) && Placed(FinishTask(s, w, r), at', {}, None)
  {
    PlacedIsClosed(s, at, {}, None);
    var t := s.cpu[w].task;
    var m := SetResult(s, t, r);
    SetResultPlaces(s, at, t, r);
    at' := WakeWaitersPlaces(m, at, t);
    var m' := WakeWaiters(m, t);
    SetDonePlaces(m', at', t);
  }

  lemma SetResultPlaces(s: Pool, at: Places, t: TaskId, r: int)
    requires Placed(s, at, {}, None) && Live(s, t) && s.cpu[s.tasks[t].home] == Runs(t)
    ensures Placed(SetResult(s, t, r), at, {}, Some(t))
  {
    var s' := SetResult(s, t, r);
    assert at == at[t := at[t]];
    QueuesFrame(s, s', at, at, t);
    TimersFrame(s, s', at, at, t);
    IoFrame(s, s', at, at, t);
    SetResultWorkers(s, at, t, r);
    SetResultWaiters(s, at, t, r);
    hide QueuesOk, TimersOk, IoOk, WaitersOk, WorkersOk, LifecycleOk;
  }

  lemma SetResultWorkers(s: Pool, at: Places, t: TaskId, r: int)
    requires Shape(s) && |at| == |s.tasks| && WorkersOk(s, at, {}) && LifecycleOk(s) && t < |s.tasks|
    ensures Shape(SetResult(s, t, r)) && WorkersOk(SetResult(s, t, r), at, {}) && LifecycleOk(SetResult(s, t, r))
  {
  }

  lemma SetResultWaiters(s: Pool, at: Places, t: TaskId, r: int)
    requires |at| == |s.tasks| && WaitersOk(s, at, None) && Live(s, t) && s.tasks[t].status != Done && at[t] == Nowhere
    ensures WaitersOk(SetResult(s, t, r), at, Some(t))
  {
    var s' := SetResult(s, t, r);
    assert forall u :: 0 <= u < |at| ==> s'.tasks[u].waiters == s.tasks[u].waiters;
    assert forall list, p :: Lists(s, at, list, p) ==> Lists(s', at, list, p);
  }

  lemma SetDonePlaces(s: Pool, at: Places, t: TaskId)
    requires Placed(s, at, {}, Some(t)) && Live(s, t) && s.cpu[s.tasks[t].home] == Runs(t) && s.tasks[t].waiters == []
    ensures Placed(Depart(SetDone(s, t), s.tasks[t].home), at, {}, None)
  {
    var m := SetDone(s, t);
    assert at == at[t := at[t]];
    QueuesFrame(s, m, at, at, t);
    TimersFrame(s, m, at, at, t);
    IoFrame(s, m, at, at, t);
    SetDoneWaiters(s, at, t);
    CpuOnly(m, Depart(m, s.tasks[t].home), at, None);
    SetDoneWorkers(s, at, t);
  }

  lemma SetDoneWaiters(s: Pool, at: Places, t: TaskId)
    requires |at| == |s.tasks| && WaitersOk(s, at, Some(t)) && Live(s, t) && at[t] == Nowhere && s.tasks[t].waiters == []
    requires s.tasks[t].resume == Plain
    ensures WaitersOk(SetDone(s, t), at, None)
  {
    var s' := SetDone(s, t);
    assert Lists(s, at, s.tasks[t].waiters, Waiting(t));
    assert forall u :: 0 <= u < |at| ==> s'.tasks[u].waiters == s.tasks[u].waiters;
    assert forall list, p :: Lists(s, at, list, p) ==> Lists(s', at, list, p);
  }

  lemma SetDoneWorkers(s: Pool, at: Places, t: TaskId)
    requires Shape(s) && |at| == |s.tasks| && WorkersOk(s, at, {}) && LifecycleOk(s)
    requires Live(s, t) && s.cpu[s.tasks[t].home] == Runs(t) && s.tasks[t].waiters == []
    ensures var s' := Depart(SetDone(s, t), s.tasks[t].home); WorkersOk(s', at, {}) && LifecycleOk(s')
  {
    SetDoneLifecycle(s, t);
    hide LifecycleOk;
  }

  lemma SetDoneLifecycle(s: Pool, t: TaskId)
    requires Shape(s) && LifecycleOk(s) && Live(s, t) && s.cpu[s.tasks[t].home] == Runs(t) && s.tasks[t].waiters == []
    requires s.tasks[t].status != Done
    requires forall u :: 0 <= u < |s.tasks| && s.cpu[s.tasks[u].home] == Leaves(u) ==> u != t && s.tasks[u].home != s.tasks[t].home
    ensures var s' := Depart(SetDone(s, t), s.tasks[t].home); Shape(s') && LifecycleOk(s')
  {
  }

  /** The home worker has the processor back: the fiber is off its stack. */
  lemma LeaveStackPlaces(s: Pool, at: Places, w: nat)
    requires Placed(s, at, {}, None) && w < |s.cpu| && s.cpu[w].Leaves?
    ensures Live(s, s.cpu[w].task) && Placed(LeaveStack(s, w), at, {}, None)
  {
    var t := s.cpu[w].task;
    var m := s.(tasks := s.tasks[t := s.tasks[t].(fullyDone := true)]);
    var m' := m.(cpu := s.cpu[w := Idle]);
    LeaveStackWorkers(s, at, w);
    LeaveStackLifecycle(s, at, w);
    assert at == at[t := at[t]];
    QueuesFrame(s, m, at, at, t);
    TimersFrame(s, m, at, at, t);
    IoFrame(s, m, at, at, t);
    WaitersFrame(s, m, at, at, t, None);
    CpuOnly(m, m', at, None);
    if s.tasks[t].reap && s.tasks[t].status == Done {
      FreeLists(m', at, t);
    }
  }

  /** Freeing a done task leaves the lists alone. */
  lemma FreeLists(s: Pool, at: Places, t: TaskId)
    requires Shape(s) && |at| == |s.tasks| && t < |at| && at[t] == Nowhere && s.tasks[t].status == Done && s.tasks[t].waiters == []
    requires QueuesOk(s, at) && TimersOk(s, at) && WaitersOk(s, at, None) && IoOk(s, at)
    ensures QueuesOk(Reap(s, t), at) && TimersOk(Reap(s, t), at) && WaitersOk(Reap(s, t), at, None) && IoOk(Reap(s, t), at)
  {
    FreeQueues(s, at, t);
    FreeWaiters(s, at, t);
    FreeList(s, at, t, s.timers, Timed);
    FreeList(s, at, t, s.iowait, OnIo);
    hide Lists, QueuesOk, WaitersOk;
  }

  lemma FreeList(s: Pool, at: Places, t: TaskId, list: seq<TaskId>, p: Place)
    requires |at| == |s.tasks| && t < |at| && at[t] == Nowhere && p != Nowhere && Lists(s, at, list, p)
    ensures Lists(Reap(s, t), at, list, p)
  {
  }

  lemma FreeQueues(s: Pool, at: Places, t: TaskId)
    requires Shape(s) && |at| == |s.tasks| && t < |at| && at[t] == Nowhere && QueuesOk(s, at)
    ensures QueuesOk(Reap(s, t), at)
  {
  }

  lemma FreeWaiters(s: Pool, at: Places, t: TaskId)
    requires |at| == |s.tasks| && t < |at| && at[t] == Nowhere && WaitersOk(s, at, None)
    requires s.tasks[t].status == Done && s.tasks[t].waiters == []
    ensures WaitersOk(Reap(s, t), at, None)
  {
    forall u | 0 <= u < |at|
      ensures Lists(Reap(s, t), at, Reap(s, t).tasks[u].waiters, Waiting(u))
    {
      FreeList(s, at, t, s.tasks[u].waiters, Waiting(u));
    }
  }

  lemma LeaveStackWorkers(s: Pool, at: Places, w: nat)
    requires Shape(s) && |at| == |s.tasks| && WorkersOk(s, at, {}) && w < |s.cpu| && s.cpu[w].Leaves?
    ensures Live(s, s.cpu[w].task) && Shape(LeaveStack(s, w)) && WorkersOk(LeaveStack(s, w), at, {})
    ensures s.tasks[s.cpu[w].task].status == Done ==> at[s.cpu[w].task] == Nowhere
  {
    var t := s.cpu[w].task;
    assert Live(s, t);
    var m := s.(tasks := s.tasks[t := s.tasks[t].(fullyDone := true)], cpu := s.cpu[w := Idle]);
    OffStackWorkers(s, at, w);
    hide WorkersOk;
    if s.tasks[t].status == Done {
      DoneIsNowhere(s, at, t);
      ReapWorkers(m, at, t);
    }
  }

  lemma OffStackWorkers(s: Pool, at: Places, w: nat)
    requires Shape(s) && |at| == |s.tasks| && WorkersOk(s, at, {}) && w < |s.cpu| && s.cpu[w].Leaves?
    ensures Live(s, s.cpu[w].task)
    ensures var t := s.cpu[w].task;
      var m := s.(tasks := s.tasks[t := s.tasks[t].(fullyDone := true)], cpu := s.cpu[w := Idle]);
      Shape(m) && WorkersOk(m, at, {})
  {
  }

  lemma DoneIsNowhere(s: Pool, at: Places, t: TaskId)
    requires Shape(s) && |at| == |s.tasks| && WorkersOk(s, at, {}) && t < |s.tasks| && s.tasks[t].status == Done
    ensures at[t] == Nowhere
  {
  }

  /** A task that is done and on no stack can be freed. */
  lemma ReapWorkers(s: Pool, at: Places, t: TaskId)
    requires Shape(s) && |at| == |s.tasks| && WorkersOk(s, at, {}) && t < |s.tasks|
    requires s.tasks[t].status == Done && at[t] == Nowhere && s.tasks[t].fullyDone
    ensures Shape(Reap(s, t)) && WorkersOk(Reap(s, t), at, {})
  {
  }

  lemma LeaveStackLifecycle(s: Pool, at: Places, w: nat)
    requires Shape(s) && |at| == |s.tasks| && WorkersOk(s, at, {}) && LifecycleOk(s) && w < |s.cpu| && s.cpu[w].Leaves?
    requires Shape(LeaveStack(s, w))
    ensures LifecycleOk(LeaveStack(s, w))
    ensures s.tasks[s.cpu[w].task].status == Done ==> s.tasks[s.cpu[w].task].waiters == []
  {
    assert Live(s, s.cpu[w].task) && s.tasks[s.cpu[w].task].home == w;
  }

  lemma DetachPlaces(s: Pool, at: Places, t: TaskId)
    requires Placed(s, at, {}, None) && Live(s, t)
    ensures Placed(DetachTask(s, t), at, {}, None)
  {
    if !(s.tasks[t].reap || s.tasks[t].waiters != [] || s.mainWait == Some(t)) {
      var m := s.(tasks := s.tasks[t := s.tasks[t].(reap := true)]);
      DetachWorkers(s, at, t);
      DetachLifecycle(s, at, t);
      assert at == at[t := at[t]];
      QueuesFrame(s, m, at, at, t);
      TimersFrame(s, m, at, at, t);
      IoFrame(s, m, at, at, t);
      WaitersFrame(s, m, at, at, t, None);
      if s.tasks[t].status == Done && s.tasks[t].fullyDone {
        FreeLists(m, at, t);
      }
    }
  }

  lemma DetachWorkers(s: Pool, at: Places, t: TaskId)
    requires Shape(s) && |at| == |s.tasks| && WorkersOk(s, at, {}) && LifecycleOk(s) && Live(s, t)
    ensures Shape(DetachTask(s, t)) && WorkersOk(DetachTask(s, t), at, {})
    ensures s.tasks[t].status == Done ==> at[t] == Nowhere && s.tasks[t].waiters == []
  {
    var m := s.(tasks := s.tasks[t := s.tasks[t].(reap := true)]);
    assert Shape(m) && WorkersOk(m, at, {});
    hide WorkersOk;
    if s.tasks[t].status == Done {
      DoneIsNowhere(s, at, t);
      if s.tasks[t].fullyDone { ReapWorkers(m, at, t); }
    }
  }

  lemma DetachLifecycle(s: Pool, at: Places, t: TaskId)
    requires Shape(s) && |at| == |s.tasks| && WorkersOk(s, at, {}) && LifecycleOk(s) && Live(s, t)
    requires Shape(DetachTask(s, t))
    ensures LifecycleOk(DetachTask(s, t))
  {
  }

  /** The capture, the outside awaiter and what run_all has seen are in no list. */
  lemma SideOnly(s: Pool, s': Pool, at: Places)
    requires Placed(s, at, {}, None)
    requires s' == s.(polled := s'.polled, mainWait := s'.mainWait, drains := s'.drains, seen := s'.seen)
    requires s'.polled == s.polled || s'.polled == s.iowait || s'.polled == []
    requires s'.mainWait.Some? ==> Live(s, s'.mainWait.value) && !s.tasks[s'.mainWait.value].reap
    ensures Placed(s', at, {}, None)
  {
    SideIo(s, s', at);
    SideWaiters(s, s', at);
    assert QueuesOk(s', at);
    assert LifecycleOk(s');
    hide QueuesOk, WaitersOk, IoOk, LifecycleOk;
    assert TimersOk(s', at) by { SideLists(s, s', at, s.timers, Timed); }
  }

  lemma SideLists(s: Pool, s': Pool, at: Places, list: seq<TaskId>, p: Place)
    requires |at| == |s.tasks| && s'.tasks == s.tasks && Lists(s, at, list, p)
    ensures Lists(s', at, list, p)
  {
  }

  lemma SideIo(s: Pool, s': Pool, at: Places)
    requires |at| == |s.tasks| && s'.tasks == s.tasks && IoOk(s, at) && s'.iowait == s.iowait && s'.niowait == s.niowait
    requires s'.polled == s.polled || s'.polled == s.iowait || s'.polled == []
    ensures IoOk(s', at)
  {
    SideLists(s, s', at, s.iowait, OnIo);
  }

  lemma SideWaiters(s: Pool, s': Pool, at: Places)
    requires |at| == |s.tasks| && s'.tasks == s.tasks && WaitersOk(s, at, None)
    ensures WaitersOk(s', at, None)
  {
    assert Deliveries(s', at, None);
    hide Deliveries;
    forall u | 0 <= u < |at| ensures Lists(s', at, s'.tasks[u].waiters, Waiting(u)) {
      SideLists(s, s', at, s.tasks[u].waiters, Waiting(u));
    }
  }

  /** In a quiescent state every live task that is not done waits for another such task. */
  lemma QuietWaits(s: Pool, at: Places)
    requires Placed(s, at, {}, None) && Quiescent(s)
    ensures s.timers == [] && s.iowait == [] && s.polled == []
    ensures forall w :: 0 <= w < |s.ready| ==> s.ready[w] == []
    ensures forall t :: 0 <= t < |at| ==>
      if Live(s, t) && s.tasks[t].status != Done then at[t].Waiting? else at[t] == Nowhere
  {
    assert forall t :: 0 <= t < |at| && at[t] == Queued ==> t in s.ready[s.tasks[t].home];
    TotalLengthZero(s.ready);
    SubsetOfEmpty(s.polled, s.iowait);
  }

  lemma AwaitedIsLive(s: Pool, at: Places, u: TaskId)
    requires |at| == |s.tasks| && u < |at| && WaitersOk(s, at, None)
    ensures s.tasks[u].waiters != [] ==> Live(s, u)
  {
    assert Lists(s, at, s.tasks[u].waiters, Waiting(u));
    if s.tasks[u].waiters != [] {
      assert at[s.tasks[u].waiters[0]] == Waiting(u);
    }
  }

  lemma CleanupPlaces(s: Pool, at: Places)
    requires Placed(s, at, {}, None) && Quiescent(s) && s.drains > 0
    ensures Placed(ReclaimAll(s), seq(|at|, _ => Nowhere), {}, None)
  {
    QuietWaits(s, at);
    forall u | 0 <= u < |at| { AwaitedIsLive(s, at, u); }
    var s', at' := ReclaimAll(s), seq(|at|, _ => Nowhere);
    assert s'.ready == s.ready;
    assert QueuesOk(s', at') by { TotalLengthZero(s.ready); }
    CleanupWaiters(s, at);
    CleanupWorkers(s, at);
  }

  lemma CleanupWaiters(s: Pool, at: Places)
    requires |at| == |s.tasks| && WaitersOk(s, at, None) && s.drains > 0
    requires forall t :: 0 <= t < |at| && !Live(s, t) ==> at[t] == Nowhere
    ensures WaitersOk(ReclaimAll(s), seq(|at|, _ => Nowhere), None)
  {
    var s', at' := ReclaimAll(s), seq(|at|, _ => Nowhere);
    forall u | 0 <= u < |at|
      ensures Lists(s', at', s'.tasks[u].waiters, Waiting(u))
    {
      AwaitedIsLive(s, at, u);
    }
    assert Deliveries(s', at', None);
  }

  lemma CleanupWorkers(s: Pool, at: Places)
    requires Shape(s) && |at| == |s.tasks| && LifecycleOk(s) && Quiescent(s) && s.drains > 0
    requires forall u :: 0 <= u < |at| && s.tasks[u].waiters != [] ==> Live(s, u)
    ensures Shape(ReclaimAll(s)) && WorkersOk(ReclaimAll(s), seq(|at|, _ => Nowhere), {}) && LifecycleOk(ReclaimAll(s))
  {
    assert forall t :: 0 <= t < |at| ==> !Live(ReclaimAll(s), t);
  }

  // -------------------------------------------------------------------- every run

  /** One step from a state with places ends in a state with places. */
  lemma StepPlaces(s: Pool, at: Places, step: Step) returns (at': Places)
    requires Placed(s, at, {}, None) && Enabled(s, step) && (step.Cleanup? ==> Quiescent(s))
    ensures Closed(s) && Placed(Apply(s, step), at', {}, None)
  {
    PlacedIsClosed(s, at, {}, None);
    match step {
      case Spawn =>
        SpawnPlaces(s, at);
        at' := at + [Queued];
      case Turn(w, now) =>
        at' := TurnPlaces(s, at, w, now);
      case Yield(w) => at' := SuspendPlaces(s, at, step);
      case Sleep(w, now, ms) => at' := SuspendPlaces(s, at, step);
      case Await(w, on) => at' := SuspendPlaces(s, at, step);
      case IoWait(w, ok) => at' := SuspendPlaces(s, at, step);
      case Finish(w, r) =>
        at' := FinishPlaces(s, at, w, r);
      case SwapOut(w) =>
        LeaveStackPlaces(s, at, w);
        at' := at;
      case Detach(t) =>
        DetachPlaces(s, at, t);
        at' := at;
      case Deliver(fired) =>
        SideOnly(s, s.(polled := []), at);
        at' := WakeIoPlaces(s.(polled := []), at, s.polled, fired);
      case Cleanup =>
        CleanupPlaces(s, at);
        at' := seq(|at|, _ => Nowhere);
      case _ =>
        SideOnly(s, Apply(s, step), at);
        at' := at;
    }
  }

  lemma TurnPlaces(s: Pool, at: Places, w: nat, now: int) returns (at': Places)
    requires Placed(s, at, {}, None) && |at| == |s.tasks| && Closed(s) && w < |s.cpu| && s.cpu[w] == Idle
    ensures Placed(TakeTurn(s, w, now), at', {}, None)
  {
    hide Placed;
    at' := FireDuePlaces(s, at, now);
    FireDueKeepsQueues(s, now);
    var m := FireDue(s, now);
    if m.ready[w] != [] {
      DispatchPlaces(m, at', w);
      at' := at'[m.ready[w][0] := Nowhere];
    }
  }

  /** A fiber that suspends itself gets the place its call asks for. */
  lemma SuspendPlaces(s: Pool, at: Places, step: Step) returns (at': Places)
    requires Placed(s, at, {}, None) && Closed(s) && Enabled(s, step)
    requires step.Yield? || step.Sleep? || step.Await? || step.IoWait?
    requires |at| == |s.tasks|
    ensures Placed(Apply(s, step), at', {}, None)
  {
    hide Placed;
    var t := s.cpu[step.w].task;
    DepartLimbo(s, at, step.w);
    var m := Depart(s, step.w);
    match step {
      case Yield(_) =>
        PushPlaces(m, at, t, None);
        at' := at[t := Queued];
      case Sleep(_, now, ms) =>
        AddTimerPlaces(m, at, t, now + ms);
        at' := at[t := Timed];
      case Await(_, on) =>
        if s.tasks[on].status == Done {
          at' := at;
        } else {
          AddWaiterPlaces(m, at, t, on);
          at' := at[t := Waiting(on)];
        }
      case IoWait(_, ok) =>
        EnterIoLimbo(m, at, t);
        if ok {
          AddIoPlaces(EnterIo(m, t), at, t);
          at' := at[t := OnIo];
        } else {
          PushPlaces(EnterIo(m, t), at, t, None);
          at' := at[t := Queued];
        }
    }
  }

  /** No worker, list or outside awaiter holds a task. */
  predicate Unused(s: Pool) { Quiescent(s) && s.mainWait.None? }

  /**
   One step. A cleanup that frees a task something still holds ends the run, because what
   the holder does with the freed record is undefined.
   */
  ghost predicate Next(s: Pool, s': Pool) {
    Closed(s) && exists step :: Enabled(s, step) && (step.Cleanup? ==> Unused(s)) && s' == Apply(s, step)
  }

  /** A run: it starts idle and each state follows from the one before it. */
  ghost predicate Run(states: seq<Pool>) {
    && |states| > 0
    && (exists n :: n > 0 && states[0] == Start(n))
    && forall i :: 0 <= i < |states| - 1 ==> Next(states[i], states[i + 1])
  }

  lemma {:induction false} StartInv(n: nat)
    requires n > 0
    ensures Inv(Start(n))
  {
    var s, at := Start(n), [];
    TotalLengthZero(s.ready);
    NoTasks(s, at);
  }

  /** A pool without tasks has nothing to keep in order. */
  lemma NoTasks(s: Pool, at: Places)
    requires Shape(s) && |s.tasks| == |s.timers| == |s.iowait| == |s.polled| == |at| == 0
    requires s.ntimers == 0 && s.niowait == 0 && s.nready == 0 && s.mainWait.None?
    requires TotalLength(s.ready) == 0 && forall w :: 0 <= w < |s.ready| ==>
      |s.ready[w]| == |s.pushed[w]| == |s.popped[w]| == 0 && s.cpu[w] == Idle
    ensures Placed(s, at, {}, None)
  {
    hide TimersOk, IoOk, WaitersOk, LifecycleOk;
    NoLists(s, at);
    NoWaiters(s, at);
    NoLives(s);
  }

  lemma NoLists(s: Pool, at: Places)
    requires |s.tasks| == |s.timers| == |s.iowait| == |s.polled| == |at| == 0 && s.ntimers == 0 && s.niowait == 0
    ensures TimersOk(s, at) && IoOk(s, at)
  {
  }

  lemma NoWaiters(s: Pool, at: Places)
    requires |s.tasks| == |at| == 0
    ensures WaitersOk(s, at, None)
  {
    hide Lists, Delivered;
  }

  lemma NoLives(s: Pool)
    requires Shape(s) && |s.tasks| == 0 && s.mainWait.None?
    ensures LifecycleOk(s)
  {
    hide Quiescent;
  }

  /** Every state of every run satisfies the invariant. */
  lemma {:induction false} RunInv(states: seq<Pool>)
    requires Run(states)
    ensures forall i :: 0 <= i < |states| ==> Inv(states[i])
  {
    hide Inv, Next;
    var n :| n > 0 && states[0] == Start(n);
    StartInv(n);
    var k := 0;
    while k < |states| - 1
      invariant 0 <= k < |states| && forall i :: 0 <= i <= k ==> Inv(states[i])
    {
      assert Next(states[k], states[k + 1]);
      InvStep(states[k], states[k + 1]);
      k := k + 1;
    }
  }

  lemma InvStep(s: Pool, s': Pool)
    requires Inv(s) && Next(s, s')
    ensures Inv(s')
  {
    var at :| Placed(s, at, {}, None);
    var step :| Enabled(s, step) && (step.Cleanup? ==> Unused(s)) && s' == Apply(s, step);
    var at' := StepPlaces(s, at, step);
  }

  /** `s` is the last state of some run. */
  ghost predicate Reachable(s: Pool) {
    exists states :: Run(states) && states[|states| - 1] == s
  }

  lemma ReachableInv(s: Pool)
    requires Reachable(s)
    ensures Inv(s)
  {
    hide Inv, Next;
    var states :| Run(states) && states[|states| - 1] == s;
    RunInv(states);
  }
}
