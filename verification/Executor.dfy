/** The executor's globals as an object; its methods are the lock-held sections. */
module Executor {
  import opened Seqs
  import opened FiberPool
  import opened FiberPoolInvariant
  import opened FiberPoolRuns
  import opened FiberPoolDelivery

  class Scheduler {
    var tasks: seq<Task>
    var ready: seq<seq<TaskId>>
    var timers: seq<TaskId>
    var iowait: seq<TaskId>
    var polled: seq<TaskId>
    var cpu: seq<Cpu>
    var nready: int
    var ntimers: int
    var niowait: int
    var mainWait: Option<TaskId>
    var spin: nat
    var drains: nat
    ghost var seen: nat
    ghost var pushed: seq<seq<TaskId>>
    ghost var popped: seq<seq<TaskId>>

    ghost function View(): Pool
      reads this
    {
      Pool(tasks, ready, timers, iowait, polled, cpu, nready, ntimers, niowait, mainWait, spin,
           drains, seen, pushed, popped)
    }

    ghost predicate Valid()
      reads this
    {
      Closed(View()) && Inv(View())
    }

    constructor (workers: nat)
      requires workers > 0
      ensures View() == Start(workers) && Valid()
    {
      tasks, timers, iowait, polled := [], [], [], [];
      ready, cpu := seq(workers, _ => []), seq(workers, _ => Idle);
      nready, ntimers, niowait, mainWait, spin, drains, seen := 0, 0, 0, None, 0, 0, 0;
      pushed, popped := seq(workers, _ => []), seq(workers, _ => []);
      new;
      StartInv(workers);
      assert View() == Start(workers);
      InvClosed(View());
    }

    method ReadyPush(t: TaskId)
      requires Shape(View()) && t < |tasks|
      modifies this
      ensures View() == Push(old(View()), t)
    {
      tasks := tasks[t := tasks[t].(status := Ready)];
      var w := tasks[t].home;
      ready := ready[w := ready[w] + [t]];
      pushed := pushed[w := pushed[w] + [t]];
      nready := nready + 1;
    }

    /** Walks the list to the first entry due later than `t`. */
    method TimerAdd(t: TaskId, wake: int)
      requires t < |tasks| && Known(View(), timers)
      modifies this
      ensures View() == AddTimer(old(View()), t, wake)
    {
      hide InsertByWake;
      tasks := tasks[t := tasks[t].(wake := wake, status := Blocked)];
      ntimers := ntimers + 1;
      var k := TimerSpot(tasks, timers, t);
      timers := timers[..k] + [t] + timers[k..];
    }

    method FireDueTimers(now: int)
      requires Shape(View()) && Known(View(), timers)
      modifies this
      ensures View() == FireDue(old(View()), now)
    {
      hide FireDue, FireOne, Shape;
      while timers != [] && tasks[timers[0]].wake <= now
        invariant Shape(View()) && Known(View(), timers)
        invariant FireDue(View(), now) == FireDue(old(View()), now)
        decreases |timers|
      {
        FireStep(View(), now);
        FireHead();
      }
      FireStep(View(), now);
    }

    /** The head of the timer list goes to its ready queue. */
    method FireHead()
      requires Shape(View()) && timers != [] && timers[0] < |tasks|
      modifies this
      ensures View() == FireOne(old(View()))
    {
      var t := timers[0];
      timers := timers[1..];
      tasks := tasks[t := tasks[t].(wake := -1)];
      ntimers := ntimers - 1;
      ReadyPush(t);
    }

    method DispatchHead(w: nat)
      requires Shape(View()) && w < |ready| && Known(View(), ready[w])
      modifies this
      ensures View() == Dispatch(old(View()), w)
    {
      if ready[w] != [] {
        var t := ready[w][0];
        ready := ready[w := ready[w][1..]];
        popped := popped[w := popped[w] + [t]];
        nready := nready - 1;
        cpu := cpu[w := Runs(t)];
        tasks := tasks[t := tasks[t].(fullyDone := false, resume := Plain)];
      }
    }

    /** A turn of worker `w`'s scheduler loop: fire timers, then take the head of its queue. */
    method TakeWorkerTurn(w: nat, now: int)
      requires Valid() && Enabled(View(), Turn(w, now))
      modifies this
      ensures View() == Apply(old(View()), Turn(w, now)) && Valid()
    {
      hide Inv;
      ghost var before := View();
      FireDueKeepsQueues(before, now);
      FireDueTimers(now);
      DispatchHead(w);
      StepValid(before, View(), Turn(w, now));
    }

    method SpawnFiber() returns (t: TaskId)
      requires Valid() && Enabled(View(), Spawn)
      modifies this
      ensures View() == Apply(old(View()), Spawn) && Valid() && t == |old(tasks)|
    {
      hide Inv;
      ghost var before := View();
      t := |tasks|;
      tasks := tasks + [Task(spin % |ready|, Ready, false, false, 0, -1, [], 0, 0, Plain, 0)];
      spin := spin + 1;
      ReadyPush(t);
      StepValid(before, View(), Spawn);
    }

    method YieldFiber(w: nat)
      requires Valid() && Enabled(View(), Yield(w))
      modifies this
      ensures View() == Apply(old(View()), Yield(w)) && Valid()
    {
      hide Inv;
      ghost var before := View();
      cpu := cpu[w := Leaves(cpu[w].task)];
      ReadyPush(cpu[w].task);
      StepValid(before, View(), Yield(w));
    }

    method SleepFiber(w: nat, now: int, ms: int)
      requires Valid() && Enabled(View(), Sleep(w, now, ms))
      modifies this
      ensures View() == Apply(old(View()), Sleep(w, now, ms)) && Valid()
      ensures Asleep(View(), old(cpu[w].task), now + ms)
    {
      hide Inv;
      ghost var before := View();
      SleepSleeps(before, w, now, ms);
      cpu := cpu[w := Leaves(cpu[w].task)];
      TimerAdd(cpu[w].task, now + ms);
      StepValid(before, View(), Sleep(w, now, ms));
    }

    /** Returns at once when `on` is done; otherwise the fiber joins its waiters. */
    method AwaitTask(w: nat, on: TaskId) returns (r: Option<int>)
      requires Valid() && Enabled(View(), Await(w, on))
      modifies this
      ensures View() == Apply(old(View()), Await(w, on)) && Valid()
      ensures r == if old(tasks)[on].status.Done? then Some(old(tasks)[on].result) else None
    {
      hide Inv;
      ghost var before := View();
      if tasks[on].status.Done? {
        return Some(tasks[on].result);
      }
      r := None;
      var self := cpu[w].task;
      cpu := cpu[w := Leaves(self)];
      tasks := tasks[on := tasks[on].(waiters := [self] + tasks[on].waiters)];
      tasks := tasks[self := tasks[self].(status := Blocked, resume := InAwait(on))];
      StepValid(before, View(), Await(w, on));
    }

    /** `registered` is false when the pump cannot take the descriptor: the fiber retries. */
    method AwaitIo(w: nat, registered: bool)
      requires Valid() && Enabled(View(), IoWait(w, registered))
      modifies this
      ensures View() == Apply(old(View()), IoWait(w, registered)) && Valid()
    {
      hide Inv;
      ghost var before := View();
      var self := cpu[w].task;
      cpu := cpu[w := Leaves(self)];
      tasks := tasks[self := tasks[self].(ioResult := 0, resume := InIo)];
      if registered {
        iowait := [self] + iowait;
        niowait := niowait + 1;
        tasks := tasks[self := tasks[self].(status := Blocked)];
      } else {
        ReadyPush(self);
      }
      StepValid(before, View(), IoWait(w, registered));
    }

    /** Walk the detached waiter list `ws` of the finished task `t`, handing each its result. */
    method WakeAll(t: TaskId, ws: seq<TaskId>)
      requires Shape(View()) && t < |tasks| && Known(View(), ws) && t !in ws
      modifies this
      ensures t < |tasks| && tasks[t] == old(tasks)[t] && Undone(View(), t, []) == WakeWaiters(Undone(old(View()), t, ws), t)
    {
      hide WakeWaiters;
      var rest := ws;
      ghost var first := Undone(View(), t, ws);
      while rest != []
        invariant Shape(View()) && t < |tasks| && Known(View(), rest) && t !in rest
        invariant tasks[t] == old(tasks)[t]
        invariant WakeWaiters(Undone(View(), t, rest), t) == WakeWaiters(first, t)
        decreases |rest|
      {
        HandOne(View(), t, rest);
        Hand(t, rest[0]);
        rest := rest[1..];
      }
      HandNone(View(), t);
    }

    /** The result of `t` for the waiter `x`, which becomes ready. */
    method Hand(t: TaskId, x: TaskId)
      requires Shape(View()) && t < |tasks| && x < |tasks|
      modifies this
      ensures View() == Handed(old(View()), t, x)
    {
      tasks := tasks[x := tasks[x].(awaited := tasks[t].result)];
      ReadyPush(x);
    }

    /** The fiber's function returned `r`. The waiter list is detached first and then walked. */
    method Conclude(w: nat, r: int)
      requires Closed(View()) && Executing(View(), w)
      requires cpu[w].task !in tasks[cpu[w].task].waiters && tasks[cpu[w].task].status == Ready
      modifies this
      ensures View() == FinishTask(old(View()), w, r)
      ensures var t := old(cpu[w].task); t < |tasks| && tasks[t].status == Done && tasks[t].result == r
    {
      ghost var before := View();
      var t := cpu[w].task;
      var ws := tasks[t].waiters;
      tasks := tasks[t := tasks[t].(result := r, status := Done, waiters := [])];
      assert Undone(View(), t, ws).tasks == SetResult(before, t, r).tasks;
      WakeAll(t, ws);
      FinishedView(before, View(), w, r);
      cpu := cpu[w := Leaves(t)];
    }

    method FinishFiber(w: nat, r: int)
      requires Valid() && Enabled(View(), Finish(w, r))
      modifies this
      ensures View() == Apply(old(View()), Finish(w, r)) && Valid()
      ensures HandsOut(old(View()), View(), old(cpu[w].task), old(tasks[cpu[w].task].waiters), r)
    {
      hide Inv;
      ghost var before := View();
      RunningWaitsOnNothing(before, w);
      FinishDelivers(before, w, r);
      Conclude(w, r);
      StepValid(before, View(), Finish(w, r));
    }

    /** The home worker has the processor back after the swap. */
    method BackOnScheduler(w: nat)
      requires Valid() && Enabled(View(), SwapOut(w))
      modifies this
      ensures View() == Apply(old(View()), SwapOut(w)) && Valid()
    {
      hide Inv;
      ghost var before := View();
      var t := cpu[w].task;
      tasks := tasks[t := tasks[t].(fullyDone := true)];
      cpu := cpu[w := Idle];
      if tasks[t].reap && tasks[t].status.Done? {
        tasks := tasks[t := Freed(tasks[t])];
      }
      StepValid(before, View(), SwapOut(w));
    }

    /** 0 on success, -1 if already detached, -2 for no handle, -3 while anything awaits the task. */
    method DetachHandle(handle: Option<TaskId>) returns (code: int)
      requires Valid() && (handle.Some? ==> Enabled(View(), Detach(handle.value)))
      modifies this
      ensures Valid() && View() == if handle.None? then old(View()) else Apply(old(View()), Detach(handle.value))
      ensures code == -2 <==> handle.None?
      ensures code == -1 <==> handle.Some? && old(tasks)[handle.value].reap
      ensures code == -3 <==> handle.Some? && !old(tasks)[handle.value].reap
                              && (old(tasks)[handle.value].waiters != [] || old(mainWait) == handle)
      ensures code == 0 || (-3 <= code <= -1 && View() == old(View()))
    {
      hide Inv;
      ghost var before := View();
      if handle.None? { return -2; }
      var t := handle.value;
      if tasks[t].reap { return -1; }
      if tasks[t].waiters != [] || mainWait == handle { return -3; }
      tasks := tasks[t := tasks[t].(reap := true)];
      if tasks[t].status.Done? && tasks[t].fullyDone {
        tasks := tasks[t := Freed(tasks[t])];
      }
      StepValid(before, View(), Detach(t));
      return 0;
    }

    /** A thread outside the pool returns at once when `on` is done; otherwise it parks. */
    method AwaitOutside(on: TaskId) returns (r: Option<int>)
      requires Valid() && Enabled(View(), MainAwait(on))
      modifies this
      ensures View() == Apply(old(View()), MainAwait(on)) && Valid()
      ensures if r.Some? then View() == old(View()) else mainWait == Some(on)
      ensures r == if old(tasks)[on].status.Done? then Some(old(tasks)[on].result) else None
    {
      hide Inv;
      ghost var before := View();
      if tasks[on].status.Done? {
        return Some(tasks[on].result);
      }
      r := None;
      mainWait := Some(on);
      StepValid(before, View(), MainAwait(on));
    }

    /** The parked thread wakes, finds its task done and takes the result. */
    method ResumeOutside() returns (r: int)
      requires Valid() && Enabled(View(), MainResume)
      modifies this
      ensures View() == Apply(old(View()), MainResume) && Valid()
      ensures r == old(tasks)[old(mainWait).value].result
    {
      hide Inv;
      ghost var before := View();
      r := tasks[mainWait.value].result;
      mainWait := None;
      StepValid(before, View(), MainResume);
    }

    /** The counters, then every worker. */
    method LooksQuiet() returns (quiet: bool)
      ensures quiet <==> Quiescent(View())
    {
      if nready != 0 || ntimers != 0 || niowait != 0 { return false; }
      var i := 0;
      while i < |cpu|
        invariant 0 <= i <= |cpu| && forall w :: 0 <= w < i ==> cpu[w] == Idle
      {
        if !cpu[i].Idle? { return false; }
        i := i + 1;
      }
      return true;
    }

    /** One pass of run_all's wait loop: it leaves the loop if and only if the pool is quiescent. */
    method LookForQuiet() returns (quiet: bool)
      requires Valid()
      modifies this
      ensures quiet <==> Quiescent(old(View()))
      ensures Valid() && View() == if quiet then Apply(old(View()), SeeQuiet) else old(View())
    {
      hide Inv;
      ghost var before := View();
      quiet := LooksQuiet();
      if quiet {
        drains := drains + 1;
        seen := |tasks|;
        StepValid(before, View(), SeeQuiet);
      }
    }

    method CapturePolled()
      requires Valid()
      modifies this
      ensures View() == Apply(old(View()), Poll) && Valid()
    {
      hide Inv;
      ghost var before := View();
      polled := iowait;
      StepValid(before, View(), Poll);
    }

    /** Walk captured entries: those that fired leave the wait list and are requeued. */
    method WakeCaptured(captured: seq<TaskId>, fired: set<TaskId>)
      requires Shape(View()) && Known(View(), captured)
      modifies this
      ensures View() == WakeIo(old(View()), captured, fired)
    {
      var es := captured;
      while es != []
        invariant Shape(View()) && Known(View(), es)
        invariant WakeIo(View(), es, fired) == WakeIo(old(View()), captured, fired)
        decreases |es|
      {
        ghost var mid := View();
        var x := es[0];
        if x in fired {
          iowait := Without(iowait, x);
          niowait := niowait - 1;
          ReadyPush(x);
          assert View() == WakeIoOne(mid, x);
        }
        es := es[1..];
      }
    }

    /** poll(2) returned with `fired` ready. */
    method DeliverPolled(fired: set<TaskId>)
      requires Valid()
      modifies this
      ensures View() == Apply(old(View()), Deliver(fired)) && Valid()
    {
      hide Inv;
      ghost var before := View();
      var es := polled;
      polled := [];
      WakeCaptured(es, fired);
      StepValid(before, View(), Deliver(fired));
    }

    /** run_all's cleanup: it has seen the pool quiescent, but does not look again. */
    method CleanupAll()
      requires Valid() && Enabled(View(), Cleanup)
      modifies this
      ensures View() == Apply(old(View()), Cleanup) && (Unused(old(View())) ==> Valid())
      ensures forall t :: 0 <= t < |tasks| ==> tasks[t].frees == 1
    {
      hide Inv, ReclaimAll;
      ghost var before := View();
      FreesAtMostOnce(before);
      var all := FreeAll(tasks);
      tasks := all;
      timers, ntimers, mainWait, drains := [], 0, None, drains - 1;
      ready, nready := seq(|ready|, _ => []), 0;
      Reclaimed(before, View());
      if Unused(before) { StepValid(before, View(), Cleanup); }
    }
  }

  lemma InvClosed(s: Pool)
    requires Inv(s)
    ensures Closed(s)
  {
    var at :| Placed(s, at, {}, None);
    PlacedIsClosed(s, at, {}, None);
  }

  lemma StepValid(s: Pool, s': Pool, step: Step)
    requires Closed(s) && Inv(s) && Enabled(s, step) && s' == Apply(s, step) && (step.Cleanup? ==> Unused(s))
    ensures Closed(s') && Inv(s')
  {
    hide Inv, Apply;
    assert Next(s, s');
    InvStep(s, s');
    InvClosed(s');
  }

  lemma Reclaimed(s: Pool, s': Pool)
    requires |s'.tasks| == |s.tasks| && s.drains > 0
    requires forall t :: 0 <= t < |s.tasks| ==> s'.tasks[t] == if s.tasks[t].frees == 0 then Freed(s.tasks[t]) else s.tasks[t]
    requires s' == s.(tasks := s'.tasks, timers := [], ntimers := 0, mainWait := None, drains := s.drains - 1,
                      ready := seq(|s.ready|, _ => []), nready := 0)
    ensures s' == ReclaimAll(s)
  {
    assert s'.tasks == ReclaimAll(s).tasks;
  }

  lemma FreesAtMostOnce(s: Pool)
    requires Inv(s)
    ensures forall t :: 0 <= t < |s.tasks| ==> s.tasks[t].frees <= 1
  {
    var at :| Placed(s, at, {}, None);
  }

  /** `s` as it was before task `t` was marked done and lost its waiter list `ws`. */
  ghost function Undone(s: Pool, t: TaskId, ws: seq<TaskId>): Pool
    requires t < |s.tasks|
  {
    s.(tasks := s.tasks[t := s.tasks[t].(status := Ready, waiters := ws)])
  }

  /** Every task that still has its stack loses it. */
  method FreeAll(tasks: seq<Task>) returns (all: seq<Task>)
    ensures |all| == |tasks|
    ensures forall j :: 0 <= j < |all| ==> all[j] == if tasks[j].frees == 0 then Freed(tasks[j]) else tasks[j]
  {
    all := tasks;
    var i := 0;
    while i < |tasks|
      invariant 0 <= i <= |tasks| && |all| == |tasks|
      invariant forall j :: 0 <= j < |all| ==>
        all[j] == if j < i && tasks[j].frees == 0 then Freed(tasks[j]) else tasks[j]
    {
      if all[i].frees == 0 { all := all[i := Freed(all[i])]; }
      i := i + 1;
    }
  }

  /** Where a new timer goes: behind the entries due no later. */
  method TimerSpot(tasks: seq<Task>, timers: seq<TaskId>, t: TaskId) returns (k: nat)
    requires t < |tasks| && forall i :: 0 <= i < |timers| ==> timers[i] < |tasks|
    ensures k <= |timers| && InsertByWake(tasks, timers, t) == timers[..k] + [t] + timers[k..]
  {
    hide InsertByWake;
    k := 0;
    while k < |timers| && tasks[timers[k]].wake <= tasks[t].wake
      invariant 0 <= k <= |timers|
      invariant InsertByWake(tasks, timers, t) == timers[..k] + InsertByWake(tasks, timers[k..], t)
    {
      SpotStep(tasks, timers, t, k);
      k := k + 1;
    }
    SpotStep(tasks, timers, t, k);
  }

  /** The insertion in front of the entries from `k` on, one place further or at its place. */
  lemma SpotStep(tasks: seq<Task>, timers: seq<TaskId>, t: TaskId, k: nat)
    requires t < |tasks| && k <= |timers| && forall i :: 0 <= i < |timers| ==> timers[i] < |tasks|
    ensures timers[..k] + InsertByWake(tasks, timers[k..], t)
         == if k < |timers| && tasks[timers[k]].wake <= tasks[t].wake
            then timers[..k + 1] + InsertByWake(tasks, timers[k + 1..], t)
            else timers[..k] + [t] + timers[k..]
  {
    if k < |timers| && tasks[timers[k]].wake <= tasks[t].wake {
      assert timers[k..][1..] == timers[k + 1..];
      var rest := InsertByWake(tasks, timers[k + 1..], t);
      assert InsertByWake(tasks, timers[k..], t) == [timers[k]] + rest;
      hide InsertByWake;
      assert timers[..k] + ([timers[k]] + rest) == timers[..k + 1] + rest;
    }
  }

  /** One turn of the firing loop, or its end. */
  lemma FireStep(s: Pool, now: int)
    requires Shape(s) && Known(s, s.timers)
    ensures if s.timers != [] && s.timers[0] < |s.tasks| && s.tasks[s.timers[0]].wake <= now then
              && Shape(FireOne(s)) && Known(FireOne(s), FireOne(s).timers) && |FireOne(s).timers| < |s.timers|
              && FireDue(s, now) == FireDue(FireOne(s), now)
            else FireDue(s, now) == s
    ensures s.timers != [] ==> s.timers[0] < |s.tasks|
  {
  }

  function Handed(s: Pool, t: TaskId, x: TaskId): Pool
    requires Shape(s) && t < |s.tasks| && x < |s.tasks|
  {
    Push(s.(tasks := s.tasks[x := s.tasks[x].(awaited := s.tasks[t].result)]), x)
  }

  /** Serving the first entry of a detached waiter list is serving the newest waiter. */
  lemma HandOne(s: Pool, t: TaskId, ws: seq<TaskId>)
    requires Shape(s) && t < |s.tasks| && Known(s, ws) && t !in ws && ws != []
    ensures var s' := Handed(s, t, ws[0]);
      && Shape(s') && t < |s'.tasks| && s'.tasks[t] == s.tasks[t] && Known(s', ws[1..]) && t !in ws[1..]
      && WakeWaiters(Undone(s', t, ws[1..]), t) == WakeWaiters(Undone(s, t, ws), t)
  {
    var s' := Handed(s, t, ws[0]);
    assert Undone(s', t, ws[1..]).tasks == WakeOne(Undone(s, t, ws), t).tasks;
    assert Undone(s', t, ws[1..]) == WakeOne(Undone(s, t, ws), t);
  }

  lemma HandNone(s: Pool, t: TaskId)
    requires Shape(s) && t < |s.tasks|
    ensures WakeWaiters(Undone(s, t, []), t) == Undone(s, t, [])
  {
  }

  lemma FinishedView(s: Pool, v: Pool, w: nat, r: int)
    requires Closed(s) && Executing(s, w) && s.cpu[w].task < |v.tasks|
    requires v.tasks[s.cpu[w].task].status == Done && v.tasks[s.cpu[w].task].waiters == []
    requires Undone(v, s.cpu[w].task, []) == WakeWaiters(SetResult(s, s.cpu[w].task, r), s.cpu[w].task)
    ensures v.cpu == s.cpu && FinishTask(s, w, r) == v.(cpu := s.cpu[w := Leaves(s.cpu[w].task)])
  {
    var t := s.cpu[w].task;
    assert SetDone(Undone(v, t, []), t).tasks == v.tasks;
  }

  lemma RunningWaitsOnNothing(s: Pool, w: nat)
    requires Inv(s) && Executing(s, w)
    ensures s.cpu[w].task < |s.tasks| && s.tasks[s.cpu[w].task].status == Ready
    ensures forall u :: 0 <= u < |s.tasks| ==> s.cpu[w].task !in s.tasks[u].waiters
  {
    var at :| Placed(s, at, {}, None);
    var t := s.cpu[w].task;
    assert at[t] == Nowhere;
    forall u | 0 <= u < |s.tasks|
      ensures t !in s.tasks[u].waiters
    {
      assert Lists(s, at, s.tasks[u].waiters, Waiting(u));
    }
  }
}
