/**
 The other half of what could still run: a task that is scheduled, or whose awaits lead to
 one that is, is executed in some continuation of the run.
 */
module FiberPoolProgress {
  import opened Seqs
  import opened FiberPool
  import opened FiberPoolInvariant
  import opened FiberPoolRuns
  import opened FiberPoolTheorems
  import opened FiberPoolDrain

  ghost predicate SameWaiters(s: Pool, s': Pool) {
    && |s'.tasks| == |s.tasks| && |s'.ready| == |s.ready|
    && forall u {:trigger s'.tasks[u]} :: 0 <= u < |s.tasks| ==>
         s'.tasks[u].waiters == s.tasks[u].waiters && s'.tasks[u].home == s.tasks[u].home
  }

  /** `s'` continues `s`, keeps the invariant, and nobody began or stopped waiting for a task. */
  ghost predicate Drives(s: Pool, s': Pool) { Leads(s, s') && Inv(s') && SameWaiters(s, s') }

  lemma LeadsTransitive(a: Pool, b: Pool, c: Pool)
    requires Leads(a, b) && Leads(b, c)
    ensures Leads(a, c)
  {
    hide Next;
    var p :| Trace(p) && p[0] == a && p[|p| - 1] == b;
    var q :| Trace(q) && q[0] == b && q[|q| - 1] == c;
    var r := p + q[1..];
    forall i | 0 <= i < |r| - 1 ensures Next(r[i], r[i + 1]) {
      if i < |p| - 1 {
        assert Next(p[i], p[i + 1]);
      } else {
        assert r[i] == q[i - (|p| - 1)] && r[i + 1] == q[i - (|p| - 1) + 1];
        assert Next(q[i - (|p| - 1)], q[i - (|p| - 1) + 1]);
      }
    }
    assert Trace(r) && r[0] == a && r[|r| - 1] == c;
  }

  lemma LeadsReflexive(s: Pool)
    ensures Leads(s, s)
  {
    assert Trace([s]);
  }

  lemma DrivesInv(s: Pool, s': Pool)
    requires Drives(s, s')
    ensures Inv(s') && |s'.ready| == |s.ready|
  {
    hide Leads, Inv;
  }

  lemma DrivesTransitive(a: Pool, b: Pool, c: Pool)
    requires Drives(a, b) && Drives(b, c)
    ensures Drives(a, c)
  {
    hide Leads, Inv;
    LeadsTransitive(a, b, c);
  }

  // --------------------------------------------------------------- what single steps do

  lemma LeaveEffect(s: Pool, w: nat) returns (s': Pool)
    requires Inv(s) && w < |s.cpu| && s.cpu[w].Leaves?
    ensures Drives(s, s') && s'.cpu == s.cpu[w := Idle] && s'.ready == s.ready && s'.timers == s.timers
  {
    hide Leads, Inv;
    ReapedHasNoWaiters(s, w);
    StepLeads(s, SwapOut(w));
    s' := Apply(s, SwapOut(w));
  }

  lemma ReapedHasNoWaiters(s: Pool, w: nat)
    requires Inv(s) && w < |s.cpu| && s.cpu[w].Leaves?
    ensures Closed(s) && (s.tasks[s.cpu[w].task].reap ==> s.tasks[s.cpu[w].task].waiters == [])
  {
    var at :| Placed(s, at, {}, None);
    PlacedIsClosed(s, at, {}, None);
  }

  lemma YieldEffect(s: Pool, w: nat) returns (s': Pool)
    requires Inv(s) && w < |s.cpu| && s.cpu[w].Runs?
    ensures Drives(s, s') && w < |s'.cpu| && s'.cpu[w].Leaves? && s'.timers == s.timers
    ensures w < |s.ready| && s.ready[w] <= s'.ready[w]
  {
    hide Leads, Inv;
    StepLeads(s, Yield(w));
    s' := Apply(s, Yield(w));
  }

  /** Worker `w` can always be brought back to its scheduler without disturbing its queue's order. */
  lemma ClearWorker(s: Pool, w: nat) returns (s': Pool)
    requires Inv(s) && w < |s.cpu|
    ensures Drives(s, s') && w < |s'.cpu| && s'.cpu[w] == Idle && s'.timers == s.timers
    ensures w < |s.ready| && w < |s'.ready| && s.ready[w] <= s'.ready[w]
  {
    InvShape(s);
    hide Leads, Inv, SameWaiters;
    match s.cpu[w] {
      case Idle =>
        LeadsReflexive(s);
        SameWaitersReflexive(s);
        s' := s;
      case Leaves(_) =>
        s' := LeaveEffect(s, w);
      case Runs(_) =>
        var m := YieldEffect(s, w);
        s' := LeaveEffect(m, w);
        DrivesTransitive(s, m, s');
    }
  }

  lemma InvShape(s: Pool)
    requires Inv(s)
    ensures Closed(s)
  {
    var at :| Placed(s, at, {}, None);
    PlacedIsClosed(s, at, {}, None);
  }

  lemma SameWaitersReflexive(s: Pool)
    ensures SameWaiters(s, s)
  {
  }

  lemma SameWaitersTransitive(a: Pool, b: Pool, c: Pool)
    requires SameWaiters(a, b) && SameWaiters(b, c)
    ensures SameWaiters(a, c)
  {
  }

  lemma {:induction false} FireDueEffect(s: Pool, now: int, w: nat)
    requires Shape(s) && Known(s, s.timers) && w < |s.ready|
    ensures s.ready[w] <= FireDue(s, now).ready[w] && SameWaiters(s, FireDue(s, now))
    decreases |s.timers|
  {
    if s.timers != [] && s.tasks[s.timers[0]].wake <= now {
      FireDueEffect(FireOne(s), now, w);
    }
  }

  /** A turn executes the head of the queue and keeps the order of the rest. */
  lemma TurnEffect(s: Pool, w: nat, now: int) returns (s': Pool)
    requires Inv(s) && w < |s.cpu| && s.cpu[w] == Idle && w < |s.ready| && s.ready[w] != []
    ensures Drives(s, s')
    ensures w < |s'.cpu| && w < |s'.ready| && s'.cpu[w] == Runs(s.ready[w][0]) && s.ready[w][1..] <= s'.ready[w]
  {
    hide Leads, Inv;
    StepLeads(s, Turn(w, now));
    s' := TakeTurn(s, w, now);
    FireDueEffect(s, now, w);
    FireDueKeepsQueues(s, now);
    hide FireDue;
  }

  /** The head of queue `q` has gone, and `q'` begins with the rest. */
  ghost predicate Advanced(q: seq<TaskId>, q': seq<TaskId>) {
    |q| <= |q'| + 1 && forall i :: 0 < i < |q| ==> q[i] == q'[i - 1]
  }

  lemma AdvanceQueue(s: Pool, w: nat) returns (s': Pool)
    requires Inv(s) && w < |s.ready| && s.ready[w] != []
    ensures Drives(s, s') && Inv(s') && w < |s'.cpu| && w < |s'.ready|
    ensures s'.cpu[w] == Runs(s.ready[w][0]) && Advanced(s.ready[w], s'.ready[w])
  {
    assert w < |s.cpu| by { InvShape(s); }
    hide Drives, Inv;
    var m := ClearWorker(s, w);
    DrivesInv(s, m);
    s' := TurnEffect(m, w, 0);
    DrivesInv(m, s');
    DrivesTransitive(s, m, s');
    QueueAdvances(s.ready[w], m.ready[w], s'.ready[w]);
  }

  lemma QueueAdvances(q: seq<TaskId>, m: seq<TaskId>, q': seq<TaskId>)
    requires q != [] && q <= m && m[1..] <= q'
    ensures Advanced(q, q') && m[0] == q[0]
  {
    forall i | 0 < i < |q| ensures q[i] == q'[i - 1] { assert q[i] == m[i] == m[1..][i - 1]; }
  }

  /** Whatever is queued gets executed, if each fiber in front of it yields. */
  lemma {:induction false} RunQueued(s: Pool, w: nat, k: nat) returns (s': Pool)
    requires Inv(s) && w < |s.ready| && k < |s.ready[w]|
    ensures Drives(s, s') && w < |s'.cpu| && s'.cpu[w] == Runs(s.ready[w][k])
    decreases k
  {
    hide Drives, Inv;
    s' := AdvanceQueue(s, w);
    if k > 0 {
      var n := s';
      s' := RunQueued(n, w, k - 1);
      DrivesTransitive(s, n, s');
    }
  }

  lemma RunMember(s: Pool, w: nat, t: TaskId) returns (s': Pool)
    requires Inv(s) && w < |s.ready| && t in s.ready[w]
    ensures Drives(s, s') && w < |s'.cpu| && s'.cpu[w] == Runs(t)
  {
    var k :| 0 <= k < |s.ready[w]| && s.ready[w][k] == t;
    hide Drives, Inv;
    s' := RunQueued(s, w, k);
  }

  // ------------------------------------------------------------------ timers and I/O

  lemma {:induction false} OfWorkerHolds(tasks: seq<Task>, ts: seq<TaskId>, i: nat)
    requires (forall j :: 0 <= j < |ts| ==> ts[j] < |tasks|) && i < |ts|
    ensures ts[i] in OfWorker(tasks, ts, tasks[ts[i]].home)
  {
    if i > 0 {
      OfWorkerHolds(tasks, ts[1..], i - 1);
    }
  }

  lemma FireReaches(s: Pool, t: TaskId)
    requires Inv(s) && t in s.timers
    ensures Closed(s) && t < |s.tasks|
    ensures t in FireDue(s, s.tasks[t].wake).ready[s.tasks[t].home]
  {
    hide Placed;
    var at :| Placed(s, at, {}, None);
    PlacedIsClosed(s, at, {}, None);
    PlacedSize(s, at);
    var i :| 0 <= i < |s.timers| && s.timers[i] == t;
    var k := FireDueIsExact(s, at, s.tasks[t].wake);
    assert s.timers[..k][i] == t;
    OfWorkerHolds(s.tasks, s.timers[..k], i);
  }

  lemma PlacedSize(s: Pool, at: Places)
    requires Placed(s, at, {}, None)
    ensures |at| == |s.tasks|
  {
  }

  /** A timer fires in the turn that comes late enough, and then its fiber is executed. */
  lemma RunTimed(s: Pool, t: TaskId) returns (w: nat, s': Pool)
    requires Inv(s) && t in s.timers
    ensures Drives(s, s') && w < |s'.cpu| && s'.cpu[w] == Runs(t)
  {
    FireReaches(s, t);
    w := s.tasks[t].home;
    hide Inv, Leads, SameWaiters;
    var m := ClearWorker(s, w);
    var n := FiredTurn(m, t, w);
    DrivesTransitive(s, m, n);
    if n.cpu[w] == Runs(t) {
      s' := n;
    } else {
      s' := RunMember(n, w, t);
      DrivesTransitive(s, n, s');
    }
  }

  lemma FiredTurn(s: Pool, t: TaskId, w: nat) returns (s': Pool)
    requires Inv(s) && t in s.timers && t < |s.tasks| && w == s.tasks[t].home && w < |s.cpu| && s.cpu[w] == Idle
    ensures Drives(s, s') && w < |s'.cpu| && w < |s'.ready| && (s'.cpu[w] == Runs(t) || t in s'.ready[w])
  {
    var now := s.tasks[t].wake;
    hide Inv, Leads, Closed, TakeTurn, SameWaiters;
    StepLeads(s, Turn(w, now));
    FireReaches(s, t);
    assert w < |s.ready| by { ClosedSizes(s); }
    s' := TakeTurn(s, w, now);
    LateTurn(s, w, t, now);
  }

  lemma ClosedSizes(s: Pool)
    requires Closed(s)
    ensures |s.ready| == |s.cpu|
  {
  }

  lemma LateTurn(s: Pool, w: nat, t: TaskId, now: int)
    requires Closed(s) && w < |s.ready| && t in FireDue(s, now).ready[w]
    ensures var s' := TakeTurn(s, w, now);
      SameWaiters(s, s') && w < |s'.cpu| && w < |s'.ready| && (s'.cpu[w] == Runs(t) || t in s'.ready[w])
  {
    FireDueEffect(s, now, w);
    FireDueKeepsQueues(s, now);
    hide SameWaiters, FireDue, Dispatch;
    DispatchEffect(FireDue(s, now), w, t);
    SameWaitersTransitive(s, FireDue(s, now), TakeTurn(s, w, now));
  }

  lemma DispatchEffect(s: Pool, w: nat, t: TaskId)
    requires Shape(s) && w < |s.ready| && Known(s, s.ready[w]) && t in s.ready[w]
    ensures var s' := Dispatch(s, w); SameWaiters(s, s') && (s'.cpu[w] == Runs(t) || t in s'.ready[w])
    ensures |Dispatch(s, w).cpu| == |s.cpu| && |Dispatch(s, w).ready| == |s.ready|
  {
    var q := s.ready[w];
    var i :| 0 <= i < |q| && q[i] == t;
    assert i > 0 ==> q[1..][i - 1] == t;
  }

  /** A captured fiber that fired is queued at home, and nothing is stored in it. */
  lemma {:induction false} WakeIoEffect(s: Pool, es: seq<TaskId>, fired: set<TaskId>, t: TaskId)
    requires Shape(s) && Known(s, es) && t < |s.tasks|
    ensures SameWaiters(s, WakeIo(s, es, fired)) && WakeIo(s, es, fired).tasks[t].ioResult == s.tasks[t].ioResult
    ensures t in s.ready[s.tasks[t].home] || (t in es && t in fired) ==> t in WakeIo(s, es, fired).ready[s.tasks[t].home]
    decreases |es|
  {
    if es != [] {
      var e := es[0];
      var m := if e in fired then WakeIoOne(s, e) else s;
      assert e in fired ==> m.ready[s.tasks[e].home] == s.ready[s.tasks[e].home] + [e];
      WakeIoEffect(m, es[1..], fired, t);
      assert es == [e] + es[1..];
    }
  }

  /** The pump captures the wait list, and poll reports the descriptor of `t` alone. */
  lemma IoEffect(s: Pool, t: TaskId) returns (s': Pool)
    requires Inv(s) && t in s.iowait && t < |s.tasks|
    ensures Closed(s) && Drives(s, s') && t in s'.ready[s.tasks[t].home]
  {
    hide Inv, Leads, Closed, WakeIo;
    StepLeads(s, Poll);
    var m := Apply(s, Poll);
    StepLeads(m, Deliver({t}));
    s' := Apply(m, Deliver({t}));
    LeadsTransitive(s, m, s');
    DeliverEffect(s, m, t);
  }

  lemma DeliverEffect(s: Pool, m: Pool, t: TaskId)
    requires Closed(m) && m == s.(polled := s.iowait) && t in s.iowait && t < |s.tasks|
    ensures SameWaiters(s, Apply(m, Deliver({t}))) && t in Apply(m, Deliver({t})).ready[s.tasks[t].home]
  {
    hide WakeIo;
    WakeIoEffect(m.(polled := []), m.polled, {t}, t);
  }

  lemma RunOnIo(s: Pool, t: TaskId) returns (w: nat, s': Pool)
    requires Inv(s) && t in s.iowait && t < |s.tasks|
    ensures Drives(s, s') && w < |s'.cpu| && s'.cpu[w] == Runs(t)
  {
    InvShape(s);
    w := s.tasks[t].home;
    hide Inv, Leads, SameWaiters;
    var n := IoEffect(s, t);
    s' := RunMember(n, w, t);
    DrivesTransitive(s, n, s');
  }

  lemma RunScheduled(s: Pool, t: TaskId) returns (w: nat, s': Pool)
    requires Inv(s) && t < |s.tasks| && Scheduled(s, t)
    ensures Drives(s, s') && w < |s'.cpu| && s'.cpu[w] == Runs(t)
  {
    hide Inv;
    if v :| 0 <= v < |s.cpu| && s.cpu[v] == Runs(t) {
      LeadsReflexive(s);
      w, s' := v, s;
    } else if v :| 0 <= v < |s.ready| && t in s.ready[v] {
      w := v;
      s' := RunMember(s, v, t);
    } else if t in s.timers {
      w, s' := RunTimed(s, t);
    } else {
      w, s' := RunOnIo(s, t);
    }
  }

  // ---------------------------------------------------------------------------- awaits

  /** Finishing `u` queues every fiber that waited on it and touches no other waiter list. */
  lemma {:induction false} WakeWaitersEffect(s: Pool, u: TaskId, t: TaskId)
    requires Shape(s) && u < |s.tasks| && Known(s, s.tasks[u].waiters) && t < |s.tasks|
    ensures t in s.tasks[u].waiters || t in s.ready[s.tasks[t].home] ==> t in WakeWaiters(s, u).ready[s.tasks[t].home]
    ensures |WakeWaiters(s, u).ready| == |s.ready|
    ensures forall v {:trigger WakeWaiters(s, u).tasks[v]} :: 0 <= v < |s.tasks| && v != u ==>
      WakeWaiters(s, u).tasks[v].waiters == s.tasks[v].waiters
    decreases |s.tasks[u].waiters|
  {
    var ws := s.tasks[u].waiters;
    if ws != [] {
      var m := WakeOne(s, u);
      var h := s.tasks[ws[0]].home;
      assert m.ready[h] == s.ready[h] + [ws[0]];
      WakeWaitersEffect(m, u, t);
      assert ws == [ws[0]] + ws[1..];
    }
  }

  lemma FinishEffect(s: Pool, w: nat, t: TaskId) returns (s': Pool)
    requires Inv(s) && w < |s.cpu| && s.cpu[w].Runs? && t < |s.tasks| && s.cpu[w].task < |s.tasks|
    requires t in s.tasks[s.cpu[w].task].waiters
    ensures Leads(s, s') && Inv(s') && |s'.tasks| == |s.tasks| && Scheduled(s', t)
    ensures forall v {:trigger s'.tasks[v]} :: 0 <= v < |s.tasks| && v != s.cpu[w].task ==> s'.tasks[v].waiters == s.tasks[v].waiters
  {
    hide Inv, Leads, Closed, FinishTask;
    StepLeads(s, Finish(w, 0));
    s' := FinishTask(s, w, 0);
    FinishWakes(s, w, 0, t);
  }

  lemma FinishWakes(s: Pool, w: nat, r: int, t: TaskId)
    requires Closed(s) && Executing(s, w) && t < |s.tasks| && t in s.tasks[s.cpu[w].task].waiters
    ensures |FinishTask(s, w, r).tasks| == |s.tasks| && Scheduled(FinishTask(s, w, r), t)
    ensures forall v {:trigger FinishTask(s, w, r).tasks[v]} :: 0 <= v < |s.tasks| && v != s.cpu[w].task ==>
      FinishTask(s, w, r).tasks[v].waiters == s.tasks[v].waiters
  {
    var u := s.cpu[w].task;
    hide WakeWaiters;
    WakeWaitersEffect(SetResult(s, u, r), u, t);
    assert t in FinishTask(s, w, r).ready[s.tasks[t].home];
  }

  /** The path without its last task is one as long as the waiter lists of the others are kept. */
  lemma PathShrinks(s: Pool, s': Pool, c: seq<TaskId>)
    requires AwaitPath(s, c) && |c| > 1 && |s'.tasks| == |s.tasks| && c[|c| - 1] !in c[..|c| - 1]
    requires forall v {:trigger s'.tasks[v]} :: 0 <= v < |s.tasks| && v != c[|c| - 1] ==> s'.tasks[v].waiters == s.tasks[v].waiters
    ensures AwaitPath(s', c[..|c| - 1])
  {
    var d := c[..|c| - 1];
    forall i, j | 0 <= i < j < |d| && j == i + 1 ensures d[i] in s'.tasks[d[j]].waiters {
      assert c[i] in s.tasks[c[j]].waiters && d[j] in d;
    }
  }

  lemma PathFacts(s: Pool, c: seq<TaskId>)
    requires AwaitPath(s, c)
    ensures |c| > 0 && c[|c| - 1] < |s.tasks| && c[0] < |s.tasks|
    ensures |c| > 1 ==> c[|c| - 2] < |s.tasks| && c[|c| - 2] in s.tasks[c[|c| - 1]].waiters
  {
  }

  lemma PathCut(s: Pool, c: seq<TaskId>, j: nat)
    requires AwaitPath(s, c) && j < |c|
    ensures AwaitPath(s, c[..j + 1]) && c[..j + 1][0] == c[0] && c[..j + 1][j] == c[j]
  {
  }

  /** The last task of the path is executed and finishes, which schedules the one before it. */
  lemma FinishLast(s: Pool, c: seq<TaskId>) returns (s': Pool)
    requires Inv(s) && AwaitPath(s, c) && Scheduled(s, c[|c| - 1]) && |c| > 1 && c[|c| - 1] !in c[..|c| - 1]
    ensures Leads(s, s') && Inv(s') && AwaitPath(s', c[..|c| - 1]) && Scheduled(s', c[|c| - 2])
  {
    hide Inv, Leads, Scheduled, AwaitPath;
    PathFacts(s, c);
    var w, m := RunScheduled(s, c[|c| - 1]);
    s' := FinishEffect(m, w, c[|c| - 2]);
    LeadsTransitive(s, m, s');
    PathShrinks(s, s', c);
  }

  lemma {:induction false} RunPath(s: Pool, c: seq<TaskId>) returns (w: nat, s': Pool)
    requires Inv(s) && AwaitPath(s, c) && Scheduled(s, c[|c| - 1])
    ensures Leads(s, s') && Inv(s') && w < |s'.cpu| && s'.cpu[w] == Runs(c[0])
    decreases |c|
  {
    hide Inv, Leads, Scheduled, AwaitPath, SameWaiters;
    PathFacts(s, c);
    if |c| == 1 {
      w, s' := RunScheduled(s, c[0]);
    } else if c[|c| - 1] in c[..|c| - 1] {
      var j :| 0 <= j < |c| - 1 && c[..|c| - 1][j] == c[|c| - 1];
      PathCut(s, c, j);
      w, s' := RunPath(s, c[..j + 1]);
    } else {
      var m := FinishLast(s, c);
      w, s' := RunPath(m, c[..|c| - 1]);
      LeadsTransitive(s, m, s');
    }
  }

  lemma RunningIsScheduled(s: Pool, w: nat)
    requires w < |s.cpu|
    ensures s.cpu[w].Runs? ==> Scheduled(s, s.cpu[w].task)
  {
  }

  /**
   A task could still run, in the sense of its awaits leading to a scheduled task, if and
   only if some continuation of the run executes it.
   */
  lemma CouldRunExactly(s: Pool, t: TaskId)
    requires Reachable(s) && t < |s.tasks|
    ensures CouldRun(s, t) <==> exists s', w :: Leads(s, s') && 0 <= w < |s'.cpu| && s'.cpu[w] == Runs(t)
  {
    hide Reachable, Inv, Leads, Scheduled;
    ReachableInv(s);
    if CouldRun(s, t) {
      var c :| AwaitPath(s, c) && c[0] == t && Scheduled(s, c[|c| - 1]);
      var w, s' := RunPath(s, c);
    } else {
      forall s', w | Leads(s, s') && 0 <= w < |s'.cpu| ensures s'.cpu[w] != Runs(t) {
        StuckForever(s, s', t);
        RunningIsScheduled(s', w);
      }
    }
  }

  /** Executing the awaited task to its end lets the outside awaiter go. */
  lemma AwaiterFreed(s: Pool, t: TaskId, w: nat) returns (s': Pool)
    requires Inv(s) && s.mainWait == Some(t) && w < |s.cpu| && s.cpu[w] == Runs(t)
    ensures Leads(s, s') && s'.mainWait != Some(t)
  {
    hide Inv, Leads, Closed, FinishTask;
    StepLeads(s, Finish(w, 0));
    var m := FinishTask(s, w, 0);
    FinishRecords(s, w, t);
    StepLeads(m, MainResume);
    s' := Apply(m, MainResume);
    LeadsTransitive(s, m, s');
  }

  lemma FinishRecords(s: Pool, w: nat, t: TaskId)
    requires Closed(s) && w < |s.cpu| && s.cpu[w] == Runs(t)
    ensures var m := FinishTask(s, w, 0); m.mainWait == s.mainWait && t < |m.tasks| && m.tasks[t].status == Done
  {
    WakeWaitersSide(SetResult(s, t, 0), t);
    hide WakeWaiters;
  }

  lemma {:induction false} WakeWaitersSide(s: Pool, u: TaskId)
    requires Shape(s) && u < |s.tasks| && Known(s, s.tasks[u].waiters)
    ensures WakeWaiters(s, u).mainWait == s.mainWait
    decreases |s.tasks[u].waiters|
  {
    if s.tasks[u].waiters != [] { WakeWaitersSide(WakeOne(s, u), u); }
  }

  /**
   A thread outside the pool that awaits `t` leaves its wait in some continuation if and
   only if `t` is done or could still run.
   */
  lemma AwaiterLeavesExactly(s: Pool, t: TaskId)
    requires Reachable(s) && s.mainWait == Some(t)
    ensures Live(s, t)
    ensures (exists s' :: Leads(s, s') && s'.mainWait != Some(t)) <==> s.tasks[t].status == Done || CouldRun(s, t)
  {
    hide Reachable, Inv, Leads, Scheduled;
    var at := ReachablePlaced(s);
    assert Live(s, t) by { AwaitedOutsideIsLive(s, at); }
    ReachableInv(s);
    if s.tasks[t].status == Done {
      DoneEscapes(s, at, t);
    } else if CouldRun(s, t) {
      var c :| AwaitPath(s, c) && c[0] == t && Scheduled(s, c[|c| - 1]);
      var w, m := RunPath(s, c);
      if m.mainWait == Some(t) {
        var s' := AwaiterFreed(m, t, w);
        LeadsTransitive(s, m, s');
      }
    } else {
      forall s' | Leads(s, s') ensures s'.mainWait == Some(t) { StuckAwaiter(s, s', t); }
    }
  }

  lemma AwaitedOutsideIsLive(s: Pool, at: Places)
    requires Placed(s, at, {}, None) && s.mainWait.Some?
    ensures Live(s, s.mainWait.value)
  {
  }

  lemma StuckAwaiter(s: Pool, s': Pool, t: TaskId)
    requires Inv(s) && s.mainWait == Some(t) && t < |s.tasks| && s.tasks[t].status != Done && !CouldRun(s, t) && Leads(s, s')
    ensures s'.mainWait == Some(t)
  {
    hide Inv, Next, Still, CouldRun, Idlers;
    IdlersStayPut(s);
    IdlersMembers(s);
    var states :| Trace(states) && states[0] == s && states[|states| - 1] == s';
    ParkedForever(states, Idlers(s), t);
  }

  // ------------------------------------------------------------- what an I/O wait returns

  /** No step stores anything but 0 as the result of an I/O wait. */
  lemma IoResultStep(s: Pool, s': Pool)
    requires Inv(s) && Next(s, s') && NoIoResults(s)
    ensures NoIoResults(s')
  {
    hide Placed;
    var at :| Placed(s, at, {}, None);
    var step :| Enabled(s, step) && (step.Cleanup? ==> Unused(s)) && s' == Apply(s, step);
    StepSize(s, step);
    hide Apply, Closed, Enabled;
    forall t | 0 <= t < |s'.tasks| ensures s'.tasks[t].ioResult == 0 {
      if t < |s.tasks| { StepLife(s, at, step, t); }
    }
  }

  lemma StepSize(s: Pool, step: Step)
    requires Closed(s) && Enabled(s, step)
    ensures |Apply(s, step).tasks| == if step.Spawn? then |s.tasks| + 1 else |s.tasks|
    ensures step.Spawn? ==> Apply(s, step).tasks[|s.tasks|].ioResult == 0
  {
    match step
    case Spawn => assert SpawnTask(s).tasks[|s.tasks|].ioResult == 0;
    case Turn(w, now) => FireDueKeepsQueues(s, now);
    case _ =>
  }

  ghost predicate NoIoResults(s: Pool) { forall t :: 0 <= t < |s.tasks| ==> s.tasks[t].ioResult == 0 }

  lemma {:induction false} RunIoResult(states: seq<Pool>)
    requires Run(states)
    ensures NoIoResults(states[|states| - 1])
  {
    hide Inv, Next;
    RunInv(states);
    var n :| n > 0 && states[0] == Start(n);
    var k := 0;
    while k < |states| - 1
      invariant 0 <= k < |states| && NoIoResults(states[k])
    {
      assert Next(states[k], states[k + 1]);
      IoResultStep(states[k], states[k + 1]);
      k := k + 1;
    }
  }

  /**
   In every reachable state a captured fiber whose descriptor fired is queued by the delivery
   and will find 0, whatever fired: the events are not handed to it.
   */
  lemma IoWaitReturnsZero(s: Pool, fired: set<TaskId>, t: TaskId)
    requires Reachable(s) && t in s.polled && t in fired
    ensures NoIoResults(s) && Closed(s)
    ensures var s' := Apply(s, Deliver(fired));
      && Shape(s') && t < |s'.tasks| && t in s'.ready[s'.tasks[t].home] && s'.tasks[t].ioResult == 0
  {
    hide Next, Inv, WakeIo;
    ReachableInv(s);
    InvShape(s);
    var states :| Run(states) && states[|states| - 1] == s;
    RunIoResult(states);
    hide Run;
    WakeIoEffect(s.(polled := []), s.polled, fired, t);
  }
}
