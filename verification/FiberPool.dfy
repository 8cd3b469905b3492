/**
 The fiber executor as a transition system. One step is one section that holds the
 executor lock; a fiber that has queued itself is still on its stack until the
 separate `SwapOut` step, as between the unlock and `swapcontext` in the runtime.
 */
module FiberPool {
  import opened Seqs

  /** A task handle. Handles are numbered in spawn order and not reused. */
  type TaskId = nat

  datatype Status = Ready | Blocked | Done

  /** Where a suspended fiber resumes: inside an await of a named task, inside an I/O wait, or anywhere else. */
  datatype Resume = Plain | InAwait(on: TaskId) | InIo

  datatype Task = Task(
    home: nat,
    status: Status,
    reap: bool,
    fullyDone: bool,
    result: int,
    wake: int,
    waiters: seq<TaskId>,
    awaited: int,
    ioResult: int,                 // what an I/O wait returns when it resumes
    resume: Resume,
    frees: nat)                    // how often the stack and record have been freed

  /** What a worker thread is doing: `Leaves` is between the unlock and the swap. */
  datatype Cpu = Idle | Runs(task: TaskId) | Leaves(task: TaskId)

  datatype Pool = Pool(
    tasks: seq<Task>,              // every task ever spawned; the live ones are not freed
    ready: seq<seq<TaskId>>,       // one FIFO queue per worker
    timers: seq<TaskId>,           // ascending by wake time
    iowait: seq<TaskId>,           // newest first
    polled: seq<TaskId>,           // the entries the I/O pump captured before it polls
    cpu: seq<Cpu>,                 // one entry per worker
    nready: int,
    ntimers: int,
    niowait: int,
    mainWait: Option<TaskId>,
    spin: nat,
    drains: nat,                   // run_all calls that have seen quiescence and not yet reclaimed
    seen: nat,                     // how many tasks had been spawned when the last of them looked
    pushed: seq<seq<TaskId>>,      // history: what was ever queued to, and
    popped: seq<seq<TaskId>>)      // dispatched by, each worker

  datatype Step =
    | Spawn
    | Turn(w: nat, now: int)                 // a worker's scheduler turn
    | Yield(w: nat)
    | Sleep(w: nat, now: int, ms: int)
    | Await(w: nat, on: TaskId)
    | IoWait(w: nat, registered: bool)
    | Finish(w: nat, r: int)
    | SwapOut(w: nat)
    | Poll                                   // the pump copies the wait list
    | Deliver(fired: set<TaskId>)            // poll(2) returned; wake what is ready
    | MainAwait(on: TaskId)
    | MainResume
    | Detach(t: TaskId)
    | SeeQuiet                               // run_all leaves its wait loop
    | Cleanup                                // run_all reclaims every task

  predicate Live(s: Pool, t: TaskId) { t < |s.tasks| && s.tasks[t].frees == 0 }

  // ---------------------------------------------------------------- list operations

  ghost predicate Known(s: Pool, ts: seq<TaskId>) {
    forall i :: 0 <= i < |ts| ==> ts[i] < |s.tasks|
  }

  ghost predicate Shape(s: Pool) {
    && 0 < |s.ready| == |s.cpu| == |s.pushed| == |s.popped|
    && forall t :: 0 <= t < |s.tasks| ==> s.tasks[t].home < |s.ready|
  }

  function Push(s: Pool, t: TaskId): Pool
    requires Shape(s) && t < |s.tasks|
  {
    var w := s.tasks[t].home;
    s.(tasks := s.tasks[t := s.tasks[t].(status := Ready)],
       ready := s.ready[w := s.ready[w] + [t]],
       pushed := s.pushed[w := s.pushed[w] + [t]],
       nready := s.nready + 1)
  }

  /** The timer list with `t` put after every entry that is due no later than `t`. */
  function InsertByWake(tasks: seq<Task>, ts: seq<TaskId>, t: TaskId): (r: seq<TaskId>)
    requires t < |tasks| && forall i :: 0 <= i < |ts| ==> ts[i] < |tasks|
    ensures forall i :: 0 <= i < |r| ==> r[i] < |tasks|
  {
    if ts == [] || tasks[t].wake < tasks[ts[0]].wake then [t] + ts
    else [ts[0]] + InsertByWake(tasks, ts[1..], t)
  }

  function AddTimer(s: Pool, t: TaskId, wake: int): Pool
    requires t < |s.tasks| && Known(s, s.timers)
  {
    var tasks := s.tasks[t := s.tasks[t].(wake := wake, status := Blocked)];
    s.(tasks := tasks, timers := InsertByWake(tasks, s.timers, t), ntimers := s.ntimers + 1)
  }

  function AddWaiter(s: Pool, t: TaskId, on: TaskId): Pool
    requires t < |s.tasks| && on < |s.tasks|
  {
    var tasks := s.tasks[on := s.tasks[on].(waiters := [t] + s.tasks[on].waiters)];
    s.(tasks := tasks[t := tasks[t].(status := Blocked, resume := InAwait(on))])
  }

  /** Fiber `t` is inside an I/O wait, whose result is cleared before it suspends. */
  function EnterIo(s: Pool, t: TaskId): Pool
    requires t < |s.tasks|
  {
    s.(tasks := s.tasks[t := s.tasks[t].(ioResult := 0, resume := InIo)])
  }

  function AddIo(s: Pool, t: TaskId): Pool
    requires t < |s.tasks|
  {
    s.(tasks := s.tasks[t := s.tasks[t].(status := Blocked)],
       iowait := [t] + s.iowait, niowait := s.niowait + 1)
  }

  function PopTimer(s: Pool): Pool
    requires s.timers != [] && s.timers[0] < |s.tasks|
  {
    var t := s.timers[0];
    s.(tasks := s.tasks[t := s.tasks[t].(wake := -1)], timers := s.timers[1..], ntimers := s.ntimers - 1)
  }

  function PopWaiter(s: Pool, u: TaskId): Pool
    requires u < |s.tasks| && s.tasks[u].waiters != [] && s.tasks[u].waiters[0] < |s.tasks|
  {
    var t := s.tasks[u].waiters[0];
    var tasks := s.tasks[u := s.tasks[u].(waiters := s.tasks[u].waiters[1..])];
    s.(tasks := tasks[t := tasks[t].(awaited := s.tasks[u].result)])
  }

  function RemoveIo(s: Pool, t: TaskId): Pool {
    s.(iowait := Without(s.iowait, t), niowait := s.niowait - 1)
  }

  // ------------------------------------------------------------- whole lock sections

  /** The earliest timer requeued. */
  function FireOne(s: Pool): Pool
    requires Shape(s) && s.timers != [] && s.timers[0] < |s.tasks|
  {
    Push(PopTimer(s), s.timers[0])
  }

  /** Requeue every timer due at or before `now`. */
  function FireDue(s: Pool, now: int): (s': Pool)
    requires Shape(s) && Known(s, s.timers)
    ensures Shape(s') && |s'.tasks| == |s.tasks| && s'.cpu == s.cpu
    decreases |s.timers|
  {
    if s.timers != [] && s.tasks[s.timers[0]].wake <= now then FireDue(FireOne(s), now) else s
  }

  function Dispatch(s: Pool, w: nat): Pool
    requires Shape(s) && w < |s.ready| && Known(s, s.ready[w])
  {
    if s.ready[w] == [] then s else
      var t := s.ready[w][0];
      s.(tasks := s.tasks[t := s.tasks[t].(fullyDone := false, resume := Plain)],
         ready := s.ready[w := s.ready[w][1..]],
         popped := s.popped[w := s.popped[w] + [t]],
         nready := s.nready - 1,
         cpu := s.cpu[w := Runs(t)])
  }

  /** The newest waiter of `u` given its result and requeued. */
  function WakeOne(s: Pool, u: TaskId): Pool
    requires Shape(s) && u < |s.tasks| && s.tasks[u].waiters != [] && s.tasks[u].waiters[0] < |s.tasks|
  {
    Push(PopWaiter(s, u), s.tasks[u].waiters[0])
  }

  /** Deliver the result of `u` to every fiber waiting on it, newest waiter first. */
  function WakeWaiters(s: Pool, u: TaskId): (s': Pool)
    requires Shape(s) && u < |s.tasks| && Known(s, s.tasks[u].waiters)
    ensures Shape(s') && |s'.tasks| == |s.tasks| && s'.cpu == s.cpu
    decreases |s.tasks[u].waiters|
  {
    if s.tasks[u].waiters == [] then s else WakeWaiters(WakeOne(s, u), u)
  }

  function SetResult(s: Pool, t: TaskId, r: int): Pool
    requires t < |s.tasks|
  {
    s.(tasks := s.tasks[t := s.tasks[t].(result := r)])
  }

  function SetDone(s: Pool, t: TaskId): Pool
    requires t < |s.tasks|
  {
    s.(tasks := s.tasks[t := s.tasks[t].(status := Done)])
  }

  function Depart(s: Pool, w: nat): Pool
    requires w < |s.cpu| && s.cpu[w].Runs?
  {
    s.(cpu := s.cpu[w := Leaves(s.cpu[w].task)])
  }

  /** One captured entry taken off the wait list and requeued. */
  function WakeIoOne(s: Pool, t: TaskId): Pool
    requires Shape(s) && t < |s.tasks|
  {
    Push(RemoveIo(s, t), t)
  }

  /** The captured entries `es`, in order: those that fired leave the wait list and are requeued. */
  function WakeIo(s: Pool, es: seq<TaskId>, fired: set<TaskId>): (s': Pool)
    requires Shape(s) && Known(s, es)
    ensures Shape(s') && |s'.tasks| == |s.tasks|
    decreases |es|
  {
    if es == [] then s
    else WakeIo(if es[0] in fired then WakeIoOne(s, es[0]) else s, es[1..], fired)
  }

  /** The record of a task whose stack and record have been given back. */
  function Freed(t: Task): Task { t.(frees := t.frees + 1, waiters := [], resume := Plain) }

  function Reap(s: Pool, t: TaskId): Pool
    requires t < |s.tasks|
  {
    s.(tasks := s.tasks[t := Freed(s.tasks[t])])
  }

  // ---------------------------------------------------------------- the transitions

  /** No worker runs a fiber and no queue, timer or I/O wait is pending. */
  predicate Quiescent(s: Pool) {
    && s.nready == 0 && s.ntimers == 0 && s.niowait == 0
    && forall w :: 0 <= w < |s.cpu| ==> s.cpu[w] == Idle
  }

  /** Worker `w` is in the middle of a fiber's own code. */
  predicate Executing(s: Pool, w: nat) { w < |s.cpu| && s.cpu[w].Runs? }

  /**
   When a step may be taken. A detached handle is not awaited again, and one thread outside
   the pool awaits at a time. Nothing is refused while a run_all is between its quiescence
   check and its cleanup: tasks may be spawned, awaited and detached there, and other
   run_all calls may check and reclaim too.
   */
  predicate Enabled(s: Pool, step: Step) {
    match step
    case Spawn => true
    case Turn(w, _) => w < |s.cpu| && s.cpu[w].Idle?
    case Yield(w) => Executing(s, w)
    case Sleep(w, _, _) => Executing(s, w)
    case Await(w, on) => Executing(s, w) && Live(s, on) && !s.tasks[on].reap
    case IoWait(w, _) => Executing(s, w)
    case Finish(w, _) => Executing(s, w)
    case SwapOut(w) => w < |s.cpu| && s.cpu[w].Leaves?
    case Poll => true
    case Deliver(_) => true
    case MainAwait(on) => s.mainWait.None? && Live(s, on) && !s.tasks[on].reap
    case MainResume => s.mainWait.Some? && s.mainWait.value < |s.tasks| && s.tasks[s.mainWait.value].status.Done?
    case Detach(t) => Live(s, t)
    case SeeQuiet => Quiescent(s)
    case Cleanup => s.drains > 0
  }

  /** What the list operations rely on: queues, timers, waiters and captures hold known tasks. */
  ghost predicate Closed(s: Pool) {
    && Shape(s)
    && (forall w :: 0 <= w < |s.ready| ==> Known(s, s.ready[w]))
    && Known(s, s.timers)
    && (forall u :: 0 <= u < |s.tasks| ==> Known(s, s.tasks[u].waiters))
    && Known(s, s.polled)
    && (forall w :: 0 <= w < |s.cpu| && !s.cpu[w].Idle? ==> s.cpu[w].task < |s.tasks|)
  }

  function SpawnTask(s: Pool): Pool
    requires Shape(s)
  {
    var t := Task(s.spin % |s.ready|, Ready, false, false, 0, -1, [], 0, 0, Plain, 0);
    Push(s.(tasks := s.tasks + [t], spin := s.spin + 1), |s.tasks|)
  }

  lemma {:induction false} FireDueKeepsQueues(s: Pool, now: int)
    requires Shape(s) && Known(s, s.timers)
    requires forall w :: 0 <= w < |s.ready| ==> Known(s, s.ready[w])
    ensures forall w :: 0 <= w < |s.ready| ==> Known(s, FireDue(s, now).ready[w])
    decreases |s.timers|
  {
    if s.timers != [] && s.tasks[s.timers[0]].wake <= now {
      FireDueKeepsQueues(FireOne(s), now);
    }
  }

  function TakeTurn(s: Pool, w: nat, now: int): Pool
    requires Closed(s) && w < |s.ready|
  {
    FireDueKeepsQueues(s, now);
    Dispatch(FireDue(s, now), w)
  }

  function LeaveStack(s: Pool, w: nat): Pool
    requires w < |s.cpu| && s.cpu[w].Leaves? && s.cpu[w].task < |s.tasks|
  {
    var t := s.cpu[w].task;
    var s' := s.(tasks := s.tasks[t := s.tasks[t].(fullyDone := true)], cpu := s.cpu[w := Idle]);
    if s.tasks[t].reap && s.tasks[t].status.Done? then Reap(s', t) else s'
  }

  function DetachTask(s: Pool, t: TaskId): Pool
    requires t < |s.tasks|
  {
    if s.tasks[t].reap || s.tasks[t].waiters != [] || s.mainWait == Some(t) then s else
      var s' := s.(tasks := s.tasks[t := s.tasks[t].(reap := true)]);
      if s.tasks[t].status.Done? && s.tasks[t].fullyDone then Reap(s', t) else s'
  }

  /** A fiber's function has returned `r`: record it, wake the waiters, leave. */
  function FinishTask(s: Pool, w: nat, r: int): Pool
    requires Closed(s) && Executing(s, w)
  {
    var t := s.cpu[w].task;
    Depart(SetDone(WakeWaiters(SetResult(s, t, r), t), t), w)
  }

  /** run_all's cleanup: empties the lists and frees every live task, whatever its state. */
  function ReclaimAll(s: Pool): Pool
    requires s.drains > 0
  {
    s.(tasks := seq(|s.tasks|, i requires 0 <= i < |s.tasks| =>
                      if Live(s, i) then Freed(s.tasks[i]) else s.tasks[i]),
       timers := [], ntimers := 0, ready := seq(|s.ready|, _ => []), nready := 0,
       mainWait := None, drains := s.drains - 1)
  }

  function Apply(s: Pool, step: Step): Pool
    requires Closed(s) && Enabled(s, step)
  {
    match step
    case Spawn => SpawnTask(s)
    case Turn(w, now) => TakeTurn(s, w, now)
    case Yield(w) => Push(Depart(s, w), s.cpu[w].task)
    case Sleep(w, now, ms) => AddTimer(Depart(s, w), s.cpu[w].task, now + ms)
    case Await(w, on) =>
      if s.tasks[on].status.Done? then s else AddWaiter(Depart(s, w), s.cpu[w].task, on)
    case IoWait(w, ok) =>
      var m := EnterIo(Depart(s, w), s.cpu[w].task);
      if ok then AddIo(m, s.cpu[w].task) else Push(m, s.cpu[w].task)
    case Finish(w, r) => FinishTask(s, w, r)
    case SwapOut(w) => LeaveStack(s, w)
    case Poll => s.(polled := s.iowait)
    case Deliver(fired) => WakeIo(s.(polled := []), s.polled, fired)
    case MainAwait(on) => if s.tasks[on].status.Done? then s else s.(mainWait := Some(on))
    case MainResume => s.(mainWait := None)
    case Detach(t) => DetachTask(s, t)
    case SeeQuiet => s.(drains := s.drains + 1, seen := |s.tasks|)
    case Cleanup => ReclaimAll(s)
  }

  /** An idle pool of `n` workers. */
  function Start(n: nat): Pool
    requires n > 0
  {
    Pool([], seq(n, _ => []), [], [], [], seq(n, _ => Idle), 0, 0, 0, None, 0, 0, 0,
         seq(n, _ => []), seq(n, _ => []))
  }
}
