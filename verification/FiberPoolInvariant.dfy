/** What every step of the executor keeps, and what holds over whole runs. */
module FiberPoolInvariant {
  import opened Seqs
  import opened FiberPool

  /** The one list a suspended task is on. */
  datatype Place = Nowhere | Queued | Timed | Waiting(on: TaskId) | OnIo

  type Places = seq<Place>

  // ------------------------------------------------------------------ the invariant

  /** `list` holds, once each, exactly the live tasks placed at `p`, in status `st`. */
  ghost predicate Lists(s: Pool, at: Places, list: seq<TaskId>, p: Place)
    requires |at| == |s.tasks|
  {
    && Distinct(list)
    && (forall i :: 0 <= i < |list| ==> Live(s, list[i]) && at[list[i]] == p)
    && (forall t :: 0 <= t < |at| && at[t] == p ==> t in list)
  }

  ghost predicate QueuesOk(s: Pool, at: Places)
    requires Shape(s) && |at| == |s.tasks|
  {
    && (forall w :: 0 <= w < |s.ready| ==> Distinct(s.ready[w]))
    && (forall w, i :: 0 <= w < |s.ready| && 0 <= i < |s.ready[w]| ==>
          && Live(s, s.ready[w][i]) && at[s.ready[w][i]] == Queued
          && s.tasks[s.ready[w][i]].home == w)
    && (forall t :: 0 <= t < |at| && at[t] == Queued ==> t in s.ready[s.tasks[t].home])
    && s.nready == TotalLength(s.ready)
    && (forall w :: 0 <= w < |s.ready| ==> s.pushed[w] == s.popped[w] + s.ready[w])
  }

  ghost predicate TimersOk(s: Pool, at: Places)
    requires |at| == |s.tasks|
  {
    && Lists(s, at, s.timers, Timed)
    && Ascending(s.tasks, s.timers)
    && s.ntimers == |s.timers|
  }

  ghost predicate WaiterLists(s: Pool, at: Places)
    requires |at| == |s.tasks|
  {
    forall u :: 0 <= u < |at| ==> Lists(s, at, s.tasks[u].waiters, Waiting(u))
  }

  /** `fin` is the task whose result is being handed out, if any. */
  ghost predicate Deliveries(s: Pool, at: Places, fin: Option<TaskId>)
    requires |at| == |s.tasks|
  {
    && (forall t :: 0 <= t < |at| && at[t].Waiting? ==>
          Live(s, at[t].on) && s.tasks[at[t].on].status != Done && s.tasks[t].resume == InAwait(at[t].on))
    && (forall t :: 0 <= t < |at| && s.tasks[t].resume.InAwait? && !at[t].Waiting? ==>
          s.tasks[t].resume.on < |at| && Delivered(s, t, s.tasks[t].resume.on, fin))
  }

  ghost predicate WaitersOk(s: Pool, at: Places, fin: Option<TaskId>)
    requires |at| == |s.tasks|
  {
    WaiterLists(s, at) && Deliveries(s, at, fin)
  }

  /** The value stashed for `t` is the result `u` finished with. */
  ghost predicate Delivered(s: Pool, t: TaskId, u: TaskId, fin: Option<TaskId>)
    requires t < |s.tasks| && u < |s.tasks|
  {
    (s.tasks[u].status == Done || fin == Some(u)) && s.tasks[t].awaited == s.tasks[u].result
  }

  ghost predicate IoOk(s: Pool, at: Places)
    requires |at| == |s.tasks|
  {
    && Lists(s, at, s.iowait, OnIo)
    && Distinct(s.polled)
    && (forall i :: 0 <= i < |s.polled| ==> s.polled[i] in s.iowait)
    && s.niowait == |s.iowait|
  }

  /** `limbo` holds the tasks a lock section has taken off one list and not yet put on another. */
  ghost predicate WorkersOk(s: Pool, at: Places, limbo: set<TaskId>)
    requires Shape(s) && |at| == |s.tasks|
  {
    && (forall w :: 0 <= w < |s.cpu| && !s.cpu[w].Idle? ==>
          && Live(s, s.cpu[w].task) && s.tasks[s.cpu[w].task].home == w
          && !s.tasks[s.cpu[w].task].fullyDone)
    && (forall w :: 0 <= w < |s.cpu| && s.cpu[w].Runs? ==>
          s.tasks[s.cpu[w].task].status == Ready && s.tasks[s.cpu[w].task].resume == Plain)
    && (forall t {:trigger at[t]} :: 0 <= t < |at| ==>
          (at[t] == Nowhere <==>
           !Live(s, t) || s.tasks[t].status == Done || s.cpu[s.tasks[t].home] == Runs(t) || t in limbo))
    && (forall t :: t in limbo ==> Live(s, t) && s.tasks[t].status != Done && s.cpu[s.tasks[t].home] != Runs(t))
    && (forall t {:trigger at[t]} :: 0 <= t < |at| && at[t] != Nowhere ==>
          s.tasks[t].status == if at[t] == Queued then Ready else Blocked)
  }

  ghost predicate LifecycleOk(s: Pool)
    requires Shape(s)
  {
    && (forall t {:trigger s.tasks[t].frees} :: 0 <= t < |s.tasks| ==> s.tasks[t].frees <= 1)
    && (forall t :: 0 <= t < |s.tasks| && Live(s, t) && s.tasks[t].status == Done ==>
          && s.tasks[t].waiters == []
          && (!s.tasks[t].fullyDone || s.tasks[t].reap ==> s.cpu[s.tasks[t].home] == Leaves(t)))
    && (forall t {:trigger s.tasks[t].reap} :: 0 <= t < |s.tasks| && s.tasks[t].reap ==> s.tasks[t].waiters == [] && s.mainWait != Some(t))
    && (s.mainWait.Some? ==> Live(s, s.mainWait.value))
  }

  ghost predicate Placed(s: Pool, at: Places, limbo: set<TaskId>, fin: Option<TaskId>) {
    && Shape(s) && |at| == |s.tasks|
    && QueuesOk(s, at) && TimersOk(s, at) && WaitersOk(s, at, fin) && IoOk(s, at)
    && WorkersOk(s, at, limbo) && LifecycleOk(s)
  }

  /** Every live task has one place. */
  ghost predicate Inv(s: Pool) {
    exists at: Places :: Placed(s, at, {}, None)
  }

  lemma PlacedIsClosed(s: Pool, at: Places, limbo: set<TaskId>, fin: Option<TaskId>)
    requires Placed(s, at, limbo, fin)
    ensures Closed(s)
  {
  }

  // ---------------------------------------------- parts a change of one task leaves alone

  /** Only `c` may have changed its record or its place, and it has not been freed. */
  ghost predicate OnlyTask(s: Pool, s': Pool, at: Places, at': Places, c: TaskId) {
    && |at| == |s.tasks| == |s'.tasks| == |at'| && Live(s, c) && Live(s', c)
    && s'.tasks == s.tasks[c := s'.tasks[c]] && at' == at[c := at'[c]]
    && s'.tasks[c].home == s.tasks[c].home
  }

  lemma TimersFrame(s: Pool, s': Pool, at: Places, at': Places, c: TaskId)
    requires OnlyTask(s, s', at, at', c) && TimersOk(s, at)
    requires (at[c] != Timed && at'[c] != Timed) || (at[c] == at'[c] && s'.tasks[c].wake == s.tasks[c].wake)
    requires s'.timers == s.timers && s'.ntimers == s.ntimers
    ensures TimersOk(s', at')
  {
  }

  lemma QueuesFrame(s: Pool, s': Pool, at: Places, at': Places, c: TaskId)
    requires Shape(s) && Shape(s') && OnlyTask(s, s', at, at', c) && QueuesOk(s, at)
    requires (at[c] != Queued && at'[c] != Queued) || at[c] == at'[c]
    requires s'.ready == s.ready && s'.nready == s.nready && s'.pushed == s.pushed && s'.popped == s.popped
    ensures QueuesOk(s', at')
  {
  }

  lemma IoFrame(s: Pool, s': Pool, at: Places, at': Places, c: TaskId)
    requires OnlyTask(s, s', at, at', c) && IoOk(s, at)
    requires (at[c] != OnIo && at'[c] != OnIo) || at[c] == at'[c]
    requires s'.iowait == s.iowait && s'.niowait == s.niowait && s'.polled == s.polled
    ensures IoOk(s', at')
  {
  }

  lemma WaitersFrame(s: Pool, s': Pool, at: Places, at': Places, c: TaskId, fin: Option<TaskId>)
    requires OnlyTask(s, s', at, at', c) && WaitersOk(s, at, fin)
    requires (!at[c].Waiting? && !at'[c].Waiting?) || (at'[c] == at[c] && s'.tasks[c].resume == s.tasks[c].resume)
    requires s'.tasks[c].waiters == s.tasks[c].waiters && s'.tasks[c].status.Done? == s.tasks[c].status.Done?
    requires s'.tasks[c].result == s.tasks[c].result
    requires !s'.tasks[c].resume.InAwait? || (s'.tasks[c].resume == s.tasks[c].resume && s'.tasks[c].awaited == s.tasks[c].awaited)
    ensures WaitersOk(s', at', fin)
  {
    WaiterListsFrame(s, s', at, at', c);
    DeliveriesFrame(s, s', at, at', c, fin);
    hide WaiterLists, Deliveries;
  }

  lemma DeliveriesFrame(s: Pool, s': Pool, at: Places, at': Places, c: TaskId, fin: Option<TaskId>)
    requires OnlyTask(s, s', at, at', c) && Deliveries(s, at, fin)
    requires (!at[c].Waiting? && !at'[c].Waiting?) || (at'[c] == at[c] && s'.tasks[c].resume == s.tasks[c].resume)
    requires s'.tasks[c].status.Done? == s.tasks[c].status.Done? && s'.tasks[c].result == s.tasks[c].result
    requires !s'.tasks[c].resume.InAwait? || (s'.tasks[c].resume == s.tasks[c].resume && s'.tasks[c].awaited == s.tasks[c].awaited)
    ensures Deliveries(s', at', fin)
  {
  }

  lemma WaiterListsFrame(s: Pool, s': Pool, at: Places, at': Places, c: TaskId)
    requires OnlyTask(s, s', at, at', c) && WaiterLists(s, at) && s'.tasks[c].waiters == s.tasks[c].waiters
    requires (!at[c].Waiting? && !at'[c].Waiting?) || at'[c] == at[c]
    ensures WaiterLists(s', at')
  {
    forall u | 0 <= u < |at| ensures Lists(s', at', s'.tasks[u].waiters, Waiting(u)) {
      assert Lists(s, at, s.tasks[u].waiters, Waiting(u));
    }
  }

  lemma LifecycleFrame(s: Pool, s': Pool, at: Places, at': Places, c: TaskId)
    requires Shape(s) && Shape(s') && OnlyTask(s, s', at, at', c) && LifecycleOk(s)
    requires s'.mainWait == s.mainWait && s'.cpu == s.cpu
    requires s'.tasks[c].reap == s.tasks[c].reap
    requires s'.tasks[c].waiters == s.tasks[c].waiters && s.tasks[c].status != Done && s'.tasks[c].status != Done
    ensures LifecycleOk(s')
  {
  }

  // ------------------------------------------------- putting a task in limbo on a list

  lemma PushPlaces(s: Pool, at: Places, t: TaskId, fin: Option<TaskId>)
    requires Placed(s, at, {t}, fin)
    ensures Placed(Push(s, t), at[t := Queued], {}, fin)
  {
    var s', at' := Push(s, t), at[t := Queued];
    TimersFrame(s, s', at, at', t);
    WaitersFrame(s, s', at, at', t, fin);
    IoFrame(s, s', at, at', t);
    LifecycleFrame(s, s', at, at', t);
    PushQueues(s, at, t);
    LimboPlaced(s, s', at, at', t);
  }

  lemma PushQueues(s: Pool, at: Places, t: TaskId)
    requires Shape(s) && |at| == |s.tasks| && QueuesOk(s, at)
    requires Live(s, t) && at[t] == Nowhere
    ensures QueuesOk(Push(s, t), at[t := Queued])
  {
    var w := s.tasks[t].home;
    TotalLengthUpdate(s.ready, w, s.ready[w] + [t]);
  }

  /** A task in limbo that is given a place and the status that goes with it. */
  lemma LimboPlaced(s: Pool, s': Pool, at: Places, at': Places, t: TaskId)
    requires Shape(s) && Shape(s') && OnlyTask(s, s', at, at', t) && WorkersOk(s, at, {t})
    requires at'[t] != Nowhere && s'.cpu == s.cpu && s'.tasks[t].fullyDone == s.tasks[t].fullyDone
    requires s'.tasks[t].status == if at'[t] == Queued then Ready else Blocked
    ensures WorkersOk(s', at', {})
  {
  }

  lemma AddTimerPlaces(s: Pool, at: Places, t: TaskId, wake: int)
    requires Placed(s, at, {t}, None)
    ensures Known(s, s.timers) && Placed(AddTimer(s, t, wake), at[t := Timed], {}, None)
  {
    PlacedIsClosed(s, at, {t}, None);
    var s', at' := AddTimer(s, t, wake), at[t := Timed];
    QueuesFrame(s, s', at, at', t);
    WaitersFrame(s, s', at, at', t, None);
    IoFrame(s, s', at, at', t);
    LifecycleFrame(s, s', at, at', t);
    AddTimerTimers(s, at, t, wake);
    LimboPlaced(s, s', at, at', t);
  }

  /** Insertion puts `t` behind every entry due no later and in front of the rest. */
  lemma {:induction false} InsertByWakeSplits(tasks: seq<Task>, ts: seq<TaskId>, t: TaskId) returns (k: nat)
    requires t < |tasks| && forall i :: 0 <= i < |ts| ==> ts[i] < |tasks|
    ensures k <= |ts| && InsertByWake(tasks, ts, t) == ts[..k] + [t] + ts[k..]
    ensures forall i :: 0 <= i < k ==> tasks[ts[i]].wake <= tasks[t].wake
    ensures k < |ts| ==> tasks[t].wake < tasks[ts[k]].wake
  {
    if ts == [] || tasks[t].wake < tasks[ts[0]].wake {
      k := 0;
    } else {
      var j := InsertByWakeSplits(tasks, ts[1..], t);
      k := j + 1;
      assert ts == [ts[0]] + ts[1..];
    }
  }

  ghost predicate Ascending(tasks: seq<Task>, ts: seq<TaskId>)
    requires forall i :: 0 <= i < |ts| ==> ts[i] < |tasks|
  {
    forall i, j :: 0 <= i < j < |ts| ==> tasks[ts[i]].wake <= tasks[ts[j]].wake
  }

  /** Insertion into an ascending list of distinct tasks keeps it so and adds only `t`. */
  lemma {:induction false} InsertByWakeKeeps(tasks: seq<Task>, ts: seq<TaskId>, t: TaskId)
    requires t < |tasks| && forall i :: 0 <= i < |ts| ==> ts[i] < |tasks|
    requires Ascending(tasks, ts) && Distinct(ts) && t !in ts
    ensures Ascending(tasks, InsertByWake(tasks, ts, t)) && Distinct(InsertByWake(tasks, ts, t))
    ensures forall x :: x in InsertByWake(tasks, ts, t) <==> x == t || x in ts
    ensures |InsertByWake(tasks, ts, t)| == |ts| + 1
  {
    if ts == [] || tasks[t].wake < tasks[ts[0]].wake {
      ConsMembers(t, ts);
    } else {
      var r := InsertByWake(tasks, ts[1..], t);
      assert ts == [ts[0]] + ts[1..];
      ConsMembers(ts[0], ts[1..]);
      InsertByWakeKeeps(tasks, ts[1..], t);
      ConsMembers(ts[0], r);
      ConsAscending(tasks, ts[0], r);
    }
  }

  lemma ConsAscending(tasks: seq<Task>, x: TaskId, ts: seq<TaskId>)
    requires x < |tasks| && forall i :: 0 <= i < |ts| ==> ts[i] < |tasks|
    requires Ascending(tasks, ts) && forall y :: y in ts ==> tasks[x].wake <= tasks[y].wake
    ensures Ascending(tasks, [x] + ts)
  {
  }

  lemma AddTimerTimers(s: Pool, at: Places, t: TaskId, wake: int)
    requires |at| == |s.tasks| && TimersOk(s, at) && Known(s, s.timers)
    requires Live(s, t) && at[t] == Nowhere
    ensures TimersOk(AddTimer(s, t, wake), at[t := Timed])
  {
    var tasks := AddTimer(s, t, wake).tasks;
    InsertByWakeKeeps(tasks, s.timers, t);
    InsertedLists(s, AddTimer(s, t, wake), at, s.timers, InsertByWake(tasks, s.timers, t), t);
    hide InsertByWake, Ascending, Lists;
  }

  /** A list that gains the member `t`, which had no place. */
  lemma InsertedLists(s: Pool, s': Pool, at: Places, list: seq<TaskId>, list': seq<TaskId>, t: TaskId)
    requires |at| == |s.tasks| == |s'.tasks| && Lists(s, at, list, Timed) && Live(s', t) && at[t] == Nowhere
    requires Distinct(list') && forall x :: x in list' <==> x == t || x in list
    requires forall x :: 0 <= x < |at| && Live(s, x) ==> Live(s', x)
    ensures Lists(s', at[t := Timed], list', Timed)
  {
    forall i | 0 <= i < |list'| ensures Live(s', list'[i]) && at[t := Timed][list'[i]] == Timed {
      assert list'[i] in list';
    }
  }

  /** Clearing the result of an I/O wait moves nothing. */
  lemma EnterIoLimbo(s: Pool, at: Places, t: TaskId)
    requires Placed(s, at, {t}, None)
    ensures Placed(EnterIo(s, t), at, {t}, None)
  {
    var s' := EnterIo(s, t);
    assert at == at[t := at[t]];
    QueuesFrame(s, s', at, at, t);
    TimersFrame(s, s', at, at, t);
    WaitersFrame(s, s', at, at, t, None);
    IoFrame(s, s', at, at, t);
    LifecycleFrame(s, s', at, at, t);
    EnterIoWorkers(s, at, t);
  }

  lemma EnterIoWorkers(s: Pool, at: Places, t: TaskId)
    requires Shape(s) && |at| == |s.tasks| && WorkersOk(s, at, {t})
    ensures Shape(EnterIo(s, t)) && WorkersOk(EnterIo(s, t), at, {t})
  {
  }

  lemma AddIoPlaces(s: Pool, at: Places, t: TaskId)
    requires Placed(s, at, {t}, None)
    ensures Placed(AddIo(s, t), at[t := OnIo], {}, None)
  {
    var s', at' := AddIo(s, t), at[t := OnIo];
    QueuesFrame(s, s', at, at', t);
    TimersFrame(s, s', at, at', t);
    WaitersFrame(s, s', at, at', t, None);
    LifecycleFrame(s, s', at, at', t);
    LimboPlaced(s, s', at, at', t);
    ConsLists(s, s', at, at', s.iowait, t, OnIo);
  }

  /** A task without a place put at the front of a list. */
  lemma ConsLists(s: Pool, s': Pool, at: Places, at': Places, list: seq<TaskId>, t: TaskId, p: Place)
    requires |at| == |s.tasks| == |s'.tasks| && Lists(s, at, list, p) && Live(s', t) && at' == at[t := p]
    requires at[t] != p && forall x :: 0 <= x < |at| && Live(s, x) ==> Live(s', x)
    ensures Lists(s', at', [t] + list, p)
  {
    assert forall x :: x in list ==> x in [t] + list;
    assert ([t] + list)[0] == t;
  }

  lemma AddWaiterPlaces(s: Pool, at: Places, t: TaskId, on: TaskId)
    requires Placed(s, at, {t}, None)
    requires Live(s, on) && s.tasks[on].status != Done && !s.tasks[on].reap
    ensures Placed(AddWaiter(s, t, on), at[t := Waiting(on)], {}, None)
  {
    var m, at' := WithWaiters(s, on, [t] + s.tasks[on].waiters), at[t := Waiting(on)];
    var s' := AddWaiter(s, t, on);
    assert s'.tasks == m.tasks[t := m.tasks[t].(status := Blocked, resume := InAwait(on))];
    WaitersFieldOnly(s, m, at, on);
    WaitersFieldWorkers(s, m, at, on, {t});
    QueuesFrame(m, s', at, at', t);
    TimersFrame(m, s', at, at', t);
    IoFrame(m, s', at, at', t);
    LimboPlaced(m, s', at, at', t);
    LifecycleFrame(m, s', at, at', t);
    AddWaiterWaiters(s, at, t, on);
  }

  function WithWaiters(s: Pool, u: TaskId, ws: seq<TaskId>): Pool
    requires u < |s.tasks|
  {
    s.(tasks := s.tasks[u := s.tasks[u].(waiters := ws)])
  }

  /** Changing a waiter list touches neither the other lists nor the workers. */
  lemma WaitersFieldOnly(s: Pool, m: Pool, at: Places, u: TaskId)
    requires Shape(s) && Live(s, u) && |at| == |s.tasks| == |m.tasks| && m == WithWaiters(s, u, m.tasks[u].waiters)
    requires QueuesOk(s, at) && TimersOk(s, at) && IoOk(s, at) && LifecycleOk(s)
    requires s.tasks[u].status != Done && !s.tasks[u].reap
    ensures Shape(m) && QueuesOk(m, at) && TimersOk(m, at) && IoOk(m, at) && LifecycleOk(m)
  {
    assert at == at[u := at[u]];
    QueuesFrame(s, m, at, at, u);
    TimersFrame(s, m, at, at, u);
    IoFrame(s, m, at, at, u);
  }

  lemma WaitersFieldWorkers(s: Pool, m: Pool, at: Places, u: TaskId, limbo: set<TaskId>)
    requires Shape(s) && Live(s, u) && |at| == |s.tasks| == |m.tasks| && m == WithWaiters(s, u, m.tasks[u].waiters)
    requires WorkersOk(s, at, limbo)
    ensures Shape(m) && WorkersOk(m, at, limbo)
  {
  }

  lemma AddWaiterWaiters(s: Pool, at: Places, t: TaskId, on: TaskId)
    requires |at| == |s.tasks| && WaitersOk(s, at, None) && Live(s, t) && at[t] == Nowhere
    requires Live(s, on) && s.tasks[on].status != Done && s.tasks[t].status != Done
    ensures WaitersOk(AddWaiter(s, t, on), at[t := Waiting(on)], None)
  {
    var s', at' := AddWaiter(s, t, on), at[t := Waiting(on)];
    assert Deliveries(s', at', None) by { AddWaiterDeliveries(s, at, t, on); }
    hide Deliveries, Lists, AddWaiter;
    forall u | 0 <= u < |at|
      ensures Lists(s', at', s'.tasks[u].waiters, Waiting(u))
    {
      AddWaiterList(s, at, t, on, u);
    }
  }

  lemma AddWaiterDeliveries(s: Pool, at: Places, t: TaskId, on: TaskId)
    requires |at| == |s.tasks| && Deliveries(s, at, None) && Live(s, t) && at[t] == Nowhere
    requires Live(s, on) && s.tasks[on].status != Done && s.tasks[t].status != Done
    ensures Deliveries(AddWaiter(s, t, on), at[t := Waiting(on)], None)
  {
  }

  lemma AddWaiterList(s: Pool, at: Places, t: TaskId, on: TaskId, u: TaskId)
    requires |at| == |s.tasks| && WaiterLists(s, at) && Live(s, t) && at[t] == Nowhere && Live(s, on) && u < |at|
    ensures Lists(AddWaiter(s, t, on), at[t := Waiting(on)], AddWaiter(s, t, on).tasks[u].waiters, Waiting(u))
  {
    if u == on {
      ConsLists(s, AddWaiter(s, t, on), at, at[t := Waiting(on)], s.tasks[u].waiters, t, Waiting(u));
    }
  }

  // ------------------------------------------------------- taking a task off a list

  /** A task that loses its place and stays live and unfinished is in limbo. */
  lemma PlacedToLimbo(s: Pool, s': Pool, at: Places, at': Places, t: TaskId)
    requires Shape(s) && Shape(s') && OnlyTask(s, s', at, at', t) && WorkersOk(s, at, {})
    requires at[t] != Nowhere && at'[t] == Nowhere
    requires s'.cpu == s.cpu && s'.tasks[t].fullyDone == s.tasks[t].fullyDone && s'.tasks[t].status == s.tasks[t].status
    ensures WorkersOk(s', at', {t})
  {
  }

  /** A list that gives up its member `t`, which gets another place. */
  lemma DropLists(s: Pool, s': Pool, at: Places, at': Places, list: seq<TaskId>, list': seq<TaskId>, t: TaskId, p: Place)
    requires |at| == |s.tasks| == |s'.tasks| == |at'| && Lists(s, at, list, p) && t < |at|
    requires Distinct(list') && forall x :: x in list' <==> x in list && x != t
    requires at' == at[t := at'[t]] && at'[t] != p
    requires forall x :: 0 <= x < |at| && Live(s, x) ==> Live(s', x)
    ensures Lists(s', at', list', p)
  {
    forall i | 0 <= i < |list'|
      ensures Live(s', list'[i]) && at'[list'[i]] == p
    {
      assert list'[i] in list';
    }
  }

  lemma PopTimerLimbo(s: Pool, at: Places)
    requires Placed(s, at, {}, None) && s.timers != []
    ensures s.timers[0] < |s.tasks|
    ensures Placed(PopTimer(s), at[s.timers[0] := Nowhere], {s.timers[0]}, None)
  {
    var t := s.timers[0];
    assert Live(s, t) && at[t] == Timed && s.tasks[t].status == Blocked;
    hide QueuesOk, TimersOk, WaitersOk, IoOk, WorkersOk, LifecycleOk;
    var s', at' := PopTimer(s), at[t := Nowhere];
    QueuesFrame(s, s', at, at', t);
    WaitersFrame(s, s', at, at', t, None);
    IoFrame(s, s', at, at', t);
    LifecycleFrame(s, s', at, at', t);
    PlacedToLimbo(s, s', at, at', t);
    PopTimerTimers(s, at);
  }

  lemma PopTimerTimers(s: Pool, at: Places)
    requires |at| == |s.tasks| && TimersOk(s, at) && s.timers != [] && s.timers[0] < |at|
    ensures TimersOk(PopTimer(s), at[s.timers[0] := Nowhere])
  {
    var t := s.timers[0];
    assert s.timers == [t] + s.timers[1..];
    ConsMembers(t, s.timers[1..]);
    DropLists(s, PopTimer(s), at, at[t := Nowhere], s.timers, s.timers[1..], t, Timed);
  }

  lemma RemoveIoLimbo(s: Pool, at: Places, t: TaskId)
    requires Placed(s, at, {}, None) && t in s.iowait && t !in s.polled
    ensures t < |s.tasks|
    ensures Placed(RemoveIo(s, t), at[t := Nowhere], {t}, None)
  {
    var i :| 0 <= i < |s.iowait| && s.iowait[i] == t;
    assert Live(s, t) && at[t] == OnIo && s.tasks[t].status == Blocked;
    hide QueuesOk, TimersOk, WaitersOk, IoOk, WorkersOk, LifecycleOk;
    var s', at' := RemoveIo(s, t), at[t := Nowhere];
    QueuesFrame(s, s', at, at', t);
    TimersFrame(s, s', at, at', t);
    WaitersFrame(s, s', at, at', t, None);
    LifecycleFrame(s, s', at, at', t);
    PlacedToLimbo(s, s', at, at', t);
    RemoveIoIo(s, at, t);
  }

  lemma RemoveIoIo(s: Pool, at: Places, t: TaskId)
    requires |at| == |s.tasks| && IoOk(s, at) && t in s.iowait && t !in s.polled && t < |at|
    ensures IoOk(RemoveIo(s, t), at[t := Nowhere])
  {
    WithoutMembers(s.iowait, t);
    DropLists(s, RemoveIo(s, t), at, at[t := Nowhere], s.iowait, Without(s.iowait, t), t, OnIo);
    forall i | 0 <= i < |s.polled|
      ensures s.polled[i] in Without(s.iowait, t)
    {
      assert s.polled[i] in s.polled;
    }
  }

  /** Taking the newest waiter of `u`, whose result is being handed out. */
  lemma PopWaiterLimbo(s: Pool, at: Places, u: TaskId)
    requires Placed(s, at, {}, Some(u)) && Live(s, u) && !s.tasks[u].reap
    requires s.tasks[u].waiters != [] && s.cpu[s.tasks[u].home] == Runs(u)
    ensures s.tasks[u].waiters[0] < |s.tasks| && s.tasks[u].waiters[0] != u
    ensures Placed(PopWaiter(s, u), at[s.tasks[u].waiters[0] := Nowhere],
                   {s.tasks[u].waiters[0]}, Some(u))
  {
    assert Lists(s, at, s.tasks[u].waiters, Waiting(u));
    var t := s.tasks[u].waiters[0];
    var m, at' := WithWaiters(s, u, s.tasks[u].waiters[1..]), at[t := Nowhere];
    var s' := PopWaiter(s, u);
    assert s'.tasks == m.tasks[t := m.tasks[t].(awaited := s.tasks[u].result)];
    WaitersFieldOnly(s, m, at, u);
    WaitersFieldWorkers(s, m, at, u, {});
    QueuesFrame(m, s', at, at', t);
    TimersFrame(m, s', at, at', t);
    IoFrame(m, s', at, at', t);
    PlacedToLimbo(m, s', at, at', t);
    LifecycleFrame(m, s', at, at', t);
    PopWaiterWaiters(s, at, u);
  }

  lemma PopWaiterWaiters(s: Pool, at: Places, u: TaskId)
    requires |at| == |s.tasks| && WaitersOk(s, at, Some(u)) && Live(s, u) && s.tasks[u].waiters != []
    requires s.tasks[u].waiters[0] < |at| && s.tasks[u].waiters[0] != u && s.tasks[s.tasks[u].waiters[0]].status != Done
    ensures WaitersOk(PopWaiter(s, u), at[s.tasks[u].waiters[0] := Nowhere], Some(u))
  {
    assert Lists(s, at, s.tasks[u].waiters, Waiting(u));
    PopWaiterDeliveries(s, at, u);
    forall v | 0 <= v < |at|
      ensures Lists(PopWaiter(s, u), at[s.tasks[u].waiters[0] := Nowhere],
                    PopWaiter(s, u).tasks[v].waiters, Waiting(v))
    {
      PopWaiterList(s, at, u, v);
    }
  }

  lemma PopWaiterDeliveries(s: Pool, at: Places, u: TaskId)
    requires |at| == |s.tasks| && Deliveries(s, at, Some(u)) && Live(s, u) && s.tasks[u].waiters != []
    requires s.tasks[u].waiters[0] < |at| && s.tasks[u].waiters[0] != u && at[s.tasks[u].waiters[0]] == Waiting(u)
    requires s.tasks[s.tasks[u].waiters[0]].status != Done
    ensures Deliveries(PopWaiter(s, u), at[s.tasks[u].waiters[0] := Nowhere], Some(u))
  {
  }

  lemma PopWaiterList(s: Pool, at: Places, u: TaskId, v: TaskId)
    requires |at| == |s.tasks| && WaiterLists(s, at) && Live(s, u) && s.tasks[u].waiters != [] && v < |at|
    requires s.tasks[u].waiters[0] < |at| && s.tasks[u].waiters[0] != u && at[s.tasks[u].waiters[0]] == Waiting(u)
    ensures Lists(PopWaiter(s, u), at[s.tasks[u].waiters[0] := Nowhere],
                  PopWaiter(s, u).tasks[v].waiters, Waiting(v))
  {
    var t := s.tasks[u].waiters[0];
    var s', at' := PopWaiter(s, u), at[t := Nowhere];
    if v == u {
      assert s.tasks[u].waiters == [t] + s.tasks[u].waiters[1..];
      ConsMembers(t, s.tasks[u].waiters[1..]);
      DropLists(s, s', at, at', s.tasks[u].waiters, s'.tasks[u].waiters, t, Waiting(u));
    }
  }

  // ------------------------------------------------------------ whole lock sections

  /** Every task is as pinned, freed, detached, finished and off its stack in `s'` as in `s`. */
  ghost predicate SameLives(s: Pool, s': Pool) {
    && |s'.tasks| == |s.tasks|
    && forall x {:trigger s'.tasks[x]} :: 0 <= x < |s.tasks| ==>
         && s'.tasks[x].home == s.tasks[x].home
         && s'.tasks[x].frees == s.tasks[x].frees && s'.tasks[x].reap == s.tasks[x].reap
         && s'.tasks[x].result == s.tasks[x].result && s'.tasks[x].ioResult == s.tasks[x].ioResult
         && s'.tasks[x].fullyDone == s.tasks[x].fullyDone
         && (s'.tasks[x].status == Done <==> s.tasks[x].status == Done)
  }

  lemma PushSameLives(s: Pool, m: Pool, t: TaskId)
    requires Shape(m) && SameLives(s, m) && t < |s.tasks| && s.tasks[t].status != Done
    ensures SameLives(s, Push(m, t))
  {
  }

  lemma SameLivesTransitive(a: Pool, b: Pool, c: Pool)
    requires SameLives(a, b) && SameLives(b, c)
    ensures SameLives(a, c)
  {
  }

  lemma FirstTimer(s: Pool, at: Places)
    requires Placed(s, at, {}, None) && s.timers != []
    ensures |at| == |s.tasks| && s.timers[0] < |s.tasks| && s.tasks[s.timers[0]].status != Done
    ensures Shape(PopTimer(s)) && SameLives(s, PopTimer(s))
  {
    hide QueuesOk, WaitersOk, IoOk, LifecycleOk;
  }

  lemma FireOnePlaces(s: Pool, at: Places)
    requires Placed(s, at, {}, None) && s.timers != [] && Shape(s) && s.timers[0] < |s.tasks|
    ensures Placed(FireOne(s), at[s.timers[0] := Queued], {}, None)
    ensures SameLives(s, FireOne(s)) && |FireOne(s).timers| < |s.timers| && |FireOne(s).tasks| == |s.tasks|
  {
    hide Placed;
    var t := s.timers[0];
    FirstTimer(s, at);
    PopTimerLimbo(s, at);
    PushPlaces(PopTimer(s), at[t := Nowhere], t, None);
    PushSameLives(s, PopTimer(s), t);
    assert at[t := Nowhere][t := Queued] == at[t := Queued];
  }

  lemma {:induction false} FireDuePlaces(s: Pool, at: Places, now: int) returns (at': Places)
    requires Placed(s, at, {}, None) && |at| == |s.tasks|
    ensures Shape(s) && Known(s, s.timers) && |at'| == |s.tasks|
    ensures Placed(FireDue(s, now), at', {}, None) && SameLives(s, FireDue(s, now))
    decreases |s.timers|
  {
    hide Placed, SameLives, FireOne;
    PlacedIsClosed(s, at, {}, None);
    if s.timers != [] && s.tasks[s.timers[0]].wake <= now {
      FireOnePlaces(s, at);
      at' := FireDuePlaces(FireOne(s), at[s.timers[0] := Queued], now);
      SameLivesTransitive(s, FireOne(s), FireDue(FireOne(s), now));
    } else {
      at' := at;
      SameLivesReflexive(s);
    }
  }

  lemma SameLivesReflexive(s: Pool)
    ensures SameLives(s, s)
  {
  }

  lemma FirstWaiter(s: Pool, at: Places, u: TaskId)
    requires Placed(s, at, {}, Some(u)) && Live(s, u) && s.tasks[u].waiters != []
    ensures |at| == |s.tasks| && s.tasks[u].waiters[0] < |s.tasks| && s.tasks[s.tasks[u].waiters[0]].status != Done
    ensures !s.tasks[u].reap && Shape(PopWaiter(s, u)) && SameLives(s, PopWaiter(s, u))
  {
    assert Lists(s, at, s.tasks[u].waiters, Waiting(u));
    hide QueuesOk, TimersOk, IoOk;
  }

  lemma WakeOnePlaces(s: Pool, at: Places, u: TaskId)
    requires Placed(s, at, {}, Some(u)) && Live(s, u) && Shape(s)
    requires s.cpu[s.tasks[u].home] == Runs(u) && s.tasks[u].waiters != [] && s.tasks[u].waiters[0] < |s.tasks|
    ensures Placed(WakeOne(s, u), at[s.tasks[u].waiters[0] := Queued], {}, Some(u)) && SameLives(s, WakeOne(s, u))
    ensures WakeOne(s, u).tasks[u] == s.tasks[u].(waiters := s.tasks[u].waiters[1..]) && WakeOne(s, u).cpu == s.cpu
  {
    hide Placed;
    var t := s.tasks[u].waiters[0];
    FirstWaiter(s, at, u);
    PopWaiterLimbo(s, at, u);
    PushPlaces(PopWaiter(s, u), at[t := Nowhere], t, Some(u));
    PushSameLives(s, PopWaiter(s, u), t);
    assert at[t := Nowhere][t := Queued] == at[t := Queued];
  }

  lemma {:induction false} WakeWaitersPlaces(s: Pool, at: Places, u: TaskId) returns (at': Places)
    requires Placed(s, at, {}, Some(u)) && |at| == |s.tasks| && Live(s, u) && Shape(s)
    requires s.cpu[s.tasks[u].home] == Runs(u)
    ensures Known(s, s.tasks[u].waiters)
    ensures Placed(WakeWaiters(s, u), at', {}, Some(u))
    ensures WakeWaiters(s, u).tasks[u] == s.tasks[u].(waiters := [])
    ensures SameLives(s, WakeWaiters(s, u))
    decreases |s.tasks[u].waiters|
  {
    PlacedIsClosed(s, at, {}, Some(u));
    hide Placed, SameLives, WakeOne;
    if s.tasks[u].waiters != [] {
      var t := s.tasks[u].waiters[0];
      WakeOnePlaces(s, at, u);
      var m := WakeOne(s, u);
      PlacedIsClosed(m, at[t := Queued], {}, Some(u));
      at' := WakeWaitersPlaces(m, at[t := Queued], u);
      SameLivesTransitive(s, m, WakeWaiters(m, u));
    } else {
      at' := at;
      SameLivesReflexive(s);
    }
  }

  lemma WakeIoOnePlaces(s: Pool, at: Places, t: TaskId)
    requires Placed(s, at, {}, None) && s.polled == [] && t in s.iowait && Shape(s) && t < |s.tasks|
    ensures Placed(WakeIoOne(s, t), at[t := Queued], {}, None) && SameLives(s, WakeIoOne(s, t))
    ensures WakeIoOne(s, t).polled == [] && forall x :: x in WakeIoOne(s, t).iowait <==> x in s.iowait && x != t
  {
    assert s.tasks[t].status != Done;
    WithoutMembers(s.iowait, t);
    hide QueuesOk, TimersOk, WaitersOk, IoOk, WorkersOk, LifecycleOk;
    RemoveIoLimbo(s, at, t);
    PushPlaces(RemoveIo(s, t), at[t := Nowhere], t, None);
    PushSameLives(s, RemoveIo(s, t), t);
    assert at[t := Nowhere][t := Queued] == at[t := Queued];
  }

  lemma PolledKnown(s: Pool, at: Places, es: seq<TaskId>)
    requires Placed(s, at, {}, None) && forall i :: 0 <= i < |es| ==> es[i] in s.iowait
    ensures Shape(s) && Known(s, es)
  {
  }

  lemma {:induction false} WakeIoPlaces(s: Pool, at: Places, es: seq<TaskId>, fired: set<TaskId>) returns (at': Places)
    requires Placed(s, at, {}, None) && |at| == |s.tasks| && s.polled == []
    requires Distinct(es) && forall i :: 0 <= i < |es| ==> es[i] in s.iowait
    ensures Shape(s) && Known(s, es)
    ensures Placed(WakeIo(s, es, fired), at', {}, None) && SameLives(s, WakeIo(s, es, fired))
    decreases |es|
  {
    hide Placed, SameLives, WakeIoOne;
    PolledKnown(s, at, es);
    if es == [] {
      at' := at;
      SameLivesReflexive(s);
    } else if es[0] in fired {
      var m := WakeIoOne(s, es[0]);
      WakeIoOnePlaces(s, at, es[0]);
      SameLivesSize(s, m);
      at' := WakeIoPlaces(m, at[es[0] := Queued], es[1..], fired);
      SameLivesTransitive(s, m, WakeIo(m, es[1..], fired));
    } else {
      at' := WakeIoPlaces(s, at, es[1..], fired);
    }
  }

  lemma SameLivesSize(s: Pool, s': Pool)
    requires SameLives(s, s')
    ensures |s.tasks| == |s'.tasks|
  {
  }

  /** Worker state is no part of the list invariants. */
  lemma CpuOnly(s: Pool, s': Pool, at: Places, fin: Option<TaskId>)
    requires Shape(s) && |at| == |s.tasks| && s' == s.(cpu := s'.cpu) && |s'.cpu| == |s.cpu|
    requires QueuesOk(s, at) && TimersOk(s, at) && WaitersOk(s, at, fin) && IoOk(s, at)
    ensures Shape(s') && QueuesOk(s', at) && TimersOk(s', at) && WaitersOk(s', at, fin) && IoOk(s', at)
  {
    assert forall list, p :: Lists(s, at, list, p) ==> Lists(s', at, list, p);
  }

  /** A running fiber that starts to leave its stack. */
  lemma DepartLimbo(s: Pool, at: Places, w: nat)
    requires Placed(s, at, {}, None) && Executing(s, w)
    ensures Live(s, s.cpu[w].task)
    ensures Placed(Depart(s, w), at, {s.cpu[w].task}, None)
  {
    CpuOnly(s, Depart(s, w), at, None);
    DepartWorkers(s, at, w);
  }

  lemma DepartWorkers(s: Pool, at: Places, w: nat)
    requires Shape(s) && |at| == |s.tasks| && WorkersOk(s, at, {}) && LifecycleOk(s) && Executing(s, w)
    ensures WorkersOk(Depart(s, w), at, {s.cpu[w].task}) && LifecycleOk(Depart(s, w))
  {
  }

  lemma DispatchPlaces(s: Pool, at: Places, w: nat)
    requires Placed(s, at, {}, None) && w < |s.cpu| && s.cpu[w] == Idle && s.ready[w] != []
    ensures Known(s, s.ready[w]) && Placed(Dispatch(s, w), at[s.ready[w][0] := Nowhere], {}, None)
  {
    PlacedIsClosed(s, at, {}, None);
    var t := s.ready[w][0];
    var s', at' := Dispatch(s, w), at[t := Nowhere];
    TimersFrame(s, s', at, at', t);
    IoFrame(s, s', at, at', t);
    WaitersFrame(s, s', at, at', t, None);
    DispatchQueues(s, at, w);
    DispatchWorkers(s, at, w);
    DispatchLifecycle(s, at, w);
  }

  lemma DispatchQueues(s: Pool, at: Places, w: nat)
    requires Shape(s) && |at| == |s.tasks| && QueuesOk(s, at) && w < |s.cpu| && s.ready[w] != []
    requires Known(s, s.ready[w])
    ensures QueuesOk(Dispatch(s, w), at[s.ready[w][0] := Nowhere])
  {
    var t := s.ready[w][0];
    var s', at' := Dispatch(s, w), at[t := Nowhere];
    TotalLengthUpdate(s.ready, w, s.ready[w][1..]);
    assert s.ready[w] == [t] + s.ready[w][1..];
    ConsMembers(t, s.ready[w][1..]);
    assert s.popped[w] + s.ready[w] == s.popped[w] + [t] + s.ready[w][1..];
    forall v, i | 0 <= v < |s'.ready| && 0 <= i < |s'.ready[v]|
      ensures Live(s', s'.ready[v][i]) && at'[s'.ready[v][i]] == Queued && s'.tasks[s'.ready[v][i]].home == v
    {
      if v == w {
        assert s'.ready[v][i] == s.ready[w][i + 1] && s'.ready[v][i] in s.ready[w][1..];
      } else {
        assert s'.ready[v][i] == s.ready[v][i];
      }
    }
  }

  lemma DispatchWorkers(s: Pool, at: Places, w: nat)
    requires Shape(s) && |at| == |s.tasks| && QueuesOk(s, at) && WorkersOk(s, at, {})
    requires w < |s.cpu| && s.cpu[w] == Idle && s.ready[w] != [] && Known(s, s.ready[w])
    ensures WorkersOk(Dispatch(s, w), at[s.ready[w][0] := Nowhere], {})
  {
  }

  lemma DispatchLifecycle(s: Pool, at: Places, w: nat)
    requires Shape(s) && |at| == |s.tasks| && QueuesOk(s, at) && WorkersOk(s, at, {}) && LifecycleOk(s)
    requires w < |s.cpu| && s.cpu[w] == Idle && s.ready[w] != [] && Known(s, s.ready[w])
    ensures LifecycleOk(Dispatch(s, w))
  {
    TotalLengthZero(s.ready);
  }
}
