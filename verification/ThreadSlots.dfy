/**
 The fixed table of threads: slots issued by spawn, given back by join or by the body of a detached
 thread, over all interleavings of spawners, bodies, joiners and detachers.
 */
module ThreadSlots {

  type Body = nat          // threads are numbered in the order they were created

  datatype Slot = Slot(tid: Body, result: int, used: bool, done: bool, detach: bool, joining: bool)

  datatype Phase = Running | Returned | Exited

  /** A thread: the slot its trampoline was given, and what its closure returned. */
  datatype Thread = Thread(slot: nat, phase: Phase, value: int)

  /** A join past its first critical section: it blocks on the thread it read from the slot, which
   should be `origin`, the slot's thread when the join began. */
  datatype Join =
    | Begun(slot: nat, origin: Body)
    | Blocked(slot: nat, origin: Body, tid: Body)
    | Ended(slot: nat, origin: Body, result: int)

  datatype Table = Table(slots: seq<Slot>, threads: seq<Thread>, joins: seq<Join>)

  datatype Step =
    | Spawn(idx: nat)
    | SpawnFails(idx: nat)            // the thread could not be created: the slot is given back
    | Return(b: Body, value: int)     // the closure returns and its result is stored, outside the lock
    | Finish(b: Body)                 // the trampoline's critical section
    | JoinBegin(idx: nat)
    | JoinRead(j: nat)                // the slot's thread is read for pthread_join, outside the lock
    | JoinEnd(j: nat)
    | Detach(idx: nat)

  // ---------------------------------------------------------------- critical sections

  /** The first free slot, or the table's size. */
  function FirstFree(slots: seq<Slot>): (i: nat)
    ensures i <= |slots| && (i < |slots| ==> !slots[i].used)
    ensures forall j :: 0 <= j < i ==> slots[j].used
  {
    if slots == [] || !slots[0].used then 0 else
      var i := FirstFree(slots[1..]);
      assert forall j :: 0 < j < i + 1 ==> slots[j] == slots[1..][j - 1];
      i + 1
  }

  function Issued(b: Body): Slot { Slot(b, 0, true, false, false, false) }

  function Finished(s: Slot): Slot { s.(used := s.used && !(s.detach && !s.joining), done := true) }

  function Detached(s: Slot): Slot { s.(detach := true, used := s.used && !(s.done && !s.joining)) }

  function Reclaimed(s: Slot): Slot { s.(used := false, joining := false) }

  predicate Joinable(s: Slot) { s.used && !s.detach && !s.joining }

  // ------------------------------------------------------------------------ steps

  predicate Enabled(t: Table, step: Step) {
    match step
    case Spawn(idx) => idx == FirstFree(t.slots) < |t.slots|
    case SpawnFails(idx) => idx == FirstFree(t.slots) < |t.slots|
    case Return(b, _) => b < |t.threads| && t.threads[b].phase == Running && t.threads[b].slot < |t.slots|
    case Finish(b) => b < |t.threads| && t.threads[b].phase == Returned && t.threads[b].slot < |t.slots|
    case JoinBegin(idx) => idx < |t.slots| && Joinable(t.slots[idx])
    case JoinRead(j) => j < |t.joins| && t.joins[j].Begun? && t.joins[j].slot < |t.slots|
    case JoinEnd(j) =>
      && j < |t.joins| && t.joins[j].Blocked? && t.joins[j].slot < |t.slots|
      && t.joins[j].tid < |t.threads| && t.threads[t.joins[j].tid].phase == Exited
    case Detach(idx) => idx < |t.slots| && t.slots[idx].used && !t.slots[idx].detach
  }

  function Apply(t: Table, step: Step): Table
    requires Enabled(t, step)
  {
    match step
    case Spawn(idx) =>
      Table(t.slots[idx := Issued(|t.threads|)], t.threads + [Thread(idx, Running, 0)], t.joins)
    case SpawnFails(idx) => t.(slots := t.slots[idx := Issued(|t.threads|).(used := false)])
    case Return(b, v) =>
      var i := t.threads[b].slot;
      Table(t.slots[i := t.slots[i].(result := v)], t.threads[b := Thread(i, Returned, v)], t.joins)
    case Finish(b) =>
      var i := t.threads[b].slot;
      Table(t.slots[i := Finished(t.slots[i])], t.threads[b := t.threads[b].(phase := Exited)], t.joins)
    case JoinBegin(idx) =>
      Table(t.slots[idx := t.slots[idx].(joining := true)], t.threads, t.joins + [Begun(idx, t.slots[idx].tid)])
    case JoinRead(j) =>
      var i := t.joins[j].slot;
      t.(joins := t.joins[j := Blocked(i, t.joins[j].origin, t.slots[i].tid)])
    case JoinEnd(j) =>
      var i := t.joins[j].slot;
      Table(t.slots[i := Reclaimed(t.slots[i])], t.threads, t.joins[j := Ended(i, t.joins[j].origin, t.slots[i].result)])
    case Detach(idx) => t.(slots := t.slots[idx := Detached(t.slots[idx])])
  }

  // ---------------------------------------------------------------------- invariant

  /** A slot and the thread it was last issued to. */
  predicate SlotOk(t: Table, i: nat)
    requires i < |t.slots|
  {
    var s := t.slots[i];
    && (s.used ==>
          && s.tid < |t.threads| && t.threads[s.tid].slot == i
          && (s.done <==> t.threads[s.tid].phase == Exited)
          && (t.threads[s.tid].phase != Running ==> s.result == t.threads[s.tid].value)
          && (s.done && s.detach ==> s.joining))
    && (s.joining ==> s.used)
  }

  /** A thread that has not left its trampoline's critical section owns its slot. */
  predicate ThreadOk(t: Table, b: Body)
    requires b < |t.threads|
  {
    t.threads[b].slot < |t.slots|
    && (t.threads[b].phase != Exited ==> t.slots[t.threads[b].slot].used && t.slots[t.threads[b].slot].tid == b)
  }

  /** A join under way holds its slot, with the thread it began with; a join that ended has that
   thread's own result, and the slot is no longer that thread's. */
  predicate JoinOk(t: Table, j: nat)
    requires j < |t.joins|
  {
    var w := t.joins[j];
    && w.slot < |t.slots| && w.origin < |t.threads|
    && (!w.Ended? ==> t.slots[w.slot].joining && t.slots[w.slot].used && t.slots[w.slot].tid == w.origin)
    && (w.Blocked? ==> w.tid == w.origin)
    && (w.Ended? ==>
          && t.threads[w.origin].phase == Exited && t.threads[w.origin].slot == w.slot
          && w.result == t.threads[w.origin].value
          && !(t.slots[w.slot].used && t.slots[w.slot].tid == w.origin))
  }

  ghost predicate Inv(t: Table) {
    && (forall i {:trigger SlotOk(t, i)} :: 0 <= i < |t.slots| ==> SlotOk(t, i))
    && (forall b {:trigger ThreadOk(t, b)} :: 0 <= b < |t.threads| ==> ThreadOk(t, b))
    && (forall j {:trigger JoinOk(t, j)} :: 0 <= j < |t.joins| ==> JoinOk(t, j))
    && (forall j, k {:trigger t.joins[j], t.joins[k]} :: 0 <= j < k < |t.joins| ==> t.joins[j].origin != t.joins[k].origin)
  }

  lemma StepKeeps(t: Table, step: Step)
    requires Inv(t) && Enabled(t, step)
    ensures Inv(Apply(t, step))
  {
    match step
    case Spawn(idx) => SpawnKeeps(t, idx);
    case SpawnFails(idx) => SpawnFailsKeeps(t, idx);
    case Return(b, v) => ReturnKeeps(t, b, v);
    case Finish(b) => FinishKeeps(t, b);
    case JoinBegin(idx) => JoinBeginKeeps(t, idx);
    case JoinRead(j) => JoinReadKeeps(t, j);
    case JoinEnd(j) => JoinEndKeeps(t, j);
    case Detach(idx) => DetachKeeps(t, idx);
  }

  lemma SpawnKeeps(t: Table, idx: nat)
    requires Inv(t) && Enabled(t, Spawn(idx))
    ensures Inv(Apply(t, Spawn(idx)))
  {
    var t' := Apply(t, Spawn(idx));
    forall i | 0 <= i < |t'.slots| ensures SlotOk(t', i) {
      assert SlotOk(t, i);
    }
    forall b | 0 <= b < |t'.threads| ensures ThreadOk(t', b) {
      assert b < |t.threads| ==> ThreadOk(t, b);
    }
    forall j | 0 <= j < |t'.joins| ensures JoinOk(t', j) {
      assert j < |t.joins| ==> JoinOk(t, j);
    }
  }

  lemma SpawnFailsKeeps(t: Table, idx: nat)
    requires Inv(t) && Enabled(t, SpawnFails(idx))
    ensures Inv(Apply(t, SpawnFails(idx)))
  {
    var t' := Apply(t, SpawnFails(idx));
    forall i | 0 <= i < |t'.slots| ensures SlotOk(t', i) {
      assert SlotOk(t, i);
    }
    forall b | 0 <= b < |t'.threads| ensures ThreadOk(t', b) {
      assert ThreadOk(t, b);
    }
    forall j | 0 <= j < |t'.joins| ensures JoinOk(t', j) {
      assert JoinOk(t, j);
    }
  }

  lemma ReturnKeeps(t: Table, b: Body, v: int)
    requires Inv(t) && Enabled(t, Return(b, v))
    ensures Inv(Apply(t, Return(b, v)))
  {
    var t' := Apply(t, Return(b, v));
    assert ThreadOk(t, b);
    forall i | 0 <= i < |t'.slots| ensures SlotOk(t', i) {
      assert SlotOk(t, i);
    }
    forall c | 0 <= c < |t'.threads| ensures ThreadOk(t', c) {
      assert ThreadOk(t, c);
    }
    forall j | 0 <= j < |t'.joins| ensures JoinOk(t', j) {
      assert j < |t.joins| ==> JoinOk(t, j);
    }
  }

  lemma FinishKeeps(t: Table, b: Body)
    requires Inv(t) && Enabled(t, Finish(b))
    ensures Inv(Apply(t, Finish(b)))
  {
    var t' := Apply(t, Finish(b));
    assert ThreadOk(t, b);
    assert SlotOk(t, t.threads[b].slot);
    forall i | 0 <= i < |t'.slots| ensures SlotOk(t', i) {
      assert SlotOk(t, i);
    }
    forall c | 0 <= c < |t'.threads| ensures ThreadOk(t', c) {
      assert ThreadOk(t, c);
    }
    forall j | 0 <= j < |t'.joins| ensures JoinOk(t', j) {
      assert j < |t.joins| ==> JoinOk(t, j);
    }
  }

  lemma JoinBeginKeeps(t: Table, idx: nat)
    requires Inv(t) && Enabled(t, JoinBegin(idx))
    ensures Inv(Apply(t, JoinBegin(idx)))
  {
    var t' := Apply(t, JoinBegin(idx));
    assert SlotOk(t, idx);
    forall j | 0 <= j < |t.joins| ensures t.joins[j].origin != t.slots[idx].tid {
      assert JoinOk(t, j);
      assert SlotOk(t, t.joins[j].slot);
    }
    forall i | 0 <= i < |t'.slots| ensures SlotOk(t', i) {
      assert SlotOk(t, i);
    }
    forall b | 0 <= b < |t'.threads| ensures ThreadOk(t', b) {
      assert b < |t.threads| ==> ThreadOk(t, b);
    }
    forall j | 0 <= j < |t'.joins| ensures JoinOk(t', j) {
      assert j < |t.joins| ==> JoinOk(t, j);
    }
  }

  lemma JoinReadKeeps(t: Table, k: nat)
    requires Inv(t) && Enabled(t, JoinRead(k))
    ensures Inv(Apply(t, JoinRead(k)))
  {
    var t' := Apply(t, JoinRead(k));
    assert JoinOk(t, k);
    forall i | 0 <= i < |t'.slots| ensures SlotOk(t', i) {
      assert SlotOk(t, i);
    }
    forall b | 0 <= b < |t'.threads| ensures ThreadOk(t', b) {
      assert b < |t.threads| ==> ThreadOk(t, b);
    }
    forall j | 0 <= j < |t'.joins| ensures JoinOk(t', j) {
      assert j < |t.joins| ==> JoinOk(t, j);
    }
  }

  lemma JoinEndKeeps(t: Table, k: nat)
    requires Inv(t) && Enabled(t, JoinEnd(k))
    ensures Inv(Apply(t, JoinEnd(k)))
  {
    var t' := Apply(t, JoinEnd(k));
    assert JoinOk(t, k);
    assert SlotOk(t, t.joins[k].slot);
    forall i | 0 <= i < |t'.slots| ensures SlotOk(t', i) {
      assert SlotOk(t, i);
    }
    forall b | 0 <= b < |t'.threads| ensures ThreadOk(t', b) {
      assert b < |t.threads| ==> ThreadOk(t, b);
    }
    forall j | 0 <= j < |t'.joins| ensures JoinOk(t', j) {
      assert j < |t.joins| ==> JoinOk(t, j);
    }
  }

  lemma DetachKeeps(t: Table, idx: nat)
    requires Inv(t) && Enabled(t, Detach(idx))
    ensures Inv(Apply(t, Detach(idx)))
  {
    var t' := Apply(t, Detach(idx));
    assert SlotOk(t, idx);
    forall i | 0 <= i < |t'.slots| ensures SlotOk(t', i) {
      assert SlotOk(t, i);
    }
    forall b | 0 <= b < |t'.threads| ensures ThreadOk(t', b) {
      assert b < |t.threads| ==> ThreadOk(t, b);
    }
    forall j | 0 <= j < |t'.joins| ensures JoinOk(t', j) {
      assert j < |t.joins| ==> JoinOk(t, j);
    }
  }

  // ------------------------------------------------------------------------ runs

  predicate Run(t: Table, steps: seq<Step>)
    decreases |steps|
  {
    steps == [] || (Enabled(t, steps[0]) && Run(Apply(t, steps[0]), steps[1..]))
  }

  function End(t: Table, steps: seq<Step>): Table
    requires Run(t, steps)
    decreases |steps|
  {
    if steps == [] then t else End(Apply(t, steps[0]), steps[1..])
  }

  predicate Initial(t: Table) {
    t.threads == [] && t.joins == [] && forall i :: 0 <= i < |t.slots| ==> !t.slots[i].used && !t.slots[i].joining
  }

  lemma {:induction false} RunKeeps(t: Table, steps: seq<Step>)
    requires Inv(t) && Run(t, steps)
    ensures Inv(End(t, steps))
    decreases |steps|
  {
    if steps != [] {
      StepKeeps(t, steps[0]);
      RunKeeps(Apply(t, steps[0]), steps[1..]);
    }
  }

  ghost predicate Reachable(t: Table) {
    exists t0, steps :: Initial(t0) && Run(t0, steps) && End(t0, steps) == t
  }

  lemma ReachableKeeps(t: Table)
    requires Reachable(t)
    ensures Inv(t)
  {
    var t0, steps :| Initial(t0) && Run(t0, steps) && End(t0, steps) == t;
    RunKeeps(t0, steps);
  }

  /** No two bodies that are still inside their trampolines share a slot. */
  lemma BodiesDoNotShare(t: Table, b: Body, c: Body)
    requires Reachable(t) && b < c < |t.threads|
    requires t.threads[b].phase != Exited && t.threads[c].phase != Exited
    ensures t.threads[b].slot != t.threads[c].slot
  {
    ReachableKeeps(t);
    assert ThreadOk(t, b) && ThreadOk(t, c);
  }

  /** A slot a joiner holds is not issued again, and the thread the joiner waits for is the one the
   slot was issued to when the join began. */
  lemma JoinedIsNotReissued(t: Table, j: nat)
    requires Reachable(t) && j < |t.joins| && !t.joins[j].Ended?
    ensures t.joins[j].slot < |t.slots| && !Enabled(t, Spawn(t.joins[j].slot))
    ensures t.slots[t.joins[j].slot].tid == t.joins[j].origin
    ensures t.joins[j].Blocked? ==> t.joins[j].tid == t.joins[j].origin
  {
    ReachableKeeps(t);
    assert JoinOk(t, j);
  }

  /** A join returns the result of the thread it named, and no two joins get the same thread's. */
  lemma JoinsGetTheirOwn(t: Table, j: nat, k: nat)
    requires Reachable(t) && j < |t.joins| && t.joins[j].Ended?
    ensures t.joins[j].origin < |t.threads| && t.threads[t.joins[j].origin].phase == Exited
    ensures t.joins[j].result == t.threads[t.joins[j].origin].value
    ensures k < |t.joins| && k != j ==> t.joins[k].origin != t.joins[j].origin
  {
    ReachableKeeps(t);
    assert JoinOk(t, j);
    if k < j { assert t.joins[k].origin != t.joins[j].origin; }
  }

  /** Once a closure has returned, no step changes what it returned. */
  lemma StepKeepsValue(t: Table, step: Step, b: Body)
    requires Enabled(t, step) && b < |t.threads| && t.threads[b].phase != Running
    ensures var t' := Apply(t, step); b < |t'.threads| && t'.threads[b].phase != Running && t'.threads[b].value == t.threads[b].value
  {
  }

  lemma {:induction false} RunKeepsValue(t: Table, steps: seq<Step>, b: Body)
    requires Run(t, steps) && b < |t.threads| && t.threads[b].phase != Running
    ensures var t' := End(t, steps); b < |t'.threads| && t'.threads[b].phase != Running && t'.threads[b].value == t.threads[b].value
    decreases |steps|
  {
    if steps != [] {
      StepKeepsValue(t, steps[0], b);
      RunKeepsValue(Apply(t, steps[0]), steps[1..], b);
    }
  }

  /** What a closure returned is what every later join of its thread returns. */
  lemma ReturnedIsJoined(t: Table, b: Body, v: int, steps: seq<Step>, j: nat)
    requires Reachable(t) && Enabled(t, Return(b, v)) && Run(Apply(t, Return(b, v)), steps)
    ensures var t' := End(Apply(t, Return(b, v)), steps);
      j < |t'.joins| && t'.joins[j].Ended? && t'.joins[j].origin == b ==> t'.joins[j].result == v
  {
    hide Reachable;
    ReachableKeeps(t);
    StepKeeps(t, Return(b, v));
    RunKeeps(Apply(t, Return(b, v)), steps);
    RunKeepsValue(Apply(t, Return(b, v)), steps, b);
    var t' := End(Apply(t, Return(b, v)), steps);
    if j < |t'.joins| { assert JoinOk(t', j); }
  }

  /** A slot stays joinable, and its thread's, until someone joins or detaches it. */
  lemma StepKeepsJoinable(t: Table, step: Step, i: nat)
    requires Inv(t) && Enabled(t, step) && i < |t.slots| && Joinable(t.slots[i])
    requires step != JoinBegin(i) && step != Detach(i)
    ensures var t' := Apply(t, step); i < |t'.slots| && Joinable(t'.slots[i]) && t'.slots[i].tid == t.slots[i].tid
  {
    if step.JoinEnd? { assert JoinOk(t, step.j); }
  }

  lemma {:induction false} RunKeepsJoinable(t: Table, steps: seq<Step>, i: nat)
    requires Inv(t) && Run(t, steps) && i < |t.slots| && Joinable(t.slots[i])
    requires forall k :: 0 <= k < |steps| ==> steps[k] != JoinBegin(i) && steps[k] != Detach(i)
    ensures var t' := End(t, steps); i < |t'.slots| && Joinable(t'.slots[i]) && t'.slots[i].tid == t.slots[i].tid
    decreases |steps|
  {
    if steps != [] {
      StepKeepsJoinable(t, steps[0], i);
      StepKeeps(t, steps[0]);
      RunKeepsJoinable(Apply(t, steps[0]), steps[1..], i);
    }
  }

  /** A new thread can be joined at any time until someone joins or detaches it, finished or not. */
  lemma SpawnedIsJoinable(t: Table, idx: nat, steps: seq<Step>)
    requires Reachable(t) && Enabled(t, Spawn(idx)) && Run(Apply(t, Spawn(idx)), steps)
    requires forall k :: 0 <= k < |steps| ==> steps[k] != JoinBegin(idx) && steps[k] != Detach(idx)
    ensures var t' := End(Apply(t, Spawn(idx)), steps); Enabled(t', JoinBegin(idx)) && t'.slots[idx].tid == |t.threads|
  {
    hide Reachable;
    ReachableKeeps(t);
    StepKeeps(t, Spawn(idx));
    RunKeepsJoinable(Apply(t, Spawn(idx)), steps, idx);
  }

  /** While slot `i` is thread `b`'s, it is detached. */
  predicate StaysDetached(t: Table, i: nat, b: Body) {
    i < |t.slots| && b < |t.threads| && (t.slots[i].used && t.slots[i].tid == b ==> t.slots[i].detach)
  }

  lemma {:induction false} RunKeepsDetached(t: Table, steps: seq<Step>, i: nat, b: Body)
    requires Run(t, steps) && StaysDetached(t, i, b)
    ensures StaysDetached(End(t, steps), i, b)
    decreases |steps|
  {
    if steps != [] { RunKeepsDetached(Apply(t, steps[0]), steps[1..], i, b); }
  }

  /** A detached thread is never joined afterwards, and once it has left nobody has to: its slot is free
   for others, unless a join that began before holds it. */
  lemma DetachedIsReclaimed(t: Table, i: nat, steps: seq<Step>)
    requires Reachable(t) && Enabled(t, Detach(i)) && Run(Apply(t, Detach(i)), steps)
    ensures var t' := End(Apply(t, Detach(i)), steps); var b := t.slots[i].tid;
      && i < |t'.slots| && b < |t'.threads|
      && (t'.slots[i].used && t'.slots[i].tid == b ==>
            !Enabled(t', JoinBegin(i)) && (t'.threads[b].phase == Exited ==> t'.slots[i].joining))
  {
    hide Reachable;
    ReachableKeeps(t);
    assert SlotOk(t, i);
    StepKeeps(t, Detach(i));
    RunKeeps(Apply(t, Detach(i)), steps);
    RunKeepsDetached(Apply(t, Detach(i)), steps, i, t.slots[i].tid);
    assert SlotOk(End(Apply(t, Detach(i)), steps), i);
  }

  /** The slot of a finished detached thread is free, unless a joiner holds it. */
  lemma FinishedDetachedIsFree(t: Table, i: nat)
    requires Reachable(t) && i < |t.slots| && t.slots[i].done && t.slots[i].detach && !t.slots[i].joining
    ensures !t.slots[i].used
  {
    ReachableKeeps(t);
    assert SlotOk(t, i);
  }

  // ------------------------------------------------------------- the critical sections, in place

  class ThreadTable {
    var slots: seq<Slot>

    /** Search and issue; -1 when the table is full. `created` is whether the thread could be made. */
    method SpawnSlot(b: Body, created: bool) returns (handle: int)
      modifies this
      ensures handle == -1 <==> FirstFree(old(slots)) == |old(slots)| || !created
      ensures handle != -1 ==> handle == FirstFree(old(slots)) + 1 && slots == old(slots)[handle - 1 := Issued(b)]
      ensures handle == -1 ==> slots == if created || FirstFree(old(slots)) == |old(slots)| then old(slots)
        else old(slots)[FirstFree(old(slots)) := Issued(b).(used := false)]
    {
      var idx := 0;
      while idx < |slots| && slots[idx].used
        invariant 0 <= idx <= |slots| && slots == old(slots)
        invariant forall j :: 0 <= j < idx ==> slots[j].used
      {
        idx := idx + 1;
      }
      assert idx == FirstFree(slots);
      if idx == |slots| { return -1; }
      slots := slots[idx := Issued(b)];
      if !created {
        slots := slots[idx := slots[idx].(used := false)];
        return -1;
      }
      handle := idx + 1;
    }

    /** The end of a trampoline. */
    method FinishBody(i: nat)
      requires i < |slots|
      modifies this
      ensures slots == old(slots)[i := Finished(old(slots)[i])]
    {
      var s := slots[i];
      if s.detach && !s.joining { s := s.(used := false); }
      slots := slots[i := s.(done := true)];
    }

    /** The first critical section of a join: refused unless the slot can be joined. */
    method BeginJoin(handle: int) returns (ok: bool)
      modifies this
      ensures ok <==> 1 <= handle <= |old(slots)| && Joinable(old(slots)[handle - 1])
      ensures slots == if ok then old(slots)[handle - 1 := old(slots)[handle - 1].(joining := true)] else old(slots)
    {
      var idx := handle - 1;
      if idx < 0 || idx >= |slots| { return false; }
      if !slots[idx].used || slots[idx].detach || slots[idx].joining { return false; }
      slots := slots[idx := slots[idx].(joining := true)];
      ok := true;
    }

    /** The second critical section: the result is taken and the slot given back. */
    method EndJoin(i: nat) returns (result: int)
      requires i < |slots|
      modifies this
      ensures result == old(slots)[i].result && slots == old(slots)[i := Reclaimed(old(slots)[i])]
    {
      result := slots[i].result;
      slots := slots[i := slots[i].(used := false, joining := false)];
    }

    /** 0, or -2 for an unknown handle, or -1 for one already detached. */
    method DetachHandle(handle: int) returns (r: int)
      modifies this
      ensures r == -2 <==> !(1 <= handle <= |old(slots)| && old(slots)[handle - 1].used)
      ensures r == -1 <==> 1 <= handle <= |old(slots)| && old(slots)[handle - 1].used && old(slots)[handle - 1].detach
      ensures r == 0 <==> 1 <= handle <= |old(slots)| && old(slots)[handle - 1].used && !old(slots)[handle - 1].detach
      ensures slots == if r == 0 then old(slots)[handle - 1 := Detached(old(slots)[handle - 1])] else old(slots)
    {
      var idx := handle - 1;
      if idx < 0 || idx >= |slots| || !slots[idx].used { return -2; }
      if slots[idx].detach { return -1; }
      var s := slots[idx].(detach := true);
      if s.done && !s.joining { s := s.(used := false); }
      slots := slots[idx := s];
      r := 0;
    }
  }
}
