/**
 The registry under concurrency: threads retain and release without the lock inside a
 reader guard, while another thread may register, rehash and free the old table. One step
 is one access to shared memory; accesses are sequentially consistent.
 */
module GuardProtocol {
  import opened Seqs
  import opened ProbeTable

  datatype Op = Retain | Release

  /** Where a thread is in `retain`, `release` or `register`. */
  datatype Pc =
    | Idle
    | Want(op: Op, p: nat)                                  // about to count itself a reader
    | Entered(op: Op, p: nat)                               // counted, `growing` not yet read
    | BackOff(op: Op, p: nat)                               // saw a grow, must uncount itself
    | LoadCap(op: Op, p: nat)                               // inside the guard from here
    | LoadTab(op: Op, p: nat, cap: nat)
    | Probe(op: Op, p: nat, cap: nat, tab: nat, i: nat)
    | Found(op: Op, p: nat, tab: nat, k: nat)               // slot seen, to be re-checked
    | Touch(op: Op, p: nat, tab: nat, k: nat)               // about to change the count
    | Missed(op: Op, p: nat)                                // not in the table
    | Leave(op: Op, p: nat, last: bool)                     // done, about to uncount itself
    | WantLock(p: nat)                                      // last release: retire the entry
    | RetireFree(p: nat)                                    // lock held from here
    | RetireTomb(p: nat)
    | RegWait(p: nat)                                       // allocated, to be registered
    | RegTable(p: nat)                                      // lock held from here
    | RegRefs(p: nat, k: nat)
    | Drain(p: nat, newcap: nat)                            // `growing` set, waiting for readers
    | Copy(p: nat, i: nat, nw: seq<Slot>, m: map<nat, int>) // `m`: the entries copied so far
    | PubCap(p: nat, nw: seq<Slot>)
    | PubTab(p: nat, nw: seq<Slot>)
    | PubOpen(p: nat, old_: nat)
    | FreeOld(p: nat, old_: nat)

  datatype State = State(
    heap: map<nat, seq<Slot>>,     // tables allocated and not freed
    reg: nat,                      // the published table
    effCap: nat,                   // the published capacity
    growing: bool,
    rdrs: int,
    lock: Option<nat>,
    pcs: seq<Pc>,
    next: nat,
    buffers: set<nat>,             // string buffers allocated and not freed
    literals: set<nat>,            // pointers the allocator never hands out
    // What the registry means: the counts, and the references client code holds.
    counts: map<nat, int>,
    held: map<nat, nat>)

  datatype Step =
    | Start(t: nat, op: Op, p: nat)       // a call of retain or release
    | Alloc(t: nat, p: nat)               // malloc, then register with one reference
    | Rehash(t: nat, newcap: nat)
    | CopyTo(t: nat, k: nat)
    | InsertAt(t: nat, k: nat)
    | Go(t: nat)                          // whatever else the thread does next

  // ------------------------------------------------------------------ reading a state

  function Count(counts: map<nat, int>, p: nat): int { if p in counts then counts[p] else 0 }

  function HeldOf(s: State, p: nat): nat { if p in s.held then s.held[p] else 0 }

  /** A table read; a freed table or a slot outside it reads as NULL. */
  function SlotOf(s: State, tab: nat, k: nat): Slot {
    if tab in s.heap && k < |s.heap[tab]| then s.heap[tab][k] else Slot(NULL, 0)
  }

  /** Counted in `rdrs`. */
  predicate Counted(pc: Pc) { pc.Entered? || pc.BackOff? || InGuard(pc) }

  /** Past the check of `growing`. */
  predicate InGuard(pc: Pc) {
    pc.LoadCap? || pc.LoadTab? || pc.Probe? || pc.Found? || pc.Touch? || pc.Missed? || pc.Leave?
  }

  predicate HoldsLock(pc: Pc) {
    pc.RetireFree? || pc.RetireTomb? || pc.RegTable? || pc.RegRefs? || Grows(pc) || pc.FreeOld?
  }

  /** Between setting and clearing `growing`. */
  predicate Grows(pc: Pc) { pc.Drain? || Swaps(pc) }

  /** Past the drain. */
  predicate Swaps(pc: Pc) { pc.Copy? || pc.PubCap? || pc.PubTab? || pc.PubOpen? }

  /** References to `p` that the thread's call carries: its own until the count changes. */
  function Carries(pc: Pc, p: nat): nat {
    match pc
    case Want(_, q) => if q == p then 1 else 0
    case Entered(_, q) => if q == p then 1 else 0
    case BackOff(_, q) => if q == p then 1 else 0
    case LoadCap(_, q) => if q == p then 1 else 0
    case LoadTab(_, q, _) => if q == p then 1 else 0
    case Probe(_, q, _, _, _) => if q == p then 1 else 0
    case Found(_, q, _, _) => if q == p then 1 else 0
    case Touch(_, q, _, _) => if q == p then 1 else 0
    case Missed(_, q) => if q == p then 1 else 0
    case Leave(op, q, _) => if q == p && op == Retain then 2 else 0
    case _ => 0
  }

  /** The thread made the count of `p` zero and has not yet retired the entry. */
  predicate Dying(pc: Pc, p: nat) {
    || (pc.Leave? && pc.op == Release && pc.last && pc.p == p)
    || ((pc.WantLock? || pc.RetireFree? || pc.RetireTomb?) && pc.p == p)
  }

  predicate Registers(pc: Pc, p: nat) {
    (pc.RegWait? || pc.RegTable? || pc.RegRefs? || Grows(pc) || pc.FreeOld?) && pc.p == p
  }

  // --------------------------------------------------------------------- transitions

  ghost predicate FirstFree(hash: Hash, t: seq<Slot>, p: nat, k: nat) {
    && k < |t| && t[k].p <= TOMB
    && forall j :: 0 <= j < |t| && Before(Home(hash, p, |t|), j, k, |t|) ==> t[j].p > TOMB
  }

  /**
   When a step may be taken. A call on a registered pointer is made by a holder of a
   reference, which the call borrows (retain) or consumes (release).
   */
  ghost predicate Enabled(hash: Hash, s: State, step: Step) {
    step.t < |s.pcs| &&
    var pc := s.pcs[step.t];
    match step
    case Start(_, _, p) => pc.Idle? && p > TOMB && (p in s.literals || HeldOf(s, p) > 0)
    case Alloc(_, p) => pc.Idle? && p > TOMB && p !in s.buffers && p !in s.literals
    case Rehash(_, newcap) => pc.RegTable? && s.reg in s.heap && newcap >= |s.heap[s.reg]|
    case CopyTo(_, k) =>
      && pc.Copy? && s.reg in s.heap && pc.i < |s.heap[s.reg]|
      && s.heap[s.reg][pc.i].p > TOMB && FirstFree(hash, pc.nw, s.heap[s.reg][pc.i].p, k)
    case InsertAt(_, k) => pc.RegTable? && s.reg in s.heap && FirstFree(hash, s.heap[s.reg], pc.p, k)
    case Go(_) =>
      && !pc.Idle? && !pc.RegTable?
      && ((pc.WantLock? || pc.RegWait?) ==> s.lock.None?)
      && (pc.Drain? ==> s.rdrs == 0)
      && (Grows(pc) || pc.FreeOld? ==> s.reg in s.heap)
      && (pc.Copy? ==> (pc.i < |s.heap[s.reg]| ==> s.heap[s.reg][pc.i].p <= TOMB))
  }

  function At(s: State, t: nat, pc: Pc): State
    requires t < |s.pcs|
  {
    s.(pcs := s.pcs[t := pc])
  }

  /** One probe step: the pointer, a NULL, or on to the next slot. */
  function ProbeStep(hash: Hash, s: State, pc: Pc): Pc
    requires pc.Probe?
  {
    if pc.i >= pc.cap then Missed(pc.op, pc.p) else
      var k := Index(Home(hash, pc.p, pc.cap), pc.i, pc.cap);
      var q := SlotOf(s, pc.tab, k).p;
      if q == pc.p then Found(pc.op, pc.p, pc.tab, k)
      else if q == NULL then Missed(pc.op, pc.p)
      else Probe(pc.op, pc.p, pc.cap, pc.tab, pc.i + 1)
  }

  function SetSlot(s: State, tab: nat, k: nat, slot: Slot): State {
    if tab in s.heap && k < |s.heap[tab]| then s.(heap := s.heap[tab := s.heap[tab][k := slot]]) else s
  }

  /** The atomic change of a count; a release that finds 1 is the last. */
  function TouchCount(s: State, t: nat): State
    requires t < |s.pcs| && s.pcs[t].Touch?
  {
    var pc := s.pcs[t];
    var slot := SlotOf(s, pc.tab, pc.k);
    var d := if pc.op == Retain then 1 else -1;
    var s' := SetSlot(s, pc.tab, pc.k, Slot(slot.p, slot.refs + d));
    At(s'.(counts := s.counts[pc.p := Count(s.counts, pc.p) + d]), t,
       Leave(pc.op, pc.p, pc.op == Release && slot.refs == 1))
  }

  /** The slot a lookup under the lock finds. */
  ghost function LockedSlot(s: State, p: nat): (k: nat)
    requires s.reg in s.heap && Holds(s.heap[s.reg], p)
    ensures k < |s.heap[s.reg]| && s.heap[s.reg][k].p == p
  {
    var k: nat :| k < |s.heap[s.reg]| && s.heap[s.reg][k].p == p; k
  }

  /** The entry becomes a tombstone; a lookup that finds nothing changes nothing. */
  ghost function TombEntry(s: State, p: nat): State {
    if s.reg in s.heap && Holds(s.heap[s.reg], p) then
      SetSlot(s, s.reg, LockedSlot(s, p), Slot(TOMB, 0)).(counts := s.counts - {p})
    else s
  }

  /** A call up to the change of the count. */
  predicate BeforeTouch(pc: Pc) {
    pc.Want? || pc.Entered? || pc.BackOff? || pc.LoadCap? || pc.LoadTab? || pc.Probe? || pc.Found? || pc.Missed?
  }

  function ReaderGo(hash: Hash, s: State, t: nat): State
    requires t < |s.pcs| && BeforeTouch(s.pcs[t])
  {
    match s.pcs[t]
    case Want(op, p) => At(s.(rdrs := s.rdrs + 1), t, Entered(op, p))
    case Entered(op, p) => At(s, t, if s.growing then BackOff(op, p) else LoadCap(op, p))
    case BackOff(op, p) => At(s.(rdrs := s.rdrs - 1), t, Want(op, p))
    case LoadCap(op, p) => At(s, t, LoadTab(op, p, s.effCap))
    case LoadTab(op, p, cap) => At(s, t, Probe(op, p, cap, s.reg, 0))
    case Probe(_, _, _, _, _) => At(s, t, ProbeStep(hash, s, s.pcs[t]))
    case Found(op, p, tab, k) =>
      At(s, t, if SlotOf(s, tab, k).p == p then Touch(op, p, tab, k) else Missed(op, p))
    case Missed(_, _) => At(s.(rdrs := s.rdrs - 1), t, Pc.Idle)
  }

  /** The rehash of the thread that holds the lock, from the end of the drain on. */
  function GrowerGo(s: State, t: nat): State
    requires t < |s.pcs| && (Grows(s.pcs[t]) || s.pcs[t].FreeOld?) && s.reg in s.heap
  {
    match s.pcs[t]
    case Drain(p, newcap) =>
      At(s, t, Copy(p, 0, seq(newcap, _ => Slot(NULL, 0)), map[]))
    case Copy(p, i, nw, m) =>
      At(s, t, if i < |s.heap[s.reg]| then Copy(p, i + 1, nw, m) else PubCap(p, nw))
    case PubCap(p, nw) => At(s.(effCap := |nw|), t, PubTab(p, nw))
    case PubTab(p, nw) =>
      At(s.(heap := s.heap[s.next := nw], reg := s.next, next := s.next + 1), t, PubOpen(p, s.reg))
    case PubOpen(p, old_) => At(s.(growing := false), t, FreeOld(p, old_))
    case FreeOld(p, old_) => At(s.(heap := s.heap - {old_}), t, RegTable(p))
  }

  ghost function GoStep(hash: Hash, s: State, t: nat): State
    requires t < |s.pcs| && Enabled(hash, s, Go(t))
  {
    var pc := s.pcs[t];
    if BeforeTouch(pc) then ReaderGo(hash, s, t)
    else if Grows(pc) || pc.FreeOld? then GrowerGo(s, t)
    else LateGo(s, t)
  }

  /** The end of a call: the count, leaving the guard, retiring, and publishing an entry. */
  ghost function LateGo(s: State, t: nat): State
    requires t < |s.pcs| && !s.pcs[t].Idle? && !s.pcs[t].RegTable?
    requires !BeforeTouch(s.pcs[t]) && !Grows(s.pcs[t]) && !s.pcs[t].FreeOld?
  {
    match s.pcs[t]
    case Touch(_, _, _, _) => TouchCount(s, t)
    case Leave(op, p, last) =>
      var s' := s.(rdrs := s.rdrs - 1);
      if op == Retain then At(s'.(held := s.held[p := HeldOf(s, p) + 2]), t, Pc.Idle)
      else At(s', t, if last then WantLock(p) else Pc.Idle)
    case WantLock(p) => At(s.(lock := Some(t)), t, RetireFree(p))
    case RetireFree(p) => At(s.(buffers := s.buffers - {p}), t, RetireTomb(p))
    case RetireTomb(p) => At(TombEntry(s, p).(lock := None), t, Pc.Idle)
    case RegWait(p) => At(s.(lock := Some(t)), t, RegTable(p))
    case RegRefs(p, k) => PublishEntry(s, t, p, k)
  }

  /** The store of the pointer, after its count, makes the entry live. */
  function PublishEntry(s: State, t: nat, p: nat, k: nat): State
    requires t < |s.pcs|
  {
    var refs := SlotOf(s, s.reg, k).refs;
    At(SetSlot(s, s.reg, k, Slot(p, refs)).(counts := s.counts[p := refs], held := s.held[p := 1], lock := None),
       t, Pc.Idle)
  }

  ghost function Apply(hash: Hash, s: State, step: Step): State
    requires Enabled(hash, s, step)
  {
    var pc := s.pcs[step.t];
    match step
    case Start(t, op, p) =>
      At(if p in s.literals then s else s.(held := s.held[p := HeldOf(s, p) - 1]), t, Want(op, p))
    case Alloc(t, p) => At(s.(buffers := s.buffers + {p}), t, RegWait(p))
    case Rehash(t, newcap) => At(s.(growing := true), t, Drain(pc.p, newcap))
    case CopyTo(t, k) =>
      var e := s.heap[s.reg][pc.i];
      At(s, t, Copy(pc.p, pc.i + 1, pc.nw[k := e], pc.m[e.p := e.refs]))
    case InsertAt(t, k) =>
      At(SetSlot(s, s.reg, k, Slot(SlotOf(s, s.reg, k).p, 1)), t, RegRefs(pc.p, k))
    case Go(t) => GoStep(hash, s, t)
  }
}
