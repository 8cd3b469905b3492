/** Every step of the growth protocol keeps its invariant. */
module GuardRuns {
  import opened Seqs
  import opened ProbeTable
  import opened GuardProtocol
  import opened GuardInvariant

  // ---------------------------------------------------------------- inside the guard

  /** A call in progress on a pointer that is not a literal finds it registered. */
  lemma CarriedIsRegistered(s: State, t: nat, p: nat)
    requires TokensOk(s) && t < |s.pcs| && p !in s.literals && Carries(s.pcs[t], p) > 0
    ensures p in s.counts && s.counts[p] >= Carries(s.pcs[t], p)
  {
    CarriedAtLeast(s.pcs, t, p);
  }

  /** So a probe never misses it: it meets neither a NULL nor the end first. */
  lemma ProbeFinds(hash: Hash, s: State, t: nat)
    requires TableOk(hash, s) && TokensOk(s) && t < |s.pcs| && s.pcs[t].Probe? && s.pcs[t].p > TOMB
    requires ReaderOk(hash, s, s.pcs[t])
    ensures ReaderOk(hash, s, ProbeStep(hash, s, s.pcs[t]))
  {
    var pc := s.pcs[t];
    if ProbeStep(hash, s, pc).Missed? {
      ProbeProvesAbsent(hash, s.heap[s.reg], pc.p, pc.i);
      if pc.p !in s.literals { CarriedIsRegistered(s, t, pc.p); }
    } else {
      ProbeAdvances(hash, s, pc);
    }
    hide ProbeStep, WellFormed;
  }

  lemma ProbeAdvances(hash: Hash, s: State, pc: Pc)
    requires TableOk(hash, s) && pc.Probe? && pc.p > TOMB && ReaderOk(hash, s, pc) && !ProbeStep(hash, s, pc).Missed?
    ensures ReaderOk(hash, s, ProbeStep(hash, s, pc))
  {
    hide WellFormed, Refines;
  }

  lemma EffCapIsTable(hash: Hash, s: State, t: nat)
    requires TableOk(hash, s) && LockOk(s) && GuardOk(s) && GrowerOk(hash, s) && t < |s.pcs| && InGuard(s.pcs[t])
    ensures s.effCap == |s.heap[s.reg]|
  {
  }

  /** Up to the change of the count a call plays no part in any pointer's life. */
  lemma ReaderRole(pc: Pc, pc': Pc)
    requires BeforeTouch(pc)
    requires pc'.Idle? || ((BeforeTouch(pc') || pc'.Touch?) && pc'.p == pc.p)
    ensures SameRole(pc, pc') && !Grows(pc') && !Grows(pc) && !HoldsLock(pc') && !Swaps(pc') && !pc'.PubTab? && !pc.PubTab?
    ensures forall p :: p != pc.p || !pc'.Idle? ==> Carries(pc', p) == Carries(pc, p)
  {
  }

  /** The next step of a call stays on the published table. */
  lemma ReaderNext(hash: Hash, s: State, t: nat)
    requires TableOk(hash, s) && TokensOk(s) && t < |s.pcs| && BeforeTouch(s.pcs[t])
    requires ReaderOk(hash, s, s.pcs[t]) && s.pcs[t].p > TOMB
    requires s.pcs[t].LoadCap? ==> s.effCap == |s.heap[s.reg]|
    requires |ReaderGo(hash, s, t).pcs| == |s.pcs|
    ensures ReaderOk(hash, s, ReaderGo(hash, s, t).pcs[t])
  {
    if s.pcs[t].Probe? { ProbeFinds(hash, s, t); }
  }

  lemma ReaderPointer(s: State, pc: Pc, pc': Pc)
    requires BeforeTouch(pc) && PointerOk(s, pc) && (pc'.Touch? ==> pc.p !in s.literals)
    requires pc'.Idle? || ((BeforeTouch(pc') || pc'.Touch?) && pc'.p == pc.p)
    ensures PointerOk(s, pc')
  {
  }

  lemma SlotIsNoLiteral(hash: Hash, s: State, k: nat)
    requires TableOk(hash, s) && TokensOk(s) && k < |s.heap[s.reg]| && s.heap[s.reg][k].p > TOMB
    ensures s.heap[s.reg][k].p in s.counts && s.heap[s.reg][k].p !in s.literals
    ensures s.heap[s.reg][k].refs == s.counts[s.heap[s.reg][k].p]
  {
  }

  lemma ReaderFrame(hash: Hash, s: State, t: nat)
    requires TableOk(hash, s) && t < |s.pcs| && BeforeTouch(s.pcs[t]) && ReaderOk(hash, s, s.pcs[t])
    ensures |ReaderGo(hash, s, t).pcs| == |s.pcs|
    ensures var s' := ReaderGo(hash, s, t); var pc, pc' := s.pcs[t], s'.pcs[t];
      && s' == s.(pcs := s.pcs[t := pc'], rdrs := s'.rdrs)
      && s'.rdrs == s.rdrs - (if Counted(pc) then 1 else 0) + (if Counted(pc') then 1 else 0)
      && (pc'.Idle? || ((BeforeTouch(pc') || pc'.Touch?) && pc'.p == s.pcs[t].p))
      && (pc'.Idle? ==> pc.p in s.literals) && (pc'.Touch? ==> pc.Found?)
      && (InGuard(pc') ==> InGuard(pc) || !s.growing)
  {
    ReaderShape(hash, s, t);
    ReaderCounts(hash, s, t);
    hide TableOk, ReaderOk, ReaderGo, Counted, InGuard, BeforeTouch;
  }

  lemma ReaderCounts(hash: Hash, s: State, t: nat)
    requires t < |s.pcs| && BeforeTouch(s.pcs[t])
    ensures |ReaderGo(hash, s, t).pcs| == |s.pcs|
    ensures var s' := ReaderGo(hash, s, t); var pc, pc' := s.pcs[t], s'.pcs[t];
      && s' == s.(pcs := s.pcs[t := pc'], rdrs := s'.rdrs)
      && s'.rdrs == s.rdrs - (if Counted(pc) then 1 else 0) + (if Counted(pc') then 1 else 0)
  {
    if s.pcs[t].Probe? { ProbeShape(hash, s, s.pcs[t]); }
    hide ProbeStep;
  }

  lemma ReaderShape(hash: Hash, s: State, t: nat)
    requires TableOk(hash, s) && t < |s.pcs| && BeforeTouch(s.pcs[t]) && ReaderOk(hash, s, s.pcs[t])
    ensures |ReaderGo(hash, s, t).pcs| == |s.pcs|
    ensures var s' := ReaderGo(hash, s, t); var pc, pc' := s.pcs[t], s'.pcs[t];
      && (pc'.Idle? || ((BeforeTouch(pc') || pc'.Touch?) && pc'.p == s.pcs[t].p))
      && (pc'.Idle? ==> pc.p in s.literals) && (pc'.Touch? ==> pc.Found?)
      && (InGuard(pc') ==> InGuard(pc) || !s.growing)
  {
    FoundIsThere(hash, s, s.pcs[t]);
    if s.pcs[t].Probe? { ProbeShape(hash, s, s.pcs[t]); }
    hide TableOk, ReaderOk, ProbeStep;
  }

  lemma FoundIsThere(hash: Hash, s: State, pc: Pc)
    requires TableOk(hash, s) && ReaderOk(hash, s, pc)
    ensures pc.Found? ==> SlotOf(s, pc.tab, pc.k).p == pc.p
    ensures pc.Missed? ==> pc.p in s.literals
  {
  }

  lemma ProbeShape(hash: Hash, s: State, pc: Pc)
    requires pc.Probe?
    ensures var pc' := ProbeStep(hash, s, pc);
      (pc'.Probe? || pc'.Found? || pc'.Missed?) && pc'.p == pc.p && BeforeTouch(pc') && Counted(pc') && InGuard(pc')
  {
  }

  lemma ReaderSteps(hash: Hash, s: State, t: nat)
    requires Inv(hash, s) && t < |s.pcs| && BeforeTouch(s.pcs[t])
    ensures Inv(hash, ReaderGo(hash, s, t))
  {
    assert ReaderOk(hash, s, s.pcs[t]) && PointerOk(s, s.pcs[t]) && s.pcs[t].p > TOMB;
    if s.pcs[t].LoadCap? { EffCapIsTable(hash, s, t); }
    if s.pcs[t].Found? { SlotIsNoLiteral(hash, s, s.pcs[t].k); }
    assert s.pcs[t].Found? ==> s.pcs[t].p !in s.literals;
    hide TableOk, LockOk, GuardOk, GrowerOk, ReadersOk, TokensOk, LifeOk, SameRole, ReaderOk, PointerOk, HolderOk, ReaderGo;
    ReaderFrame(hash, s, t);
    ReaderNext(hash, s, t);
    var s' := ReaderGo(hash, s, t);
    ReaderPointer(s, s.pcs[t], s'.pcs[t]);
    ReaderRole(s.pcs[t], s'.pcs[t]);
    SameTokens(s, s', t, s'.pcs[t]);
    ThreadMoves(hash, s, s', t, s'.pcs[t]);
  }

  // -------------------------------------------------------- references change hands

  /** A call starts: it takes its caller's reference along. */
  lemma StartStep(hash: Hash, s: State, t: nat, op: Op, p: nat)
    requires Inv(hash, s) && Enabled(hash, s, Start(t, op, p))
    ensures Inv(hash, Apply(hash, s, Start(t, op, p)))
  {
    var s' := Apply(hash, s, Start(t, op, p));
    StartTokens(s, s', t, op, p);
    StartRole(op, p);
    hide TableOk, LockOk, GuardOk, GrowerOk, ReadersOk, TokensOk, LifeOk, SameRole, HolderOk;
    ThreadMoves(hash, s, s', t, Want(op, p));
  }

  lemma StartRole(op: Op, p: nat)
    ensures SameRole(Pc.Idle, Want(op, p))
  {
  }

  lemma StartTokens(s: State, s': State, t: nat, op: Op, p: nat)
    requires TokensOk(s) && t < |s.pcs| && s.pcs[t].Idle? && s'.pcs == s.pcs[t := Want(op, p)]
    requires s'.counts == s.counts && s'.literals == s.literals
    requires p in s.literals || HeldOf(s, p) > 0
    requires s'.held == if p in s.literals then s.held else s.held[p := HeldOf(s, p) - 1]
    ensures TokensOk(s')
  {
    forall q | q !in s.literals
      ensures Count(s'.counts, q) == HeldOf(s', q) + Carried(s'.pcs, q)
    {
      CarriedUpdate(s.pcs, t, Want(op, p), q);
    }
  }

  /** A call ends: a retain gives back its own and the new reference, a last release goes on to retire. */
  lemma LeaveStep(hash: Hash, s: State, t: nat)
    requires Inv(hash, s) && t < |s.pcs| && s.pcs[t].Leave?
    ensures Inv(hash, LateGo(s, t))
  {
    var pc := s.pcs[t];
    var s' := LateGo(s, t);
    var pc' := s'.pcs[t];
    LeavePointer(hash, s, t);
    LeaveShape(s, t);
    hide TableOk, LockOk, GuardOk, GrowerOk, ReadersOk, TokensOk, LifeOk, SameRole, HolderOk, PointerOk, ReaderOk, LateGo,
      Counted, Grows, Swaps, InGuard, HoldsLock;
    LeaveTokens(s, s', t, pc');
    LeaveRole(hash, s, pc, pc');
    ThreadMoves(hash, s, s', t, pc');
  }

  /** What the end of a call changes. */
  lemma LeaveShape(s: State, t: nat)
    requires t < |s.pcs| && s.pcs[t].Leave?
    ensures
      var pc := s.pcs[t];
      var pc' := if pc.op == Release && pc.last then WantLock(pc.p) else Pc.Idle;
      var held := if pc.op == Retain then s.held[pc.p := HeldOf(s, pc.p) + 2] else s.held;
      && LateGo(s, t) == s.(pcs := s.pcs[t := pc'], rdrs := s.rdrs - 1, held := held)
      && Counted(pc) && !Counted(pc') && !Grows(pc) && !Grows(pc') && !Swaps(pc') && !InGuard(pc') && !HoldsLock(pc')
  {
  }

  lemma LeavePointer(hash: Hash, s: State, t: nat)
    requires Inv(hash, s) && t < |s.pcs| && s.pcs[t].Leave?
    ensures PointerOk(s, s.pcs[t]) && s.pcs[t].p !in s.literals
  {
    assert PointerOk(s, s.pcs[t]);
  }

  lemma LeaveRole(hash: Hash, s: State, pc: Pc, pc': Pc)
    requires TableOk(hash, s) && PointerOk(s, pc)
    requires pc.Leave? && pc' == if pc.op == Release && pc.last then WantLock(pc.p) else Pc.Idle
    ensures SameRole(pc, pc') && ReaderOk(hash, s, pc') && PointerOk(s, pc')
  {
  }

  lemma LeaveTokens(s: State, s': State, t: nat, pc': Pc)
    requires TokensOk(s) && t < |s.pcs| && s.pcs[t].Leave? && s'.pcs == s.pcs[t := pc'] && s.pcs[t].p !in s.literals
    requires pc' == if s.pcs[t].op == Release && s.pcs[t].last then WantLock(s.pcs[t].p) else Pc.Idle
    requires s'.counts == s.counts && s'.literals == s.literals
    requires s'.held == if s.pcs[t].op == Retain then s.held[s.pcs[t].p := HeldOf(s, s.pcs[t].p) + 2] else s.held
    ensures TokensOk(s')
  {
    forall q | q !in s.literals
      ensures Count(s'.counts, q) == HeldOf(s', q) + Carried(s'.pcs, q)
    {
      CarriedUpdate(s.pcs, t, pc', q);
    }
  }

  // ------------------------------------------------------------------- the rehash

  /** The drained grower copies entry by entry and ends with the whole table. */
  lemma CopySteps(hash: Hash, s: State, t: nat)
    requires Inv(hash, s) && Enabled(hash, s, Go(t)) && t < |s.pcs| && (s.pcs[t].Drain? || s.pcs[t].Copy?)
    ensures Inv(hash, GrowerGo(s, t))
  {
    var pc := s.pcs[t];
    var s' := GrowerGo(s, t);
    var pc' := s'.pcs[t];
    assert HoldsLock(pc) && s.lock == Some(t) && HolderOk(hash, s, pc) && PointerOk(s, pc);
    CopyHolder(hash, s, t);
    GrowerRole(pc, pc');
    hide TableOk, LockOk, GuardOk, GrowerOk, ReadersOk, TokensOk, LifeOk, SameRole, HolderOk, PointerOk, ReaderOk;
    SameTokens(s, s', t, pc');
    ThreadMoves(hash, s, s', t, pc');
  }

  lemma CopyToStep(hash: Hash, s: State, t: nat, k: nat)
    requires Inv(hash, s) && Enabled(hash, s, CopyTo(t, k))
    ensures Inv(hash, Apply(hash, s, CopyTo(t, k)))
  {
    var pc := s.pcs[t];
    var s' := Apply(hash, s, CopyTo(t, k));
    var pc' := s'.pcs[t];
    assert HoldsLock(pc) && s.lock == Some(t) && HolderOk(hash, s, pc) && PointerOk(s, pc);
    CopyToHolder(hash, s, t, k);
    GrowerRole(pc, pc');
    hide TableOk, LockOk, GuardOk, GrowerOk, ReadersOk, TokensOk, LifeOk, SameRole, HolderOk, PointerOk, ReaderOk;
    SameTokens(s, s', t, pc');
    ThreadMoves(hash, s, s', t, pc');
  }

  lemma CopyHolder(hash: Hash, s: State, t: nat)
    requires TableOk(hash, s) && Enabled(hash, s, Go(t)) && t < |s.pcs| && (s.pcs[t].Drain? || s.pcs[t].Copy?)
    requires HolderOk(hash, s, s.pcs[t])
    ensures |GrowerGo(s, t).pcs| == |s.pcs| && HolderOk(hash, s, GrowerGo(s, t).pcs[t])
  {
    hide WellFormed, Refines, Copied;
    assert |s.heap[s.reg]| > 0 by { TableSize(hash, s); }
    match s.pcs[t] {
      case Drain(_, newcap) =>
        EmptyTable(hash, seq(newcap, _ => Slot(NULL, 0)));
        NothingCopied(s.heap[s.reg]);
      case Copy(_, i, nw, m) =>
        if i < |s.heap[s.reg]| { CopiedNext(hash, s.heap[s.reg], i, m); }
        else { CopiedAll(s.heap[s.reg], m, s.counts); }
    }
  }

  lemma TableSize(hash: Hash, s: State)
    requires TableOk(hash, s)
    ensures |s.heap[s.reg]| > 0
  {
  }

  lemma NothingCopied(t: seq<Slot>)
    ensures Copied(t, 0, map[])
  {
  }

  lemma CopyToHolder(hash: Hash, s: State, t: nat, k: nat)
    requires TableOk(hash, s) && Enabled(hash, s, CopyTo(t, k)) && HolderOk(hash, s, s.pcs[t])
    ensures |Apply(hash, s, CopyTo(t, k)).pcs| == |s.pcs| && HolderOk(hash, s, Apply(hash, s, CopyTo(t, k)).pcs[t])
  {
    hide WellFormed, Refines, Copied, FirstFree, TableOk;
    var pc := s.pcs[t];
    CopyOneKeeps(hash, s, pc, k);
  }

  lemma CopyOneKeeps(hash: Hash, s: State, pc: Pc, k: nat)
    requires TableOk(hash, s) && pc.Copy? && HolderOk(hash, s, pc) && pc.i < |s.heap[s.reg]|
    requires s.heap[s.reg][pc.i].p > TOMB && FirstFree(hash, pc.nw, s.heap[s.reg][pc.i].p, k)
    ensures k < |pc.nw|
    ensures var e := s.heap[s.reg][pc.i]; HolderOk(hash, s, Copy(pc.p, pc.i + 1, pc.nw[k := e], pc.m[e.p := e.refs]))
  {
    var e := s.heap[s.reg][pc.i];
    FirstFreeSpot(hash, pc.nw, e.p, k);
    hide WellFormed, Refines, Copied, FirstFree;
    CopiedNext(hash, s.heap[s.reg], pc.i, pc.m);
    InsertKeeps(hash, pc.nw, pc.m, k, e);
  }

  lemma FirstFreeSpot(hash: Hash, t: seq<Slot>, p: nat, k: nat)
    requires FirstFree(hash, t, p, k)
    ensures k < |t| && t[k].p <= TOMB
    ensures forall j :: 0 <= j < |t| && Before(Home(hash, p, |t|), j, k, |t|) ==> t[j].p != NULL
  {
  }

  /** The copying grower keeps its lock and its pointer, and carries nothing. */
  lemma GrowerRole(pc: Pc, pc': Pc)
    requires (pc.Drain? || pc.Copy?) && (pc'.Copy? || pc'.PubCap?) && pc'.p == pc.p
    ensures SameRole(pc, pc') && Grows(pc) && Grows(pc')
    ensures forall p :: Carries(pc', p) == Carries(pc, p)
    ensures forall hash, s :: TableOk(hash, s) ==> ReaderOk(hash, s, pc')
    ensures forall s :: PointerOk(s, pc) ==> PointerOk(s, pc')
  {
  }

  // -------------------------------------------------------------- the table changes

  /** The published tables of `s` and `s'` hold the same pointers in the same slots. */
  ghost predicate SamePointers(hash: Hash, s: State, s': State)
    requires TableOk(hash, s) && TableOk(hash, s')
  {
    && s'.reg == s.reg && |s'.heap[s.reg]| == |s.heap[s.reg]| && s'.literals == s.literals
    && forall k :: 0 <= k < |s.heap[s.reg]| ==> s'.heap[s.reg][k].p == s.heap[s.reg][k].p
  }

  lemma ReadersKept(hash: Hash, s: State, s': State, t: nat, pc': Pc)
    requires TableOk(hash, s) && TableOk(hash, s') && SamePointers(hash, s, s') && ReadersOk(hash, s)
    requires t < |s.pcs| && s'.pcs == s.pcs[t := pc'] && ReaderOk(hash, s', pc') && PointerOk(s', pc')
    ensures ReadersOk(hash, s')
  {
    forall u | 0 <= u < |s'.pcs|
      ensures ReaderOk(hash, s', s'.pcs[u]) && PointerOk(s', s'.pcs[u])
    {
      if u != t { ReaderKept(hash, s, s', s.pcs[u]); }
    }
  }

  lemma ReaderKept(hash: Hash, s: State, s': State, pc: Pc)
    requires TableOk(hash, s) && TableOk(hash, s') && SamePointers(hash, s, s') && ReaderOk(hash, s, pc) && PointerOk(s, pc)
    ensures ReaderOk(hash, s', pc) && PointerOk(s', pc)
  {
  }

  /** The atomic change of a count, inside the guard. */
  lemma TouchStep(hash: Hash, s: State, t: nat)
    requires Inv(hash, s) && t < |s.pcs| && s.pcs[t].Touch?
    ensures Inv(hash, TouchCount(s, t))
  {
    hide TableOk, LockOk, GuardOk, GrowerOk, ReadersOk, TokensOk, LifeOk, SamePointers, ReaderOk, PointerOk, TouchCount, HolderOk;
    var pc := s.pcs[t];
    var s' := TouchCount(s, t);
    TouchReady(hash, s, t);
    TouchTable(hash, s, t);
    TouchShape(hash, s, t);
    TouchTokens(s, s', t);
    TouchLife(s, s', t, pc.p, s'.counts[pc.p]);
    LockFrame(s, s', t, s'.pcs[t]);
    GuardFrame(s, s', t, s'.pcs[t]);
    ReadersKept(hash, s, s', t, s'.pcs[t]);
    TouchGrower(hash, s, s', t);
  }

  lemma TouchReady(hash: Hash, s: State, t: nat)
    requires TableOk(hash, s) && ReadersOk(hash, s) && TokensOk(s) && t < |s.pcs| && s.pcs[t].Touch?
    ensures ReaderOk(hash, s, s.pcs[t]) && s.pcs[t].p > TOMB && s.pcs[t].p !in s.literals
    ensures s.reg in s.heap && s.pcs[t].k < |s.heap[s.reg]|
    ensures s.pcs[t].p in s.counts && s.counts[s.pcs[t].p] >= 1 && s.heap[s.reg][s.pcs[t].k].refs == s.counts[s.pcs[t].p]
  {
    assert ReaderOk(hash, s, s.pcs[t]) && PointerOk(s, s.pcs[t]);
    SlotIsNoLiteral(hash, s, s.pcs[t].k);
    CarriedIsRegistered(s, t, s.pcs[t].p);
  }

  lemma TouchTable(hash: Hash, s: State, t: nat)
    requires TableOk(hash, s) && t < |s.pcs| && s.pcs[t].Touch? && ReaderOk(hash, s, s.pcs[t]) && s.pcs[t].p > TOMB
    requires s.pcs[t].p in s.counts && s.heap[s.reg][s.pcs[t].k].refs == s.counts[s.pcs[t].p]
    ensures TableOk(hash, TouchCount(s, t)) && SamePointers(hash, s, TouchCount(s, t)) && s.reg in TouchCount(s, t).heap
    ensures forall k :: 0 <= k < |s.heap[s.reg]| && s.heap[s.reg][k].p <= TOMB ==>
      TouchCount(s, t).heap[s.reg][k] == s.heap[s.reg][k]
  {
    hide WellFormed, Refines;
    var pc := s.pcs[t];
    var d := if pc.op == Retain then 1 else -1;
    CountKeeps(hash, s.heap[s.reg], s.counts, pc.k, s.counts[pc.p] + d);
  }

  /** What the change of the count leaves alone, and where the thread is then. */
  lemma TouchShape(hash: Hash, s: State, t: nat)
    requires TableOk(hash, s) && t < |s.pcs| && s.pcs[t].Touch? && ReaderOk(hash, s, s.pcs[t]) && s.pcs[t].p !in s.literals
    requires s.pcs[t].p in s.counts && s.counts[s.pcs[t].p] >= 1 && s.pcs[t].p > TOMB
    requires s.heap[s.reg][s.pcs[t].k].refs == s.counts[s.pcs[t].p] && TableOk(hash, TouchCount(s, t))
    ensures var s' := TouchCount(s, t); var p, d := s.pcs[t].p, if s.pcs[t].op == Retain then 1 else -1;
      && s' == s.(heap := s'.heap, counts := s.counts[p := s.counts[p] + d],
                  pcs := s.pcs[t := Leave(s.pcs[t].op, p, s.pcs[t].op == Release && s.counts[p] + d == 0)])
      && ReaderOk(hash, s', s'.pcs[t]) && PointerOk(s', s'.pcs[t])
  {
    hide WellFormed, Refines;
  }

  lemma TouchTokens(s: State, s': State, t: nat)
    requires TokensOk(s) && t < |s.pcs| && s.pcs[t].Touch? && s.pcs[t].p !in s.literals && s.pcs[t].p in s.counts
    requires s'.held == s.held && s'.literals == s.literals
    requires s'.counts == s.counts[s.pcs[t].p := s.counts[s.pcs[t].p] + if s.pcs[t].op == Retain then 1 else -1]
    requires |s'.pcs| == |s.pcs| && s'.pcs == s.pcs[t := s'.pcs[t]]
    requires s'.pcs[t].Leave? && s'.pcs[t].p == s.pcs[t].p && s'.pcs[t].op == s.pcs[t].op
    ensures TokensOk(s')
  {
    forall q | q !in s.literals
      ensures Count(s'.counts, q) == HeldOf(s', q) + Carried(s'.pcs, q)
    {
      CarriedUpdate(s.pcs, t, s'.pcs[t], q);
    }
  }

  lemma TouchLife(s: State, s': State, t: nat, p: nat, c: int)
    requires LifeOk(s) && t < |s.pcs| && s.pcs[t].Touch? && |s'.pcs| == |s.pcs| && s'.pcs == s.pcs[t := s'.pcs[t]]
    requires s'.buffers == s.buffers && s'.lock == s.lock && p in s.counts && s.counts[p] >= 1 && s'.counts == s.counts[p := c]
    requires s'.pcs[t].Leave? && s'.pcs[t].p == p && c >= 0 && (Dying(s'.pcs[t], p) <==> c == 0)
    ensures LifeOk(s')
  {
    assert forall q :: Freeing(s', q) <==> Freeing(s, q);
    assert BuffersOk(s') && RegistersOk(s');
    TouchDying(s, s', t, p, c);
  }

  lemma TouchDying(s: State, s': State, t: nat, p: nat, c: int)
    requires DyingOk(s) && t < |s.pcs| && s.pcs[t].Touch? && |s'.pcs| == |s.pcs| && s'.pcs == s.pcs[t := s'.pcs[t]]
    requires p in s.counts && s.counts[p] >= 1 && s'.counts == s.counts[p := c]
    requires s'.pcs[t].Leave? && s'.pcs[t].p == p && (Dying(s'.pcs[t], p) <==> c == 0)
    ensures DyingOk(s')
  {
    assert forall u :: 0 <= u < |s.pcs| ==> !Dying(s.pcs[u], p);
    forall q | q in s'.counts && s'.counts[q] == 0
      ensures exists u :: 0 <= u < |s'.pcs| && Dying(s'.pcs[u], q)
    {
      if q == p {
        assert Dying(s'.pcs[t], q);
      } else {
        var u :| 0 <= u < |s.pcs| && Dying(s.pcs[u], q);
        assert Dying(s'.pcs[u], q);
      }
    }
  }

  lemma TouchGrower(hash: Hash, s: State, s': State, t: nat)
    requires TableOk(hash, s) && LockOk(s) && GuardOk(s) && GrowerOk(hash, s) && t < |s.pcs| && s.pcs[t].Touch?
    requires s.reg in s'.heap && |s'.pcs| == |s.pcs| && s'.pcs == s.pcs[t := s'.pcs[t]] && s'.lock == s.lock && s'.effCap == s.effCap
    requires TableOk(hash, s') && LockOk(s') && SamePointers(hash, s, s') && !HoldsLock(s'.pcs[t])
    requires forall k :: 0 <= k < |s.heap[s.reg]| && s.heap[s.reg][k].p <= TOMB ==> s'.heap[s.reg][k] == s.heap[s.reg][k]
    ensures GrowerOk(hash, s')
  {
    EffCapIsTable(hash, s, t);
    hide WellFormed, Refines;
    if s.lock.Some? {
      var l := s.lock.value;
      assert s'.pcs[l] == s.pcs[l] && !Swaps(s.pcs[l]);
    }
  }

  // ----------------------------------------------------------- under the lock: the lock

  /** The lock goes to a thread that retires or registers. */
  lemma AcquireStep(hash: Hash, s: State, t: nat)
    requires Inv(hash, s) && t < |s.pcs| && (s.pcs[t].WantLock? || s.pcs[t].RegWait?) && s.lock.None?
    ensures Inv(hash, LateGo(s, t))
  {
    var s' := LateGo(s, t);
    var pc, pc' := s.pcs[t], s'.pcs[t];
    assert PointerOk(s, pc);
    hide LifeOk, TableOk, LockOk, GuardOk, GrowerOk, TokensOk, ReadersOk, HolderOk;
    AcquireLife(s, s', t);
    AcquireLock(hash, s, s', t);
    SameTokens(s, s', t, pc');
    ReadersFrame(hash, s, s', t, pc');
  }

  lemma AcquireLock(hash: Hash, s: State, s': State, t: nat)
    requires TableOk(hash, s) && LockOk(s) && GuardOk(s) && GrowerOk(hash, s)
    requires t < |s.pcs| && (s.pcs[t].WantLock? || s.pcs[t].RegWait?) && s.lock.None? && s' == LateGo(s, t)
    ensures TableOk(hash, s') && LockOk(s') && GuardOk(s') && GrowerOk(hash, s')
  {
    hide WellFormed, Refines;
    ReadersUpdate(s.pcs, t, s'.pcs[t]);
  }

  lemma AcquireLife(s: State, s': State, t: nat)
    requires LifeOk(s) && t < |s.pcs| && (s.pcs[t].WantLock? || s.pcs[t].RegWait?) && s.lock.None?
    requires s' == LateGo(s, t)
    ensures LifeOk(s')
  {
    DyingFrame(s, s', t, s'.pcs[t]);
    hide DyingOk;
    assert forall p :: !Freeing(s, p) && !Freeing(s', p);
  }

  // ----------------------------------------------------- under the lock: registering

  /** The count is written to the free slot before the pointer. */
  lemma InsertRefsStep(hash: Hash, s: State, t: nat, k: nat)
    requires Inv(hash, s) && Enabled(hash, s, InsertAt(t, k))
    ensures Inv(hash, Apply(hash, s, InsertAt(t, k)))
  {
    var s' := Apply(hash, s, InsertAt(t, k));
    var pc, pc' := s.pcs[t], s'.pcs[t];
    assert PointerOk(s, pc) && HoldsLock(pc) && s.lock == Some(t);
    InsertRefsTable(hash, s, t, k);
    InsertRefsRole(pc.p, k);
    assert GrowerOk(hash, s') by {
      hide WellFormed, Refines, ReadersOk, TokensOk, LifeOk;
      LockFrame(s, s', t, pc');
      FirstFreeSpot(hash, s.heap[s.reg], pc.p, k);
    }
    hide TableOk, LockOk, GuardOk, GrowerOk, ReadersOk, TokensOk, LifeOk, SamePointers, SameRole;
    LockFrame(s, s', t, pc');
    GuardFrame(s, s', t, pc');
    ReadersKept(hash, s, s', t, pc');
    SameTokens(s, s', t, pc');
    LifeFrame(s, s', t, pc');
  }

  lemma InsertRefsRole(p: nat, k: nat)
    ensures SameRole(RegTable(p), RegRefs(p, k))
  {
  }

  lemma InsertRefsTable(hash: Hash, s: State, t: nat, k: nat)
    requires TableOk(hash, s) && Enabled(hash, s, InsertAt(t, k))
    ensures var s' := Apply(hash, s, InsertAt(t, k)); TableOk(hash, s') && SamePointers(hash, s, s')
  {
    DeadSlotRefs(hash, s.heap[s.reg], s.counts, k);
    hide WellFormed, Refines;
  }

  lemma DeadSlotRefs(hash: Hash, t: seq<Slot>, m: map<nat, int>, k: nat)
    requires WellFormed(hash, t) && Refines(t, m) && k < |t| && t[k].p <= TOMB
    ensures WellFormed(hash, t[k := Slot(t[k].p, 1)]) && Refines(t[k := Slot(t[k].p, 1)], m)
  {
    var t' := t[k := Slot(t[k].p, 1)];
    assert forall j :: 0 <= j < |t| ==> t'[j].p == t[j].p;
    forall x | 0 <= x < |t| && t'[x].p > TOMB
      ensures Reached(hash, t', x)
    {
      assert Reached(hash, t, x);
    }
    forall p | p in m
      ensures Holds(t', p)
    {
      HoldsAfter(t, k, Slot(t[k].p, 1), p);
    }
  }

  /** The store of the pointer makes the entry live; the lock is given back. */
  lemma PublishStep(hash: Hash, s: State, t: nat)
    requires Inv(hash, s) && t < |s.pcs| && s.pcs[t].RegRefs?
    ensures Inv(hash, PublishEntry(s, t, s.pcs[t].p, s.pcs[t].k))
  {
    var p, k := s.pcs[t].p, s.pcs[t].k;
    var s' := PublishEntry(s, t, p, k);
    PublishReady(hash, s, t);
    PublishTable(hash, s, t, p, k);
    hide TableOk, LockOk, GuardOk, GrowerOk, ReadersOk, TokensOk, LifeOk, HolderOk, PublishEntry;
    UnlockOk(hash, s, s', t);
    PublishReaders(hash, s, s', t, p, k);
    PublishTokens(s, s', t, p);
    PublishLife(s, s', t, p);
  }

  lemma PublishReady(hash: Hash, s: State, t: nat)
    requires Inv(hash, s) && t < |s.pcs| && s.pcs[t].RegRefs?
    ensures HolderOk(hash, s, s.pcs[t]) && s.pcs[t].p > TOMB && s.pcs[t].p !in s.literals && s.pcs[t].p !in s.counts
    ensures s.lock == Some(t) && s.pcs[t].p in s.buffers
  {
    assert HoldsLock(s.pcs[t]) && PointerOk(s, s.pcs[t]) && Registers(s.pcs[t], s.pcs[t].p);
  }

  lemma PublishTable(hash: Hash, s: State, t: nat, p: nat, k: nat)
    requires TableOk(hash, s) && t < |s.pcs| && s.pcs[t] == RegRefs(p, k) && HolderOk(hash, s, s.pcs[t])
    requires p > TOMB && p !in s.counts
    ensures var s' := PublishEntry(s, t, p, k);
      && TableOk(hash, s') && s'.reg == s.reg && s'.heap[s.reg] == s.heap[s.reg][k := Slot(p, 1)]
      && s' == s.(heap := s'.heap, counts := s.counts[p := 1], held := s.held[p := 1], lock := None, pcs := s.pcs[t := Pc.Idle])
  {
    InsertKeeps(hash, s.heap[s.reg], s.counts, k, Slot(p, 1));
    hide WellFormed, Refines;
  }

  /** The holder of the lock gives it back and is idle. */
  lemma UnlockOk(hash: Hash, s: State, s': State, t: nat)
    requires TableOk(hash, s) && LockOk(s) && GuardOk(s) && GrowerOk(hash, s) && TableOk(hash, s')
    requires t < |s.pcs| && s.lock == Some(t) && !Grows(s.pcs[t]) && s'.pcs == s.pcs[t := Pc.Idle] && s'.lock.None?
    requires s'.growing == s.growing && s'.rdrs == s.rdrs && s'.effCap == s.effCap && s'.reg == s.reg
    requires |s'.heap[s.reg]| == |s.heap[s.reg]|
    ensures LockOk(s') && GuardOk(s') && GrowerOk(hash, s')
  {
    assert !Counted(s.pcs[t]);
    ReadersUpdate(s.pcs, t, Pc.Idle);
  }

  lemma PublishReaders(hash: Hash, s: State, s': State, t: nat, p: nat, k: nat)
    requires TableOk(hash, s) && TableOk(hash, s') && ReadersOk(hash, s) && TokensOk(s) && t < |s.pcs|
    requires s'.reg == s.reg && k < |s.heap[s.reg]| && s.heap[s.reg][k].p <= TOMB
    requires s'.heap[s.reg] == s.heap[s.reg][k := Slot(p, 1)] && s'.literals == s.literals
    requires s'.pcs == s.pcs[t := Pc.Idle] && p !in s.counts && p !in s.literals
    ensures ReadersOk(hash, s')
  {
    forall u | 0 <= u < |s'.pcs|
      ensures ReaderOk(hash, s', s'.pcs[u]) && PointerOk(s', s'.pcs[u])
    {
      if u != t {
        assert ReaderOk(hash, s, s.pcs[u]) && PointerOk(s, s.pcs[u]);
        if s.pcs[u].Probe? && s.pcs[u].p == p { CarriedIsRegistered(s, u, p); }
        PublishReader(hash, s, s', s.pcs[u], p, k);
      }
    }
  }

  lemma PublishReader(hash: Hash, s: State, s': State, pc: Pc, p: nat, k: nat)
    requires TableOk(hash, s) && TableOk(hash, s') && ReaderOk(hash, s, pc) && PointerOk(s, pc)
    requires s'.reg == s.reg && k < |s.heap[s.reg]| && s.heap[s.reg][k].p <= TOMB
    requires s'.heap[s.reg] == s.heap[s.reg][k := Slot(p, 1)] && s'.literals == s.literals
    requires pc.Probe? ==> pc.p != p
    ensures ReaderOk(hash, s', pc) && PointerOk(s', pc)
  {
    hide TableOk;
  }

  lemma PublishTokens(s: State, s': State, t: nat, p: nat)
    requires TokensOk(s) && t < |s.pcs| && s.pcs[t].RegRefs? && s'.pcs == s.pcs[t := Pc.Idle] && s'.literals == s.literals
    requires p !in s.counts && p !in s.literals && s'.counts == s.counts[p := 1] && s'.held == s.held[p := 1]
    ensures TokensOk(s')
  {
    forall q | q !in s.literals
      ensures Count(s'.counts, q) == HeldOf(s', q) + Carried(s'.pcs, q)
    {
      CarriedUpdate(s.pcs, t, Pc.Idle, q);
    }
  }

  lemma PublishLife(s: State, s': State, t: nat, p: nat)
    requires LifeOk(s) && t < |s.pcs| && s.pcs[t].RegRefs? && s.pcs[t].p == p && s.lock == Some(t)
    requires s'.pcs == s.pcs[t := Pc.Idle] && s'.lock.None? && s'.buffers == s.buffers && p in s.buffers
    requires p !in s.counts && s'.counts == s.counts[p := 1]
    ensures LifeOk(s')
  {
    assert forall q :: !Freeing(s, q) && !Freeing(s', q);
    assert Registers(s.pcs[t], p);
    assert BuffersOk(s') && RegistersOk(s');
    forall q | q in s'.counts && s'.counts[q] == 0
      ensures exists u :: 0 <= u < |s'.pcs| && Dying(s'.pcs[u], q)
    {
      var u :| 0 <= u < |s.pcs| && Dying(s.pcs[u], q);
      assert Dying(s'.pcs[u], q);
    }
  }

  // -------------------------------------------------------- under the lock: retiring

  /** The buffer is given back to the allocator. */
  lemma RetireFreeStep(hash: Hash, s: State, t: nat)
    requires Inv(hash, s) && t < |s.pcs| && s.pcs[t].RetireFree?
    ensures Inv(hash, LateGo(s, t))
  {
    var s' := LateGo(s, t);
    var pc, pc' := s.pcs[t], s'.pcs[t];
    assert PointerOk(s, pc) && HoldsLock(pc) && s.lock == Some(t);
    RetireFreeLife(s, s', t);
    assert GrowerOk(hash, s') && TableOk(hash, s') by { LockFrame(s, s', t, pc'); hide WellFormed, Refines; }
    hide TableOk, LockOk, GuardOk, GrowerOk, ReadersOk, TokensOk, LifeOk;
    LockFrame(s, s', t, pc');
    GuardFrame(s, s', t, pc');
    ReadersFrame(hash, s, s', t, pc');
    SameTokens(s, s', t, pc');
  }

  lemma RetireFreeLife(s: State, s': State, t: nat)
    requires LifeOk(s) && t < |s.pcs| && s.pcs[t].RetireFree? && s.lock == Some(t) && s' == LateGo(s, t)
    ensures LifeOk(s')
  {
    DyingFrame(s, s', t, s'.pcs[t]);
    var p := s.pcs[t].p;
    assert Dying(s.pcs[t], p) && p in s.counts;
    hide DyingOk;
    assert forall q :: !Freeing(s, q) && (Freeing(s', q) <==> q == p);
  }

  /** The entry becomes a tombstone: the lookup finds it, whatever rehash came between. */
  lemma RetireTombStep(hash: Hash, s: State, t: nat)
    requires Inv(hash, s) && t < |s.pcs| && s.pcs[t].RetireTomb?
    ensures Inv(hash, LateGo(s, t))
  {
    var p := s.pcs[t].p;
    var s' := LateGo(s, t);
    RetireReady(hash, s, t);
    RetireTable(hash, s, t, p);
    hide TableOk, LockOk, GuardOk, GrowerOk, ReadersOk, TokensOk, LifeOk, LateGo;
    var k := LockedSlot(s, p);
    UnlockOk(hash, s, s', t);
    RetireReaders(hash, s, s', t, p, k);
    RetireTokens(s, s', t, p);
    RetireLife(s, s', t, p);
  }

  lemma RetireReady(hash: Hash, s: State, t: nat)
    requires Inv(hash, s) && t < |s.pcs| && s.pcs[t].RetireTomb?
    ensures s.lock == Some(t) && s.pcs[t].p > TOMB && s.pcs[t].p !in s.literals
    ensures s.pcs[t].p in s.counts && s.counts[s.pcs[t].p] == 0 && s.reg in s.heap && Holds(s.heap[s.reg], s.pcs[t].p)
  {
    assert HoldsLock(s.pcs[t]) && PointerOk(s, s.pcs[t]) && Dying(s.pcs[t], s.pcs[t].p);
  }

  lemma RetireTable(hash: Hash, s: State, t: nat, p: nat)
    requires TableOk(hash, s) && t < |s.pcs| && s.pcs[t] == RetireTomb(p) && p > TOMB && Holds(s.heap[s.reg], p)
    ensures var s' := LateGo(s, t);
      && TableOk(hash, s') && s'.reg == s.reg && s'.heap[s.reg] == s.heap[s.reg][LockedSlot(s, p) := Slot(TOMB, 0)]
      && s' == s.(heap := s'.heap, counts := s.counts - {p}, lock := None, pcs := s.pcs[t := Pc.Idle])
  {
    RetireKeeps(hash, s.heap[s.reg], s.counts, LockedSlot(s, p));
    hide WellFormed, Refines, Holds;
  }

  /** A thread inside the guard holds its pointer's count above zero, so it is not this one. */
  lemma RetireReaders(hash: Hash, s: State, s': State, t: nat, p: nat, k: nat)
    requires TableOk(hash, s) && TableOk(hash, s') && ReadersOk(hash, s) && TokensOk(s) && t < |s.pcs|
    requires s'.reg == s.reg && k < |s.heap[s.reg]| && s.heap[s.reg][k].p == p > TOMB
    requires s'.heap[s.reg] == s.heap[s.reg][k := Slot(TOMB, 0)] && s'.literals == s.literals
    requires s'.pcs == s.pcs[t := Pc.Idle] && p in s.counts && s.counts[p] == 0 && p !in s.literals
    ensures ReadersOk(hash, s')
  {
    forall u | 0 <= u < |s'.pcs|
      ensures ReaderOk(hash, s', s'.pcs[u]) && PointerOk(s', s'.pcs[u])
    {
      if u != t {
        assert ReaderOk(hash, s, s.pcs[u]) && PointerOk(s, s.pcs[u]);
        if (s.pcs[u].Found? || s.pcs[u].Touch?) && s.pcs[u].p == p { CarriedIsRegistered(s, u, p); }
        RetireReader(hash, s, s', s.pcs[u], p, k);
      }
    }
  }

  lemma RetireReader(hash: Hash, s: State, s': State, pc: Pc, p: nat, k: nat)
    requires TableOk(hash, s) && TableOk(hash, s') && ReaderOk(hash, s, pc) && PointerOk(s, pc)
    requires s'.reg == s.reg && k < |s.heap[s.reg]| && s.heap[s.reg][k].p == p
    requires s'.heap[s.reg] == s.heap[s.reg][k := Slot(TOMB, 0)] && s'.literals == s.literals
    requires pc.Found? || pc.Touch? ==> pc.p != p
    ensures ReaderOk(hash, s', pc) && PointerOk(s', pc)
  {
    hide TableOk;
  }

  lemma RetireTokens(s: State, s': State, t: nat, p: nat)
    requires TokensOk(s) && t < |s.pcs| && s.pcs[t].RetireTomb? && s'.pcs == s.pcs[t := Pc.Idle] && s'.literals == s.literals
    requires p in s.counts && s.counts[p] == 0 && s'.counts == s.counts - {p} && s'.held == s.held
    ensures TokensOk(s')
  {
    forall q | q !in s.literals
      ensures Count(s'.counts, q) == HeldOf(s', q) + Carried(s'.pcs, q)
    {
      CarriedUpdate(s.pcs, t, Pc.Idle, q);
    }
  }

  lemma RetireLife(s: State, s': State, t: nat, p: nat)
    requires LifeOk(s) && t < |s.pcs| && s.pcs[t] == RetireTomb(p) && s.lock == Some(t)
    requires s'.pcs == s.pcs[t := Pc.Idle] && s'.lock.None? && s'.buffers == s.buffers && s'.counts == s.counts - {p}
    ensures LifeOk(s')
  {
    assert forall q :: (Freeing(s, q) <==> q == p) && !Freeing(s', q);
    assert BuffersOk(s') && RegistersOk(s');
    assert Dying(s.pcs[t], p);
    forall q | q in s'.counts && s'.counts[q] == 0
      ensures exists u :: 0 <= u < |s'.pcs| && Dying(s'.pcs[u], q)
    {
      var u :| 0 <= u < |s.pcs| && Dying(s.pcs[u], q);
      assert Dying(s'.pcs[u], q);
    }
  }

  // --------------------------------------------------------- allocating and growing

  /** malloc hands out a buffer that nothing registered owns any more. */
  lemma AllocStep(hash: Hash, s: State, t: nat, p: nat)
    requires Inv(hash, s) && Enabled(hash, s, Alloc(t, p))
    ensures Inv(hash, Apply(hash, s, Alloc(t, p)))
  {
    var s' := Apply(hash, s, Alloc(t, p));
    AllocLife(s, s', t, p);
    hide LifeOk, WellFormed, Refines;
    LockFrame(s, s', t, RegWait(p));
    GuardFrame(s, s', t, RegWait(p));
    ReadersFrame(hash, s, s', t, RegWait(p));
    SameTokens(s, s', t, RegWait(p));
    if s.lock.Some? { HolderFrame(hash, s, s', s.pcs[s.lock.value]); }
  }

  lemma AllocLife(s: State, s': State, t: nat, p: nat)
    requires LifeOk(s) && t < |s.pcs| && s.pcs[t].Idle? && p !in s.buffers
    requires s'.pcs == s.pcs[t := RegWait(p)] && s'.buffers == s.buffers + {p} && s'.counts == s.counts && s'.lock == s.lock
    ensures LifeOk(s')
  {
    DyingFrame(s, s', t, RegWait(p));
    hide DyingOk;
    assert forall q :: Freeing(s', q) <==> Freeing(s, q);
  }

  /** `growing` is set under the lock. */
  lemma RehashStep(hash: Hash, s: State, t: nat, newcap: nat)
    requires Inv(hash, s) && Enabled(hash, s, Rehash(t, newcap))
    ensures Inv(hash, Apply(hash, s, Rehash(t, newcap)))
  {
    var s' := Apply(hash, s, Rehash(t, newcap));
    var pc, pc' := s.pcs[t], s'.pcs[t];
    assert PointerOk(s, pc) && HoldsLock(pc) && s.lock == Some(t);
    ReadersUpdate(s.pcs, t, pc');
    assert LockOk(s') && GuardOk(s');
    assert TableOk(hash, s') && GrowerOk(hash, s');
    GrowRole(pc, pc');
    hide TableOk, LockOk, GuardOk, GrowerOk, ReadersOk, TokensOk, LifeOk, SameRole;
    ReadersFrame(hash, s, s', t, pc');
    SameTokens(s, s', t, pc');
    LifeFrame(s, s', t, pc');
  }

  lemma GrowRole(pc: Pc, pc': Pc)
    requires (pc.RegTable? || Grows(pc) || pc.FreeOld?) && (pc'.RegTable? || Grows(pc') || pc'.FreeOld?) && pc'.p == pc.p
    ensures SameRole(pc, pc')
  {
  }

  /** The drained grower publishes the new capacity, then the new table, while nobody looks. */
  lemma PublishTableStep(hash: Hash, s: State, t: nat)
    requires Inv(hash, s) && t < |s.pcs| && (s.pcs[t].PubCap? || s.pcs[t].PubTab?)
    ensures s.reg in s.heap && Inv(hash, GrowerGo(s, t))
  {
    var s' := GrowerGo(s, t);
    var pc, pc' := s.pcs[t], s'.pcs[t];
    assert PointerOk(s, pc) && HoldsLock(pc) && s.lock == Some(t) && HolderOk(hash, s, pc);
    assert TableOk(hash, s') && LockOk(s') && GrowerOk(hash, s') by { hide WellFormed, Refines; }
    GrowRole(pc, pc');
    assert forall u :: 0 <= u < |s.pcs| ==> !InGuard(s.pcs[u]);
    hide TableOk, LockOk, GuardOk, GrowerOk, TokensOk, LifeOk, SameRole, HolderOk;
    OutsideReaders(hash, s, s', t, pc');
    GuardFrame(s, s', t, pc');
    SameTokens(s, s', t, pc');
    LifeFrame(s, s', t, pc');
  }

  /** Threads outside the guard hold no table. */
  lemma OutsideReaders(hash: Hash, s: State, s': State, t: nat, pc': Pc)
    requires TableOk(hash, s) && ReadersOk(hash, s) && TableOk(hash, s') && t < |s.pcs| && s'.pcs == s.pcs[t := pc']
    requires s'.literals == s.literals && forall u :: 0 <= u < |s.pcs| ==> !InGuard(s.pcs[u])
    requires !InGuard(pc') && PointerOk(s, pc')
    ensures ReadersOk(hash, s')
  {
    forall u | 0 <= u < |s'.pcs|
      ensures ReaderOk(hash, s', s'.pcs[u]) && PointerOk(s', s'.pcs[u])
    {
      if u != t { assert PointerOk(s, s.pcs[u]); }
    }
  }

  /** The guard opens again, and then the old table is freed: no reader can have it. */
  lemma ReopenStep(hash: Hash, s: State, t: nat)
    requires Inv(hash, s) && t < |s.pcs| && (s.pcs[t].PubOpen? || s.pcs[t].FreeOld?)
    ensures s.reg in s.heap && Inv(hash, GrowerGo(s, t))
  {
    var s' := GrowerGo(s, t);
    var pc, pc' := s.pcs[t], s'.pcs[t];
    assert PointerOk(s, pc) && HoldsLock(pc) && s.lock == Some(t) && HolderOk(hash, s, pc);
    GrowRole(pc, pc');
    hide TableOk, LockOk, GuardOk, GrowerOk, ReadersOk, TokensOk, LifeOk, SameRole, HolderOk, SamePointers;
    ReopenTable(hash, s, t);
    ReadersKept(hash, s, s', t, pc');
    GuardFrame(s, s', t, pc');
    SameTokens(s, s', t, pc');
    LifeFrame(s, s', t, pc');
  }

  lemma ReopenTable(hash: Hash, s: State, t: nat)
    requires TableOk(hash, s) && LockOk(s) && GrowerOk(hash, s) && t < |s.pcs| && (s.pcs[t].PubOpen? || s.pcs[t].FreeOld?)
    ensures s.reg in s.heap
    ensures TableOk(hash, GrowerGo(s, t)) && SamePointers(hash, s, GrowerGo(s, t))
    ensures LockOk(GrowerGo(s, t)) && GrowerOk(hash, GrowerGo(s, t))
  {
    hide WellFormed, Refines;
    assert HoldsLock(s.pcs[t]) && s.lock == Some(t) && HolderOk(hash, s, s.pcs[t]);
  }

  // ------------------------------------------------------------------------ every run

  lemma InvStep(hash: Hash, s: State, step: Step)
    requires Inv(hash, s) && Enabled(hash, s, step)
    ensures Inv(hash, Apply(hash, s, step))
  {
    match step {
      case Start(t, op, p) => hide Inv; StartStep(hash, s, t, op, p);
      case Alloc(t, p) => hide Inv; AllocStep(hash, s, t, p);
      case Rehash(t, newcap) => hide Inv; RehashStep(hash, s, t, newcap);
      case CopyTo(t, k) => hide Inv; CopyToStep(hash, s, t, k);
      case InsertAt(t, k) => hide Inv; InsertRefsStep(hash, s, t, k);
      case Go(t) => hide Inv; GoKeeps(hash, s, t);
    }
  }

  lemma GoKeeps(hash: Hash, s: State, t: nat)
    requires Inv(hash, s) && t < |s.pcs| && Enabled(hash, s, Go(t))
    ensures Inv(hash, GoStep(hash, s, t))
  {
    hide Inv, LateGo, ReaderGo, GrowerGo;
    var pc := s.pcs[t];
    if BeforeTouch(pc) {
      ReaderSteps(hash, s, t);
    } else if pc.Drain? || pc.Copy? {
      CopySteps(hash, s, t);
    } else if pc.PubCap? || pc.PubTab? {
      PublishTableStep(hash, s, t);
    } else if pc.PubOpen? || pc.FreeOld? {
      ReopenStep(hash, s, t);
    } else {
      LateKeeps(hash, s, t);
    }
  }

  lemma LateKeeps(hash: Hash, s: State, t: nat)
    requires Inv(hash, s) && t < |s.pcs| && Enabled(hash, s, Go(t))
    requires !BeforeTouch(s.pcs[t]) && !Grows(s.pcs[t]) && !s.pcs[t].FreeOld?
    ensures Inv(hash, LateGo(s, t))
  {
    hide Inv;
    match s.pcs[t] {
      case Touch(_, _, _, _) => TouchStep(hash, s, t);
      case Leave(_, _, _) => LeaveStep(hash, s, t);
      case RetireFree(_) => RetireFreeStep(hash, s, t);
      case RetireTomb(_) => RetireTombStep(hash, s, t);
      case RegRefs(_, _) => PublishStep(hash, s, t);
      case _ => AcquireStep(hash, s, t);
    }
  }

  /** Idle threads over an empty table of `cap` slots. */
  function Start0(threads: nat, cap: nat, literals: set<nat>): State
    requires cap > 0
  {
    State(map[0 := seq(cap, _ => Slot(NULL, 0))], 0, cap, false, 0, None, seq(threads, _ => Pc.Idle), 1,
          {}, literals, map[], map[])
  }

  lemma {:induction false} IdleSums(pcs: seq<Pc>, p: nat)
    requires forall t :: 0 <= t < |pcs| ==> pcs[t] == Pc.Idle
    ensures Readers(pcs) == 0 && Carried(pcs, p) == 0
  {
    if pcs != [] { IdleSums(pcs[1..], p); }
  }

  lemma StartInv(hash: Hash, threads: nat, cap: nat, literals: set<nat>)
    requires cap > 0
    ensures Inv(hash, Start0(threads, cap, literals))
  {
    var s := Start0(threads, cap, literals);
    EmptyTable(hash, s.heap[0]);
    IdleSums(s.pcs, 0);
    forall p { IdleSums(s.pcs, p); }
  }

  ghost predicate Next(hash: Hash, s: State, s': State) {
    exists step :: Enabled(hash, s, step) && s' == Apply(hash, s, step)
  }

  ghost predicate Run(hash: Hash, states: seq<State>) {
    && |states| > 0
    && (exists threads, cap, literals :: cap > 0 && states[0] == Start0(threads, cap, literals))
    && forall i :: 0 <= i < |states| - 1 ==> Next(hash, states[i], states[i + 1])
  }

  ghost predicate Reachable(hash: Hash, s: State) {
    exists states :: Run(hash, states) && states[|states| - 1] == s
  }

  /** Every reachable state satisfies the invariant. */
  lemma ReachableInv(hash: Hash, s: State)
    requires Reachable(hash, s)
    ensures Inv(hash, s)
  {
    var states :| Run(hash, states) && states[|states| - 1] == s;
    hide Inv, Next, Start0;
    var threads, cap, literals :| cap > 0 && states[0] == Start0(threads, cap, literals);
    StartInv(hash, threads, cap, literals);
    var k := 0;
    while k < |states| - 1
      invariant 0 <= k < |states| && Inv(hash, states[k])
    {
      NextInv(hash, states[k], states[k + 1]);
      k := k + 1;
    }
  }

  lemma NextInv(hash: Hash, s: State, s': State)
    requires Inv(hash, s) && Next(hash, s, s')
    ensures Inv(hash, s')
  {
    hide Inv;
    var step :| Enabled(hash, s, step) && s' == Apply(hash, s, step);
    InvStep(hash, s, step);
  }

  // -------------------------------------------------------------------- what it means

  /** A thread inside the guard that has loaded a table has the published one, which is not freed. */
  lemma NoFreedTable(hash: Hash, s: State, t: nat)
    requires Reachable(hash, s) && t < |s.pcs|
    requires s.pcs[t].Probe? || s.pcs[t].Found? || s.pcs[t].Touch?
    ensures s.pcs[t].tab == s.reg && s.reg in s.heap
    ensures s.pcs[t].Probe? ==> s.pcs[t].cap == |s.heap[s.reg]|
    ensures s.pcs[t].Found? || s.pcs[t].Touch? ==>
      s.pcs[t].k < |s.heap[s.reg]| && s.heap[s.reg][s.pcs[t].k].p == s.pcs[t].p
  {
    ReachableInv(hash, s);
    assert ReaderOk(hash, s, s.pcs[t]);
  }

  /**
   No retain or release is lost: the published table always holds exactly the counts that
   the completed calls add up to, across any rehash, and only a literal is ever missed.
   */
  lemma NothingIsLost(hash: Hash, s: State)
    requires Reachable(hash, s)
    ensures s.reg in s.heap && WellFormed(hash, s.heap[s.reg]) && Refines(s.heap[s.reg], s.counts)
    ensures forall p :: p !in s.literals ==> Count(s.counts, p) == HeldOf(s, p) + Carried(s.pcs, p)
    ensures forall t :: 0 <= t < |s.pcs| && s.pcs[t].Missed? ==> s.pcs[t].p in s.literals
  {
    ReachableInv(hash, s);
    forall t | 0 <= t < |s.pcs| && s.pcs[t].Missed?
      ensures s.pcs[t].p in s.literals
    {
      assert ReaderOk(hash, s, s.pcs[t]);
    }
  }

  /** A string that anyone holds, or that a call is working on, has not been freed. */
  lemma HeldIsNotFreed(hash: Hash, s: State, p: nat)
    requires Reachable(hash, s) && p !in s.literals
    requires HeldOf(s, p) > 0 || exists t :: 0 <= t < |s.pcs| && Carries(s.pcs[t], p) > 0
    ensures p in s.buffers && p in s.counts
  {
    ReachableInv(hash, s);
    if HeldOf(s, p) == 0 {
      var t :| 0 <= t < |s.pcs| && Carries(s.pcs[t], p) > 0;
      CarriedAtLeast(s.pcs, t, p);
    }
    if Freeing(s, p) { FreeingIsUncounted(s, p); }
  }

  lemma FreeingIsUncounted(s: State, p: nat)
    requires DyingOk(s) && Freeing(s, p)
    ensures Count(s.counts, p) == 0
  {
    assert Dying(s.pcs[s.lock.value], p);
  }

  /**
   A release that took the last reference finds its own entry, with count zero, whenever it
   gets the lock: a rehash in between moves the entry but does not lose it. No other thread
   retires it, and every entry with count zero has such a thread.
   */
  lemma LastReleaseRetires(hash: Hash, s: State, t: nat)
    requires Reachable(hash, s) && t < |s.pcs|
    requires s.pcs[t].WantLock? || s.pcs[t].RetireFree? || s.pcs[t].RetireTomb?
    ensures s.reg in s.heap && Holds(s.heap[s.reg], s.pcs[t].p)
    ensures s.pcs[t].p in s.counts && s.counts[s.pcs[t].p] == 0
    ensures forall u :: 0 <= u < |s.pcs| && u != t ==> !Dying(s.pcs[u], s.pcs[t].p)
    ensures forall p :: p in s.counts && s.counts[p] == 0 ==> exists u :: 0 <= u < |s.pcs| && Dying(s.pcs[u], p)
  {
    ReachableInv(hash, s);
    assert Dying(s.pcs[t], s.pcs[t].p);
  }
}
