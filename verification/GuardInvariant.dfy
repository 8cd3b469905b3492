/** The growth protocol is safe: what every interleaving of the registry's steps keeps. */
module GuardInvariant {
  import opened Seqs
  import opened ProbeTable
  import opened GuardProtocol

  // -------------------------------------------------------------------- sums over threads

  function Readers(pcs: seq<Pc>): nat {
    if pcs == [] then 0 else (if Counted(pcs[0]) then 1 else 0) + Readers(pcs[1..])
  }

  function Carried(pcs: seq<Pc>, p: nat): nat {
    if pcs == [] then 0 else Carries(pcs[0], p) + Carried(pcs[1..], p)
  }

  lemma {:induction false} ReadersUpdate(pcs: seq<Pc>, t: nat, pc: Pc)
    requires t < |pcs|
    ensures Readers(pcs[t := pc]) == Readers(pcs) - (if Counted(pcs[t]) then 1 else 0) + (if Counted(pc) then 1 else 0)
  {
    if t == 0 {
      assert pcs[0 := pc][1..] == pcs[1..];
    } else {
      ReadersUpdate(pcs[1..], t - 1, pc);
      assert pcs[t := pc][1..] == pcs[1..][t - 1 := pc];
    }
  }

  lemma {:induction false} CarriedUpdate(pcs: seq<Pc>, t: nat, pc: Pc, p: nat)
    requires t < |pcs|
    ensures Carried(pcs[t := pc], p) == Carried(pcs, p) - Carries(pcs[t], p) + Carries(pc, p)
  {
    if t == 0 {
      assert pcs[0 := pc][1..] == pcs[1..];
    } else {
      CarriedUpdate(pcs[1..], t - 1, pc, p);
      assert pcs[t := pc][1..] == pcs[1..][t - 1 := pc];
    }
  }

  lemma {:induction false} CarriedAtLeast(pcs: seq<Pc>, t: nat, p: nat)
    requires t < |pcs|
    ensures Carried(pcs, p) >= Carries(pcs[t], p)
  {
    if t > 0 { CarriedAtLeast(pcs[1..], t - 1, p); }
  }

  lemma {:induction false} NoReaders(pcs: seq<Pc>)
    requires Readers(pcs) == 0
    ensures forall t :: 0 <= t < |pcs| ==> !Counted(pcs[t])
  {
    if pcs != [] {
      NoReaders(pcs[1..]);
      assert forall t :: 0 < t < |pcs| ==> pcs[t] == pcs[1..][t - 1];
    }
  }

  // ---------------------------------------------------------------------- the invariant

  /** The published table is well formed and means the counts. */
  ghost predicate TableOk(hash: Hash, s: State) {
    && s.reg in s.heap && s.reg < s.next && (forall x :: x in s.heap ==> x < s.next)
    && WellFormed(hash, s.heap[s.reg]) && Refines(s.heap[s.reg], s.counts)
  }

  /** The lock has one holder, and `growing` is the holder's. */
  ghost predicate LockOk(s: State) {
    && (forall t :: 0 <= t < |s.pcs| ==> (HoldsLock(s.pcs[t]) <==> s.lock == Some(t)))
    && (s.lock.Some? ==> s.lock.value < |s.pcs|)
    && (s.growing <==> s.lock.Some? && Grows(s.pcs[s.lock.value]))
  }

  /** Once the drain is over nobody is inside the guard. */
  ghost predicate GuardOk(s: State)
    requires LockOk(s)
  {
    && s.rdrs == Readers(s.pcs)
    && (s.lock.Some? && Swaps(s.pcs[s.lock.value]) ==> forall t :: 0 <= t < |s.pcs| ==> !InGuard(s.pcs[t]))
  }

  /** What the holder of the lock has prepared. */
  ghost predicate GrowerOk(hash: Hash, s: State)
    requires TableOk(hash, s) && LockOk(s)
  {
    && (s.effCap == |s.heap[s.reg]| || (s.lock.Some? && s.pcs[s.lock.value].PubTab?))
    && (s.lock.Some? ==> HolderOk(hash, s, s.pcs[s.lock.value]))
  }

  ghost predicate HolderOk(hash: Hash, s: State, pc: Pc)
    requires TableOk(hash, s)
  {
    match pc
    case RegRefs(p, k) =>
      && k < |s.heap[s.reg]| && s.heap[s.reg][k].p <= TOMB && s.heap[s.reg][k].refs == 1
      && forall j :: 0 <= j < |s.heap[s.reg]| && Before(Home(hash, p, |s.heap[s.reg]|), j, k, |s.heap[s.reg]|) ==>
           s.heap[s.reg][j].p != NULL
    case Drain(_, newcap) => newcap >= |s.heap[s.reg]|
    case Copy(_, i, nw, m) =>
      && i <= |s.heap[s.reg]| && WellFormed(hash, nw) && Refines(nw, m) && Copied(s.heap[s.reg], i, m)
    case PubCap(_, nw) => WellFormed(hash, nw) && Refines(nw, s.counts)
    case PubTab(_, nw) => WellFormed(hash, nw) && Refines(nw, s.counts) && s.effCap == |nw|
    case PubOpen(_, old_) => old_ != s.reg
    case FreeOld(_, old_) => old_ != s.reg
    case _ => true
  }

  /** A thread inside the guard works on the published table and has not passed its pointer. */
  ghost predicate ReaderOk(hash: Hash, s: State, pc: Pc)
    requires TableOk(hash, s)
  {
    match pc
    case LoadTab(_, _, cap) => cap == |s.heap[s.reg]|
    case Probe(_, p, cap, tab, i) =>
      && tab == s.reg && cap == |s.heap[s.reg]| && i <= cap
      && forall j :: 0 <= j < cap && Distance(Home(hash, p, cap), j, cap) < i ==> s.heap[s.reg][j].p != p
    case Found(_, p, tab, k) => tab == s.reg && k < |s.heap[s.reg]| && s.heap[s.reg][k].p == p
    case Touch(_, p, tab, k) => tab == s.reg && k < |s.heap[s.reg]| && s.heap[s.reg][k].p == p
    case Missed(_, p) => p in s.literals
    case _ => true
  }

  ghost predicate ReadersOk(hash: Hash, s: State)
    requires TableOk(hash, s)
  {
    forall t {:trigger s.pcs[t]} :: 0 <= t < |s.pcs| ==> ReaderOk(hash, s, s.pcs[t]) && PointerOk(s, s.pcs[t])
  }

  /** Calls are made on real pointers; only literals are called on without a reference. */
  ghost predicate PointerOk(s: State, pc: Pc) {
    && (!pc.Idle? ==> pc.p > TOMB)
    && (pc.Leave? || pc.Touch? || pc.WantLock? || HoldsLock(pc) || pc.RegWait? ==> pc.p !in s.literals)
  }

  /** Every count is the number of references held or carried by a call in progress. */
  ghost predicate TokensOk(s: State) {
    && (forall p :: p !in s.literals ==> Count(s.counts, p) == HeldOf(s, p) + Carried(s.pcs, p))
    && (forall p :: p in s.literals ==> p !in s.counts)
  }

  /** A zero count is on its way out in exactly one thread. */
  ghost predicate DyingOk(s: State) {
    && (forall t, p :: 0 <= t < |s.pcs| && Dying(s.pcs[t], p) ==> p in s.counts && s.counts[p] == 0)
    && (forall t, u, p :: 0 <= t < u < |s.pcs| && Dying(s.pcs[t], p) ==> !Dying(s.pcs[u], p))
    && (forall p :: p in s.counts && s.counts[p] == 0 ==> exists t :: 0 <= t < |s.pcs| && Dying(s.pcs[t], p))
  }

  /** The lock holder has freed the buffer `p` and is about to put the tombstone. */
  ghost predicate Freeing(s: State, p: nat) {
    s.lock.Some? && s.lock.value < |s.pcs| && s.pcs[s.lock.value] == RetireTomb(p)
  }

  /** A registered pointer is an allocated buffer until its entry is being retired. */
  ghost predicate BuffersOk(s: State) {
    forall p :: p in s.counts ==> p in s.buffers || Freeing(s, p)
  }

  /** A pointer on its way in is allocated, in one thread's hands, and not in the table. */
  ghost predicate RegistersOk(s: State) {
    && (forall t, p :: 0 <= t < |s.pcs| && Registers(s.pcs[t], p) ==>
          p in s.buffers && (p in s.counts ==> Freeing(s, p)))
    && (forall t, u, p :: 0 <= t < u < |s.pcs| && Registers(s.pcs[t], p) ==> !Registers(s.pcs[u], p))
  }

  ghost predicate LifeOk(s: State) {
    DyingOk(s) && BuffersOk(s) && RegistersOk(s)
  }

  ghost predicate Inv(hash: Hash, s: State) {
    && TableOk(hash, s) && LockOk(s) && GuardOk(s) && GrowerOk(hash, s)
    && ReadersOk(hash, s) && TokensOk(s) && LifeOk(s)
  }

  // --------------------------------------------------------------- moves of one thread

  /** `pc'` plays the same part as `pc` in the life of every pointer. */
  ghost predicate SameRole(pc: Pc, pc': Pc) {
    && (forall p :: Dying(pc', p) <==> Dying(pc, p))
    && (forall p :: Registers(pc', p) <==> Registers(pc, p))
    && HoldsLock(pc') == HoldsLock(pc) && pc'.RetireTomb? == pc.RetireTomb?
    && (pc.RetireTomb? ==> pc' == pc)
  }

  lemma LifeFrame(s: State, s': State, t: nat, pc': Pc)
    requires t < |s.pcs| && s'.pcs == s.pcs[t := pc'] && SameRole(s.pcs[t], pc') && LifeOk(s)
    requires s'.counts == s.counts && s'.buffers == s.buffers && s'.lock == s.lock
    ensures LifeOk(s')
  {
    DyingFrame(s, s', t, pc');
    hide DyingOk;
    assert forall p :: Freeing(s', p) <==> Freeing(s, p);
  }

  lemma DyingFrame(s: State, s': State, t: nat, pc': Pc)
    requires t < |s.pcs| && s'.pcs == s.pcs[t := pc'] && DyingOk(s) && s'.counts == s.counts
    requires forall p :: Dying(pc', p) <==> Dying(s.pcs[t], p)
    ensures DyingOk(s')
  {
    forall p | p in s'.counts && s'.counts[p] == 0
      ensures exists u :: 0 <= u < |s'.pcs| && Dying(s'.pcs[u], p)
    {
      var u :| 0 <= u < |s.pcs| && Dying(s.pcs[u], p);
      assert Dying(s'.pcs[u], p);
    }
  }

  lemma LockFrame(s: State, s': State, t: nat, pc': Pc)
    requires LockOk(s) && t < |s.pcs| && s'.pcs == s.pcs[t := pc'] && s'.lock == s.lock && s'.growing == s.growing
    requires HoldsLock(pc') == HoldsLock(s.pcs[t]) && Grows(pc') == Grows(s.pcs[t])
    ensures LockOk(s')
  {
  }

  lemma GuardFrame(s: State, s': State, t: nat, pc': Pc)
    requires LockOk(s) && LockOk(s') && GuardOk(s) && t < |s.pcs| && s'.pcs == s.pcs[t := pc'] && s'.lock == s.lock
    requires s'.rdrs == s.rdrs - (if Counted(s.pcs[t]) then 1 else 0) + (if Counted(pc') then 1 else 0)
    requires Swaps(pc') ==> Swaps(s.pcs[t]) || s.rdrs == 0
    requires InGuard(pc') ==> InGuard(s.pcs[t]) || !s.growing
    ensures GuardOk(s')
  {
    ReadersUpdate(s.pcs, t, pc');
    if Swaps(pc') && !Swaps(s.pcs[t]) { NoReaders(s.pcs); }
  }

  lemma GrowerFrame(hash: Hash, s: State, s': State, t: nat, pc': Pc)
    requires TableOk(hash, s) && LockOk(s) && LockOk(s') && GrowerOk(hash, s) && t < |s.pcs|
    requires s' == s.(pcs := s.pcs[t := pc'], rdrs := s'.rdrs, held := s'.held)
    requires s.pcs[t].PubTab? == pc'.PubTab? && (HoldsLock(pc') ==> HolderOk(hash, s, pc'))
    ensures TableOk(hash, s') && GrowerOk(hash, s')
  {
    if s.lock.Some? { HolderFrame(hash, s, s', s'.pcs[s.lock.value]); }
  }

  /** Neither a reader's nor the holder's part depends on where other threads are. */
  lemma HolderFrame(hash: Hash, s: State, s': State, pc: Pc)
    requires TableOk(hash, s)
    requires s'.heap == s.heap && s'.reg == s.reg && s'.next == s.next && s'.counts == s.counts && s'.effCap == s.effCap
    requires s'.literals == s.literals
    ensures TableOk(hash, s') && (HolderOk(hash, s, pc) ==> HolderOk(hash, s', pc))
    ensures (ReaderOk(hash, s, pc) ==> ReaderOk(hash, s', pc)) && (PointerOk(s, pc) ==> PointerOk(s', pc))
  {
  }

  lemma ReadersFrame(hash: Hash, s: State, s': State, t: nat, pc': Pc)
    requires TableOk(hash, s) && ReadersOk(hash, s) && t < |s.pcs| && s'.pcs == s.pcs[t := pc']
    requires s'.heap == s.heap && s'.reg == s.reg && s'.next == s.next && s'.counts == s.counts && s'.effCap == s.effCap
    requires s'.literals == s.literals && ReaderOk(hash, s, pc') && PointerOk(s, pc')
    ensures TableOk(hash, s') && ReadersOk(hash, s')
  {
    HolderFrame(hash, s, s', pc');
    forall u | 0 <= u < |s'.pcs|
      ensures ReaderOk(hash, s', s'.pcs[u]) && PointerOk(s', s'.pcs[u])
    {
      HolderFrame(hash, s, s', s'.pcs[u]);
    }
  }

  /** Only the thread's own place, the reader count and the held references change. */
  lemma ThreadMoves(hash: Hash, s: State, s': State, t: nat, pc': Pc)
    requires Inv(hash, s) && t < |s.pcs|
    requires s' == s.(pcs := s.pcs[t := pc'], rdrs := s'.rdrs, held := s'.held)
    requires s'.rdrs == s.rdrs - (if Counted(s.pcs[t]) then 1 else 0) + (if Counted(pc') then 1 else 0)
    requires SameRole(s.pcs[t], pc') && Grows(pc') == Grows(s.pcs[t])
    requires Swaps(pc') ==> Swaps(s.pcs[t]) || s.rdrs == 0
    requires InGuard(pc') ==> InGuard(s.pcs[t]) || !s.growing
    requires ReaderOk(hash, s, pc') && PointerOk(s, pc')
    requires s.pcs[t].PubTab? == pc'.PubTab? && (HoldsLock(pc') ==> HolderOk(hash, s, pc'))
    requires TokensOk(s')
    ensures Inv(hash, s')
  {
    hide LockOk, GuardOk, GrowerOk, ReadersOk, TokensOk, LifeOk, SameRole, ReaderOk, PointerOk, HolderOk;
    assert HoldsLock(pc') == HoldsLock(s.pcs[t]) by { SameRoleLock(s.pcs[t], pc'); }
    LockFrame(s, s', t, pc');
    GuardFrame(s, s', t, pc');
    GrowerFrame(hash, s, s', t, pc');
    ReadersFrame(hash, s, s', t, pc');
    LifeFrame(s, s', t, pc');
  }

  lemma SameRoleLock(pc: Pc, pc': Pc)
    requires SameRole(pc, pc')
    ensures HoldsLock(pc') == HoldsLock(pc)
  {
  }

  /** A move that neither takes nor gives references keeps the token balance. */
  lemma SameTokens(s: State, s': State, t: nat, pc': Pc)
    requires TokensOk(s) && t < |s.pcs| && s'.pcs == s.pcs[t := pc']
    requires s'.counts == s.counts && s'.literals == s.literals && s'.held == s.held
    requires forall p :: p !in s.literals ==> Carries(pc', p) == Carries(s.pcs[t], p)
    ensures TokensOk(s')
  {
    forall p | p !in s.literals
      ensures Count(s'.counts, p) == HeldOf(s', p) + Carried(s'.pcs, p)
    {
      CarriedUpdate(s.pcs, t, pc', p);
    }
  }
}
