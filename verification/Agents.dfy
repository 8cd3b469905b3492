/** Generational agent handles over a fixed table whose slots are reused. */
module Agents {

  const CAP: nat := 64
  const SHIFT: nat := 0x10_0000                      // the slot takes the low 20 bits
  const WORD: nat := 0x1_0000_0000_0000_0000         // a 64-bit word
  const HALF: nat := 0x8000_0000_0000_0000
  const GENERATIONS: nat := 0x800_0000_0000          // generations a positive handle can carry: 2^43

  /** A slot: its flag, its generation and the tag word that readers look at. */
  datatype Slot = Slot(used: bool, gen: nat, tag: nat)

  /** The tag word: the generation shifted up by one, in 64 bits, and the used bit. */
  function Tag(gen: nat, used: bool): nat { (2 * gen) % WORD + if used then 1 else 0 }

  function ToSigned(x: nat): int { if x < HALF then x else x - WORD }

  /** The handle of a slot's generation, as a signed 64-bit word. */
  function Handle(idx: nat, gen: nat): int { ToSigned((gen * SHIFT) % WORD + (idx + 1)) }

  /** The live slot a handle names, or -1. */
  function Resolve(slots: seq<Slot>, h: int): (r: int)
    ensures -1 <= r < |slots|
  {
    if h <= 0 then -1
    else
      var idx := h % SHIFT - 1;
      if idx < 0 || idx >= |slots| then -1
      else if slots[idx].tag % 2 == 1 && slots[idx].tag / 2 == h / SHIFT then idx
      else -1
  }

  lemma HandleWord(idx: nat, gen: nat)
    ensures Handle(idx, gen) == ToSigned(gen % (2 * GENERATIONS) * SHIFT + (idx + 1))
  {
    var q, r := gen / (2 * GENERATIONS), gen % (2 * GENERATIONS);
    assert gen * SHIFT == q * WORD + r * SHIFT;
    assert (q * WORD + r * SHIFT) % WORD == r * SHIFT;
  }

  lemma TagParts(gen: nat, used: bool)
    ensures Tag(gen, used) / 2 == gen % HALF && (Tag(gen, used) % 2 == 1 <==> used)
  {
    var q, r := gen / HALF, gen % HALF;
    assert 2 * gen == q * WORD + 2 * r;
    assert (q * WORD + 2 * r) % WORD == 2 * r;
  }

  /** The handle's sign and parts for every generation: only the generation modulo 2^44 is in it. */
  lemma HandleParts(idx: nat, gen: nat)
    requires idx < CAP
    ensures Handle(idx, gen) > 0 <==> gen % (2 * GENERATIONS) < GENERATIONS
    ensures Handle(idx, gen) > 0 ==>
      Handle(idx, gen) % SHIFT == idx + 1 && Handle(idx, gen) / SHIFT == gen % (2 * GENERATIONS)
    ensures Handle(idx, gen) != 0
  {
    HandleWord(idx, gen);
    hide Handle;
    var g := gen % (2 * GENERATIONS);
    if g < GENERATIONS {
      assert g * SHIFT + idx + 1 < HALF;
    } else {
      assert g * SHIFT >= HALF && g * SHIFT + idx + 1 < WORD;
    }
  }

  /** Two occupancies have the same handle if and only if they are 2^44 generations of one slot apart. */
  lemma HandlesCollideExactly(idx: nat, gen: nat, idx': nat, gen': nat)
    requires idx < CAP && idx' < CAP
    ensures Handle(idx, gen) == Handle(idx', gen') <==>
      idx == idx' && gen % (2 * GENERATIONS) == gen' % (2 * GENERATIONS)
  {
    HandleWord(idx, gen);
    HandleWord(idx', gen');
    hide Handle;
    var g, g' := gen % (2 * GENERATIONS), gen' % (2 * GENERATIONS);
    assert g * SHIFT + idx + 1 < WORD && g' * SHIFT + idx' + 1 < WORD;
    if Handle(idx, gen) == Handle(idx', gen') {
      assert g * SHIFT + idx + 1 == g' * SHIFT + idx' + 1;
    }
  }

  /**
   The handle of a slot's present occupancy resolves to the slot if and only if the
   generation, as the tag keeps it, is below 2^43; otherwise it resolves to nothing.
   */
  lemma GenerationLimit(slots: seq<Slot>, idx: nat, gen: nat)
    requires idx < |slots| <= CAP && slots[idx].tag == Tag(gen, true)
    ensures Resolve(slots, Handle(idx, gen)) == if gen % HALF < GENERATIONS then idx else -1
  {
    HandleParts(idx, gen);
    TagParts(gen, true);
    NestedRemainder(gen);
    hide Handle, Tag;
  }

  lemma NestedRemainder(gen: nat)
    ensures (gen % HALF) % (2 * GENERATIONS) == gen % (2 * GENERATIONS)
  {
    var q, r := gen / HALF, gen % HALF;
    var p, m := r / (2 * GENERATIONS), r % (2 * GENERATIONS);
    assert gen == (q * 0x8_0000 + p) * (2 * GENERATIONS) + m;
  }

  /** Below the limit slot and generation can be read off both words. */
  lemma FittingParts(idx: nat, gen: nat)
    requires idx < CAP && gen < GENERATIONS
    ensures Handle(idx, gen) == gen * SHIFT + idx + 1 > 0
    ensures Handle(idx, gen) % SHIFT == idx + 1 && Handle(idx, gen) / SHIFT == gen
    ensures Tag(gen, false) == 2 * gen && Tag(gen, true) == 2 * gen + 1
  {
    assert gen * SHIFT < HALF;
    assert gen * SHIFT + idx + 1 < HALF;
  }

  // --------------------------------------------------------------------------- runs

  /** A handle that was returned, and the occupancy it stands for. */
  datatype Issue = Issue(idx: nat, gen: nat, freed: bool)

  datatype Table = Table(slots: seq<Slot>, issues: seq<Issue>)

  datatype Step =
    | Spawn(idx: nat)
    | SpawnFails(idx: nat)           // the thread could not be created: the tag keeps its used bit
    | Free(h: int)

  function FirstFree(slots: seq<Slot>): (i: nat)
    ensures i <= |slots| && (i < |slots| ==> !slots[i].used)
    ensures forall j :: 0 <= j < i ==> slots[j].used
  {
    if slots == [] || !slots[0].used then 0 else
      var i := FirstFree(slots[1..]);
      assert forall j :: 0 < j < i + 1 ==> slots[j] == slots[1..][j - 1];
      i + 1
  }

  predicate Enabled(t: Table, step: Step) {
    match step
    case Spawn(idx) => idx == FirstFree(t.slots) < |t.slots|
    case SpawnFails(idx) => idx == FirstFree(t.slots) < |t.slots|
    case Free(h) => Resolve(t.slots, h) >= 0
  }

  function Occupied(s: Slot): Slot { Slot(true, s.gen + 1, Tag(s.gen + 1, true)) }

  function Vacated(s: Slot): Slot { Slot(false, s.gen, Tag(s.gen, false)) }

  function MarkFreed(issues: seq<Issue>, h: int): (r: seq<Issue>)
    ensures |r| == |issues|
    ensures forall i :: 0 <= i < |r| ==>
      r[i] == issues[i].(freed := issues[i].freed || Handle(issues[i].idx, issues[i].gen) == h)
  {
    seq(|issues|, (i: nat) requires i < |issues| =>
      issues[i].(freed := issues[i].freed || Handle(issues[i].idx, issues[i].gen) == h))
  }

  function Apply(t: Table, step: Step): Table
    requires Enabled(t, step)
  {
    match step
    case Spawn(idx) =>
      Table(t.slots[idx := Occupied(t.slots[idx])], t.issues + [Issue(idx, t.slots[idx].gen + 1, false)])
    case SpawnFails(idx) => t.(slots := t.slots[idx := Occupied(t.slots[idx]).(used := false)])
    case Free(h) =>
      var idx := Resolve(t.slots, h);
      Table(t.slots[idx := Vacated(t.slots[idx])], MarkFreed(t.issues, h))
  }

  /** No slot has used up the generations a handle can carry. */
  predicate Fits(t: Table) { forall i :: 0 <= i < |t.slots| ==> t.slots[i].gen < GENERATIONS }

  predicate SlotOk(s: Slot) { s.tag == Tag(s.gen, s.tag % 2 == 1) && (s.used ==> s.tag % 2 == 1) }

  /** A live issue is its slot's present occupancy; a freed one is a past one, or its slot is empty. */
  predicate IssueOk(t: Table, n: nat)
    requires n < |t.issues|
  {
    var e := t.issues[n];
    && e.idx < |t.slots| && 1 <= e.gen <= t.slots[e.idx].gen
    && (!e.freed ==> t.slots[e.idx].used && t.slots[e.idx].gen == e.gen)
    && (e.freed && t.slots[e.idx].gen == e.gen ==> t.slots[e.idx].tag % 2 == 0)
  }

  ghost predicate Inv(t: Table) {
    && |t.slots| <= CAP
    && (forall i :: 0 <= i < |t.slots| ==> SlotOk(t.slots[i]))
    && (forall n {:trigger IssueOk(t, n)} :: 0 <= n < |t.issues| ==> IssueOk(t, n))
    && (forall m, n :: 0 <= m < n < |t.issues| ==> t.issues[m].idx != t.issues[n].idx || t.issues[m].gen != t.issues[n].gen)
  }

  /** A handle resolves exactly when it is the one its slot's generation and bit spell. */
  lemma ResolvesExactly(t: Table, n: nat)
    requires Inv(t) && Fits(t) && n < |t.issues|
    ensures Resolve(t.slots, Handle(t.issues[n].idx, t.issues[n].gen)) == if t.issues[n].freed then -1 else t.issues[n].idx
  {
    assert IssueOk(t, n);
    FittingParts(t.issues[n].idx, t.issues[n].gen);
    FittingParts(t.issues[n].idx, t.slots[t.issues[n].idx].gen);
    hide Handle, Tag;
  }

  lemma StepKeeps(t: Table, step: Step)
    requires Inv(t) && Fits(t) && Enabled(t, step)
    ensures Inv(Apply(t, step))
  {
    if step.Free? { FreeKeeps(t, step.h); } else { OccupyKeeps(t, step); }
  }

  lemma FreeKeeps(t: Table, h: int)
    requires Inv(t) && Fits(t) && Enabled(t, Free(h))
    ensures Inv(Apply(t, Free(h)))
  {
    var t' := Apply(t, Free(h));
    var idx := Resolve(t.slots, h);
    assert t'.slots == t.slots[idx := Vacated(t.slots[idx])];
    TagParts(t.slots[idx].gen, false);
    forall n | 0 <= n < |t'.issues| ensures IssueOk(t', n) {
      assert IssueOk(t, n);
      FreedMatches(t, h, n);
      hide Handle, Resolve, Tag;
    }
    hide Handle, Resolve, Tag;
  }

  lemma OccupyKeeps(t: Table, step: Step)
    requires Inv(t) && Fits(t) && Enabled(t, step) && !step.Free?
    ensures Inv(Apply(t, step))
  {
    hide Handle, Resolve;
    var t' := Apply(t, step);
    TagParts(t.slots[step.idx].gen + 1, true);
    hide Tag;
    forall n | 0 <= n < |t'.issues| ensures IssueOk(t', n) {
      assert n < |t.issues| ==> IssueOk(t, n);
    }
    forall n | 0 <= n < |t.issues| ensures t.issues[n].idx != step.idx || t.issues[n].gen != t.slots[step.idx].gen + 1 {
      assert IssueOk(t, n);
    }
  }

  /** Freeing a handle frees the issue that is its slot's present occupancy. */
  lemma FreedMatches(t: Table, h: int, n: nat)
    requires Inv(t) && Fits(t) && Resolve(t.slots, h) >= 0 && n < |t.issues|
    ensures var e := t.issues[n]; var idx := Resolve(t.slots, h);
      Handle(e.idx, e.gen) == h <==> e.idx == idx && e.gen == t.slots[idx].gen
  {
    var e := t.issues[n];
    var idx := Resolve(t.slots, h);
    assert IssueOk(t, n);
    FittingParts(e.idx, e.gen);
    FittingParts(idx, t.slots[idx].gen);
    hide Handle, Tag;
    assert h == h / SHIFT * SHIFT + h % SHIFT;
  }

  /** Every table a run passes through still fits. */
  predicate Run(t: Table, steps: seq<Step>)
    decreases |steps|
  {
    Fits(t) && (steps == [] || (Enabled(t, steps[0]) && Run(Apply(t, steps[0]), steps[1..])))
  }

  function End(t: Table, steps: seq<Step>): Table
    requires Run(t, steps)
    decreases |steps|
  {
    if steps == [] then t else End(Apply(t, steps[0]), steps[1..])
  }

  predicate Initial(t: Table) {
    |t.slots| == CAP && t.issues == [] && forall i :: 0 <= i < CAP ==> t.slots[i] == Slot(false, 0, 0)
  }

  lemma {:induction false} RunKeeps(t: Table, steps: seq<Step>)
    requires Inv(t) && Run(t, steps)
    ensures Inv(End(t, steps)) && Fits(End(t, steps))
    decreases |steps|
  {
    if steps != [] {
      StepKeeps(t, steps[0]);
      RunKeeps(Apply(t, steps[0]), steps[1..]);
    }
  }

  /** Over every run of spawns, failed spawns and frees: the returned handles are positive and pairwise
   distinct, a live one names its own slot, and a freed one never names anything again. */
  lemma HandlesAreSound(start: Table, steps: seq<Step>, m: nat, n: nat)
    requires Initial(start) && Run(start, steps)
    requires m < |End(start, steps).issues| && n < |End(start, steps).issues|
    ensures var t := End(start, steps); var e := t.issues[n];
      && Handle(e.idx, e.gen) > 0
      && (m != n ==> Handle(t.issues[m].idx, t.issues[m].gen) != Handle(e.idx, e.gen))
      && Resolve(t.slots, Handle(e.idx, e.gen)) == (if e.freed then -1 else e.idx)
      && (Enabled(t, Free(Handle(e.idx, e.gen))) <==> !e.freed)
  {
    RunKeeps(start, steps);
    var t := End(start, steps);
    ResolvesExactly(t, n);
    assert IssueOk(t, m) && IssueOk(t, n);
    FittingParts(t.issues[m].idx, t.issues[m].gen);
    FittingParts(t.issues[n].idx, t.issues[n].gen);
  }

  /** A new agent gets the first slot that is not in use, if there is one. */
  lemma SpawnTakesFirstFree(t: Table, idx: nat)
    ensures Enabled(t, Spawn(idx)) <==>
      idx < |t.slots| && !t.slots[idx].used && forall j :: 0 <= j < idx ==> t.slots[j].used
  {
    var i := FirstFree(t.slots);
  }

  // ------------------------------------------------------------------ failed creations

  /** Slot `i` is free, and yet its tag says that it is used. */
  predicate Stale(t: Table, i: nat)
    requires i < |t.slots|
  {
    !t.slots[i].used && t.slots[i].tag % 2 == 1
  }

  predicate Touches(t: Table, step: Step, i: nat)
    requires Enabled(t, step)
  {
    match step
    case Spawn(idx) => idx == i
    case SpawnFails(idx) => idx == i
    case Free(h) => Resolve(t.slots, h) == i
  }

  /** Whether the last step of the run that touches slot `i` is a failed creation; `was` if there is none. */
  predicate LastFailed(t: Table, steps: seq<Step>, i: nat, was: bool)
    requires Run(t, steps)
    decreases |steps|
  {
    if steps == [] then was
    else LastFailed(Apply(t, steps[0]), steps[1..], i, if Touches(t, steps[0], i) then steps[0].SpawnFails? else was)
  }

  lemma StepStale(t: Table, step: Step, i: nat)
    requires Inv(t) && Fits(t) && Enabled(t, step) && i < |t.slots|
    ensures |Apply(t, step).slots| == |t.slots|
    ensures Stale(Apply(t, step), i) <==> if Touches(t, step, i) then step.SpawnFails? else Stale(t, i)
  {
    TagParts(t.slots[i].gen + 1, true);
    TagParts(t.slots[i].gen, false);
    hide Tag;
  }

  lemma {:induction false} RunStale(t: Table, steps: seq<Step>, i: nat)
    requires Inv(t) && Run(t, steps) && i < |t.slots|
    ensures i < |End(t, steps).slots|
    ensures Stale(End(t, steps), i) <==> LastFailed(t, steps, i, Stale(t, i))
    decreases |steps|
  {
    if steps != [] {
      StepKeeps(t, steps[0]);
      StepStale(t, steps[0], i);
      RunStale(Apply(t, steps[0]), steps[1..], i);
    }
  }

  /** Over every run, a free slot has a used tag if and only if the last thing that happened to it is a failed creation. */
  lemma StaleExactly(start: Table, steps: seq<Step>, i: nat)
    requires Initial(start) && Run(start, steps) && i < CAP
    ensures |End(start, steps).slots| == CAP
    ensures Stale(End(start, steps), i) <==> LastFailed(start, steps, i, false)
  {
    RunStale(start, steps, i);
    RunSize(start, steps);
  }

  lemma {:induction false} RunSize(t: Table, steps: seq<Step>)
    requires Run(t, steps)
    ensures |End(t, steps).slots| == |t.slots|
    decreases |steps|
  {
    if steps != [] { RunSize(Apply(t, steps[0]), steps[1..]); }
  }

  // -------------------------------------------------------------------- the table, in place

  class AgentTable {
    var slots: seq<Slot>

    /** Search, occupy and start; 0 when the table is full or the thread could not be created. */
    method SpawnAgent(created: bool) returns (h: int)
      requires |slots| <= CAP
      modifies this
      ensures var idx := FirstFree(old(slots));
        && (h == 0 <==> idx == |old(slots)| || !created)
        && (idx == |old(slots)| ==> slots == old(slots))
        && (idx < |old(slots)| && !created ==> slots == old(slots)[idx := Occupied(old(slots)[idx]).(used := false)])
        && (idx < |old(slots)| && created ==>
              slots == old(slots)[idx := Occupied(old(slots)[idx])] && h == Handle(idx, slots[idx].gen))
    {
      var idx := 0;
      while idx < |slots| && slots[idx].used
        invariant 0 <= idx <= |slots| && slots == old(slots)
        invariant forall j :: 0 <= j < idx ==> slots[j].used
      {
        idx := idx + 1;
      }
      assert idx == FirstFree(slots);
      if idx == |slots| { return 0; }
      var gen := slots[idx].gen + 1;
      slots := slots[idx := Slot(true, gen, Tag(gen, true))];
      if !created {
        slots := slots[idx := slots[idx].(used := false)];
        return 0;
      }
      HandleParts(idx, gen);
      h := Handle(idx, gen);
    }

    /** Look a handle up, then give its slot back; -1 for a handle that names nothing. */
    method FreeAgent(h: int) returns (r: int)
      modifies this
      ensures r == 0 <==> Resolve(old(slots), h) >= 0
      ensures r == 0 || r == -1
      ensures slots == if r == 0 then old(slots)[Resolve(old(slots), h) := Vacated(old(slots)[Resolve(old(slots), h)])] else old(slots)
    {
      var idx := Resolve(slots, h);
      if idx < 0 { return -1; }
      slots := slots[idx := Slot(false, slots[idx].gen, Tag(slots[idx].gen, false))];
      r := 0;
    }
  }
}
