/**
 The reference-counted string registry: an object over a slot array that behaves as a
 map from pointer to count. Allocation is an input: `alloc` says whether calloc succeeds.
 */
module Registry {
  import opened Seqs
  import opened ProbeTable

  ghost predicate PowerOfTwo(n: nat) {
    n == 1 || (n > 0 && n % 2 == 0 && PowerOfTwo(n / 2))
  }

  /** The table is at its hard maximum; an unset maximum is never reached. */
  predicate AtCeiling(cap: nat, ceiling: Option<nat>) {
    ceiling.Some? && cap >= ceiling.value
  }

  /** The capacity that holds `tgt`, doubling from 1 and stopping at the ceiling. */
  method WantedCapacity(cap: nat, tgt: nat, ceiling: Option<nat>) returns (want: nat)
    requires PowerOfTwo(cap) && cap < tgt
    requires ceiling.Some? ==> PowerOfTwo(ceiling.value) && cap <= ceiling.value
    ensures PowerOfTwo(want) && want >= cap && (want >= tgt || AtCeiling(want, ceiling))
    ensures ceiling.Some? ==> want <= ceiling.value
  {
    want := 1;
    while want < tgt && !AtCeiling(want, ceiling)
      invariant PowerOfTwo(want)
      decreases tgt - want
    {
      assert (want * 2) / 2 == want;
      want := want * 2;
    }
    if ceiling.Some? && want > ceiling.value { want := ceiling.value; }
    if want < cap { want := cap; }
  }

  /** The starting capacity when no setting asks for less. */
  const FLOOR: nat := 262144

  lemma FloorIsPowerOfTwo()
    ensures PowerOfTwo(FLOOR)
  {
    assert PowerOfTwo(64);
    assert PowerOfTwo(4096);
  }

  method RoundDown(v: nat) returns (x: nat)
    requires v >= 1
    ensures PowerOfTwo(x) && x <= v < 2 * x
  {
    x := 1;
    while x * 2 <= v
      invariant PowerOfTwo(x) && x <= v
      decreases v - x
    {
      assert (x * 2) / 2 == x;
      x := x * 2;
    }
  }

  /** The inner loop of a rehash: write an entry where its probe first meets a free slot of `nw`. */
  method PlaceEntry(hash: Hash, nw: array<Slot>, p: nat, refs: int, ghost m: map<nat, int>)
    requires WellFormed(hash, nw[..]) && Refines(nw[..], m) && p > TOMB && p !in m
    requires LiveSlots(nw[..]) < nw.Length && TombSlots(nw[..]) == 0
    modifies nw
    ensures WellFormed(hash, nw[..]) && Refines(nw[..], m[p := refs])
    ensures LiveSlots(nw[..]) == old(LiveSlots(nw[..])) + 1 && TombSlots(nw[..]) == 0
  {
    var cap := nw.Length;
    var b := Home(hash, p, cap);
    var j := 0;
    while j < cap
      invariant 0 <= j <= cap && nw[..] == old(nw[..])
      invariant forall x :: 0 <= x < cap && Distance(b, x, cap) < j ==> nw[x].p > TOMB
    {
      var k := Index(b, j, cap);
      if nw[k].p == NULL || nw[k].p == TOMB {
        InsertKeeps(hash, nw[..], m, k, Slot(p, refs));
        SlotCountsUpdate(nw[..], k, Slot(p, refs));
        NoTombs(nw[..], k);
        nw[k] := Slot(p, refs);
        assert nw[..] == old(nw[..])[k := Slot(p, refs)];
        return;
      }
      j := j + 1;
    }
    AllLive(nw[..]);
  }

  /** The outer loop of a rehash: every live entry of `src` goes into the empty table `nw`. */
  method CopySlots(hash: Hash, src: array<Slot>, nw: array<Slot>) returns (reinserted: nat, ghost m: map<nat, int>)
    requires src != nw && nw.Length >= src.Length && nw.Length > 0 && WellFormed(hash, src[..])
    requires forall k :: 0 <= k < nw.Length ==> nw[k].p == NULL
    modifies nw
    ensures WellFormed(hash, nw[..]) && Refines(nw[..], m) && Copied(src[..], src.Length, m)
    ensures LiveSlots(nw[..]) == reinserted == LiveSlots(src[..]) && TombSlots(nw[..]) == 0
  {
    ghost var t := src[..];
    m := map[];
    assert Copied(t, 0, m);
    hide WellFormed, Refines, Copied, LiveSlots, TombSlots;
    EmptyTable(hash, nw[..]);
    LiveInPrefix(t, 0);
    var i := 0;
    reinserted := 0;
    while i < src.Length
      invariant 0 <= i <= src.Length && src[..] == t
      invariant WellFormed(hash, nw[..]) && Refines(nw[..], m) && Copied(t, i, m)
      invariant LiveSlots(nw[..]) == reinserted == LiveSlots(t[..i]) && TombSlots(nw[..]) == 0
    {
      LiveInPrefix(t, i);
      CopiedNext(hash, t, i, m);
      if src[i].p > TOMB {
        PlaceEntry(hash, nw, src[i].p, src[i].refs, m);
        m := m[t[i].p := t[i].refs];
        reinserted := reinserted + 1;
      }
      i := i + 1;
    }
    assert t[..i] == t;
  }

  class StringRegistry {
    const hash: Hash
    const ceiling: Option<nat>
    var table: array<Slot>
    var live: nat
    var tombs: nat
    var churn: nat
    ghost var counts: map<nat, int>   // the abstract registry: pointer to reference count

    ghost predicate Valid()
      reads this, table
    {
      && table.Length >= 4 && PowerOfTwo(table.Length)
      && (ceiling.Some? ==> PowerOfTwo(ceiling.value) && table.Length <= ceiling.value)
      && WellFormed(hash, table[..]) && Refines(table[..], counts)
      && live == LiveSlots(table[..]) && tombs == TombSlots(table[..])
    }

    /** `env` is the VYB_STR_REG_CAP setting: at 4 or more it is the ceiling, rounded down to a power of two. */
    constructor (hash: Hash, env: Option<nat>)
      ensures Valid() && Roomy() && counts == map[] && live == 0 && this.hash == hash
      ensures ceiling.Some? <==> env.Some? && env.value >= 4
      ensures ceiling.Some? ==> ceiling.value <= env.value < 2 * ceiling.value
      ensures table.Length == if ceiling.Some? && ceiling.value < FLOOR then ceiling.value else FLOOR
      ensures fresh(table)
    {
      var max: Option<nat>, start := None, FLOOR;
      FloorIsPowerOfTwo();
      if env.Some? && env.value >= 4 {
        var x := RoundDown(env.value);
        max := Some(x);
        start := if x < FLOOR then x else FLOOR;
      }
      var t := new Slot[start](_ => Slot(NULL, 0));
      this.hash, ceiling, table, live, tombs, churn, counts := hash, max, t, 0, 0, 0, map[];
      new;
      EmptyTable(hash, table[..]);
    }

    /** Below the ceiling some slot is neither live nor a tombstone. */
    ghost predicate Roomy()
      reads this, table
    {
      AtCeiling(table.Length, ceiling) || live + tombs < table.Length
    }

    /** So below the ceiling there is a NULL slot, and every probe stops inside its cluster. */
    lemma RoomyMeansNullSlot()
      requires Valid()
      ensures Roomy() <==> AtCeiling(table.Length, ceiling) || Holds(table[..], NULL)
    {
      NullSlotExists(table[..]);
    }

    /** Lookup probe: the slot holding `p`, or none when `p` is untracked. */
    method LookupSlot(p: nat) returns (k: Option<nat>)
      requires Valid() && p != TOMB
      ensures k.Some? ==> k.value < table.Length && table[k.value].p == p > TOMB && p in counts
      ensures k.Some? ==> table[k.value].refs == counts[p]
      ensures k.None? ==> p !in counts
    {
      if p == NULL { return None; }
      var cap := table.Length;
      var b := Home(hash, p, cap);
      var i := 0;
      while i < cap
        invariant 0 <= i <= cap
        invariant forall j :: 0 <= j < cap && Distance(b, j, cap) < i ==> table[j].p != p
      {
        var idx := Index(b, i, cap);
        if table[idx].p == p { return Some(idx); }
        if table[idx].p == NULL {
          ProbeProvesAbsent(hash, table[..], p, i);
          return None;
        }
        i := i + 1;
      }
      ProbeProvesAbsent(hash, table[..], p, i);
      return None;
    }

    /** Insertion probe: the first slot that is a tombstone, NULL, or holds `p` already. */
    method InsertSlot(p: nat) returns (k: Option<nat>)
      requires Valid() && p > TOMB
      ensures k.Some? ==> k.value < table.Length && (table[k.value].p <= TOMB || (table[k.value].p == p && p in counts))
      ensures k.Some? ==> forall j :: 0 <= j < table.Length && Before(Home(hash, p, table.Length), j, k.value, table.Length) ==>
        table[j].p > TOMB && table[j].p != p
      ensures k.None? <==> live == table.Length && p !in counts
    {
      var cap := table.Length;
      var b := Home(hash, p, cap);
      var i := 0;
      while i < cap
        invariant 0 <= i <= cap
        invariant forall j :: 0 <= j < cap && Distance(b, j, cap) < i ==> table[j].p > TOMB && table[j].p != p
      {
        var idx := Index(b, i, cap);
        if table[idx].p == TOMB || table[idx].p == NULL || table[idx].p == p {
          if table[idx].p <= TOMB { NotAllLive(table[..], idx); }
          return Some(idx);
        }
        i := i + 1;
      }
      ProbeProvesAbsent(hash, table[..], p, i);
      AllLive(table[..]);
      return None;
    }

    /** Copy the live entries of the table into the empty table `nw`, dropping tombstones. */
    method CopyEntries(nw: array<Slot>) returns (reinserted: nat)
      requires Valid() && nw != table && nw.Length >= table.Length
      requires forall k :: 0 <= k < nw.Length ==> nw[k].p == NULL
      modifies nw
      ensures WellFormed(hash, nw[..]) && Refines(nw[..], counts)
      ensures LiveSlots(nw[..]) == reinserted == live && TombSlots(nw[..]) == 0
    {
      ghost var m: map<nat, int>;
      reinserted, m := CopySlots(hash, table, nw);
      CopiedAll(table[..], m, counts);
    }

    /** Rehash into a table of `newcap` slots and publish it. */
    method Rehash(newcap: nat, alloc: bool) returns (ok: bool)
      requires Valid() && PowerOfTwo(newcap) && (ceiling.Some? ==> newcap <= ceiling.value)
      modifies this
      ensures Valid() && counts == old(counts)
      ensures ok <==> alloc && newcap >= old(table.Length)
      ensures ok ==> table.Length == newcap && fresh(table) && live == old(live) && tombs == 0 && churn == 0
      ensures !ok ==> table == old(table) && live == old(live) && tombs == old(tombs) && churn == old(churn)
    {
      hide WellFormed, Refines, LiveSlots, TombSlots, PowerOfTwo;
      if newcap < table.Length { return false; }
      if !alloc { return false; }
      var nw := new Slot[newcap](_ => Slot(NULL, 0));
      var reinserted := CopyEntries(nw);
      table := nw;
      tombs, churn, live := 0, 0, reinserted;
      return true;
    }

    /** Double the table, up to the ceiling. */
    method Grow(alloc: bool) returns (ok: bool)
      requires Valid()
      modifies this
      ensures Valid() && counts == old(counts) && live == old(live)
      ensures ok <==> alloc && !AtCeiling(old(table.Length), ceiling)
      ensures ok ==> table.Length > old(table.Length) && fresh(table) && tombs == 0
      ensures !ok ==> table == old(table) && tombs == old(tombs) && churn == old(churn)
    {
      var newcap := table.Length * 2;
      assert newcap / 2 == table.Length;
      if ceiling.Some? && newcap > ceiling.value { newcap := ceiling.value; }
      if newcap <= table.Length { return false; }
      ok := Rehash(newcap, alloc);
    }

    /** Rehash when the table is crowded, heavy with tombstones, or much churned. */
    method MaybeResize(alloc: bool)
      requires Valid()
      modifies this
      ensures Valid() && counts == old(counts) && live == old(live)
      ensures table.Length >= old(table.Length) && (table == old(table) || fresh(table))
      ensures alloc ==> AtCeiling(table.Length, ceiling) || live + tombs + 1 < table.Length
    {
      var cap := table.Length;
      var crowded := (live + tombs) * 4 >= cap * 3;
      var tombHeavy := tombs * 8 > cap;
      var churned := churn >= cap / 16;
      if !crowded && !tombHeavy && !churned { return; }
      var want := cap;
      var tgt := live * 2;
      if tgt > cap { want := WantedCapacity(cap, tgt, ceiling); }
      var _ := Rehash(want, alloc);
    }

    /**
     Register a pointer the allocator just handed out. `ok` is false when the registry is
     exhausted, which ends the process. With allocation succeeding that happens exactly
     when every slot of a table at the ceiling is live.
     */
    method RegisterRefs(p: nat, refs: int, allocResize: bool, allocGrow: bool) returns (ok: bool)
      requires Valid() && p != TOMB && p !in counts
      modifies this, table
      ensures p == NULL ==> ok && unchanged(this) && unchanged(table)
      ensures Valid() && (table == old(table) || fresh(table))
      ensures p != NULL && ok ==> counts == old(counts)[p := refs]
      ensures p != NULL && !ok ==> counts == old(counts)
      ensures p != NULL && !ok ==> live == table.Length && (AtCeiling(table.Length, ceiling) || !allocGrow)
      ensures p != NULL && allocResize && allocGrow ==>
        (!ok <==> old(live) == old(table.Length) && AtCeiling(old(table.Length), ceiling))
      ensures ok && allocResize && old(Roomy()) ==> Roomy()
    {
      if p == NULL { return true; }
      hide WellFormed, Refines, LiveSlots, TombSlots, PowerOfTwo, Before, Home;
      NullSlotExists(table[..]);
      MaybeResize(allocResize);
      var s := SlotFor(p, allocGrow);
      if s.None? { return false; }
      Publish(s.value, p, refs);
      return true;
    }

    /** A slot for a new pointer, in a grown table if the present one is full of live slots. */
    method SlotFor(p: nat, alloc: bool) returns (k: Option<nat>)
      requires Valid() && p > TOMB && p !in counts
      modifies this
      ensures Valid() && counts == old(counts) && live == old(live) && (table == old(table) || fresh(table))
      ensures k.None? <==> old(live) == old(table.Length) && (AtCeiling(old(table.Length), ceiling) || !alloc)
      ensures k.None? || old(live) < old(table.Length) ==> table == old(table) && tombs == old(tombs)
      ensures k.Some? ==> k.value < table.Length && table[k.value].p <= TOMB
      ensures k.Some? ==> forall j :: 0 <= j < table.Length && Before(Home(hash, p, table.Length), j, k.value, table.Length) ==>
        table[j].p != NULL
    {
      hide WellFormed, Refines, LiveSlots, TombSlots, PowerOfTwo, Before, Home;
      k := InsertSlot(p);
      if k.None? {
        var ok := Grow(alloc);
        if ok { k := InsertSlot(p); }
      }
    }

    /** Write the entry and keep the occupancy counters. */
    method Publish(k: nat, p: nat, refs: int)
      requires Valid() && k < table.Length && table[k].p <= TOMB && p > TOMB && p !in counts
      requires forall j :: 0 <= j < table.Length && Before(Home(hash, p, table.Length), j, k, table.Length) ==>
        table[j].p != NULL
      modifies this, table
      ensures Valid() && table == old(table) && counts == old(counts)[p := refs]
      ensures live == old(live) + 1 && old(tombs) - 1 <= tombs <= old(tombs)
    {
      hide WellFormed, Refines, LiveSlots, TombSlots;
      var slotP := table[k].p;
      InsertKeeps(hash, table[..], counts, k, Slot(p, refs));
      SlotCountsUpdate(table[..], k, Slot(p, refs));
      table[k] := Slot(p, refs);
      assert table[..] == old(table[..])[k := Slot(p, refs)];
      counts := counts[p := refs];
      if slotP == TOMB && tombs > 0 { tombs := tombs - 1; }
      live := live + 1;
    }

    /** Take one reference; a pointer that is not registered is left alone. */
    method Retain(p: nat)
      requires Valid() && p != TOMB
      modifies this, table
      ensures Valid() && table == old(table) && live == old(live) && tombs == old(tombs)
      ensures counts == if p in old(counts) then old(counts)[p := old(counts)[p] + 1] else old(counts)
      ensures old(Roomy()) ==> Roomy()
    {
      hide WellFormed, Refines, LiveSlots, TombSlots, PowerOfTwo;
      var s := LookupSlot(p);
      if s.Some? {
        AddRefs(s.value, 1);
      }
    }

    method AddRefs(k: nat, d: int)
      requires Valid() && k < table.Length && table[k].p > TOMB
      modifies this, table
      ensures Valid() && table == old(table) && live == old(live) && tombs == old(tombs) && churn == old(churn)
      ensures counts == old(counts)[old(table[k].p) := old(table[k].refs) + d]
      ensures old(Roomy()) ==> Roomy()
    {
      hide WellFormed, Refines, LiveSlots, TombSlots, PowerOfTwo;
      ghost var t := table[..];
      var p, refs := table[k].p, table[k].refs + d;
      CountKeeps(hash, t, counts, k, refs);
      SlotCountsUpdate(t, k, Slot(p, refs));
      counts := counts[p := refs];
      table[k] := Slot(p, refs);
      assert table[..] == t[k := Slot(p, refs)];
    }

    /** Drop one reference; the last one frees the buffer and leaves a tombstone. */
    method Release(p: nat) returns (freed: bool)
      requires Valid() && p != TOMB
      modifies this, table
      ensures Valid() && table == old(table)
      ensures freed <==> p in old(counts) && old(counts)[p] == 1
      ensures counts == if p !in old(counts) then old(counts)
        else if freed then old(counts) - {p} else old(counts)[p := old(counts)[p] - 1]
      ensures old(Roomy()) ==> Roomy()
    {
      hide WellFormed, Refines, LiveSlots, TombSlots, Roomy, PowerOfTwo;
      var s := LookupSlot(p);
      if s.None? { return false; }
      var refs := table[s.value].refs;
      AddRefs(s.value, -1);
      if refs != 1 { return false; }
      var home := LookupSlot(p);
      Retire(home.value);
      return true;
    }

    /** The last release: free the pointer and put a tombstone in its slot. */
    method Retire(k: nat)
      requires Valid() && k < table.Length && table[k].p > TOMB
      modifies this, table
      ensures Valid() && table == old(table) && counts == old(counts) - {old(table[k].p)}
      ensures live == old(live) - 1 && tombs == old(tombs) + 1 && churn == old(churn) + 1
      ensures old(Roomy()) ==> Roomy()
    {
      hide WellFormed, Refines, LiveSlots, TombSlots;
      RetireKeeps(hash, table[..], counts, k);
      SlotCountsUpdate(table[..], k, Slot(TOMB, 0));
      counts := counts - {table[k].p};
      table[k] := Slot(TOMB, 0);
      assert table[..] == old(table[..])[k := Slot(TOMB, 0)];
      tombs := tombs + 1;
      if live > 0 { live := live - 1; }
      churn := churn + 1;
    }
  }

  lemma {:induction false} AllLive(t: seq<Slot>)
    requires forall k :: 0 <= k < |t| ==> t[k].p > TOMB
    ensures LiveSlots(t) == |t|
  {
    if t != [] { AllLive(t[1..]); }
  }

  lemma {:induction false} NotAllLive(t: seq<Slot>, k: nat)
    requires k < |t| && t[k].p <= TOMB
    ensures LiveSlots(t) < |t|
  {
    if k > 0 {
      NotAllLive(t[1..], k - 1);
    } else {
      NullSlotExists(t[1..]);
    }
  }

  lemma LiveInPrefix(t: seq<Slot>, i: nat)
    requires i < |t|
    ensures LiveSlots(t[..i + 1]) == LiveSlots(t[..i]) + (if t[i].p > TOMB then 1 else 0)
    ensures LiveSlots(t[..i]) <= i && LiveSlots(t[..0]) == 0
  {
    SlotCountsAppend(t[..i], t[i]);
    assert t[..i + 1] == t[..i] + [t[i]];
    NullSlotExists(t[..i]);
  }

  lemma NoTombs(t: seq<Slot>, k: nat)
    requires TombSlots(t) == 0 && k < |t|
    ensures t[k].p != TOMB
  {
    SlotCountsUpdate(t, k, Slot(NULL, 0));
  }

  /** The slot where the insertion probe for `p` stops. */
  ghost predicate InsertStop(hash: Hash, t: seq<Slot>, p: nat, q: nat)
    requires q < |t|
  {
    && (t[q].p <= TOMB || t[q].p == p)
    && forall j :: 0 <= j < |t| && Before(Home(hash, p, |t|), j, q, |t|) ==> t[j].p > TOMB && t[j].p != p
  }

  /**
   Registering a pointer that is already present leaves the table alone exactly when no
   tombstone precedes its slot on its probe; otherwise it would put the pointer in a second
   slot. This is why registration is for fresh pointers only.
   */
  lemma ReRegistering(hash: Hash, t: seq<Slot>, p: nat, k: nat, q: nat)
    requires WellFormed(hash, t) && p > TOMB && k < |t| && t[k].p == p && q < |t| && InsertStop(hash, t, p, q)
    ensures q == k <==> forall j :: 0 <= j < |t| && Before(Home(hash, p, |t|), j, k, |t|) ==> t[j].p != TOMB
    ensures q != k ==> t[q].p == TOMB && !WellFormed(hash, t[q := Slot(p, 1)])
  {
    assert Reached(hash, t, k);
    var b := Home(hash, p, |t|);
    if q != k {
      assert Before(b, q, k, |t|);
      var t' := t[q := Slot(p, 1)];
      assert t'[q].p == t'[k].p;
    }
  }
}
