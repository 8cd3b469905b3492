/**
 The string registry's open-addressing table as a sequence of slots: linear probing,
 tombstones in place of deleted entries, and the shape every operation keeps.
 */
module ProbeTable {

  /** Slot contents: 0 is NULL, 1 is the tombstone, anything larger is a string pointer. */
  datatype Slot = Slot(p: nat, refs: int)

  const NULL: nat := 0
  const TOMB: nat := 1

  type Hash = nat -> nat

  // ------------------------------------------------------------------------ probing

  /** The slot a pointer's probe starts from; capacities are powers of two, so masking is `%`. */
  function Home(hash: Hash, p: nat, cap: nat): (b: nat)
    requires cap > 0
    ensures b < cap
  {
    hash(p) % cap
  }

  /** The `i`-th slot of the probe that starts at slot `b`: `(b + i) mod cap`. */
  function Index(b: nat, i: nat, cap: nat): (k: nat)
    requires b < cap && i < cap
    ensures k < cap && Distance(b, k, cap) == i
  {
    if b + i < cap then b + i else b + i - cap
  }

  /** How many steps the probe from slot `b` takes to reach slot `k`. */
  function Distance(b: nat, k: nat, cap: nat): (d: nat)
    requires b < cap && k < cap
    ensures d < cap
  {
    if b <= k then k - b else k + cap - b
  }

  // ---------------------------------------------------------------- the invariant

  /** Slot `j` comes before slot `k` on the probe that starts at `b`. */
  predicate Before(b: nat, j: nat, k: nat, cap: nat)
    requires b < cap && j < cap && k < cap
  {
    Distance(b, j, cap) < Distance(b, k, cap)
  }

  ghost predicate Reached(hash: Hash, t: seq<Slot>, k: nat)
    requires k < |t|
  {
    forall j :: 0 <= j < |t| && Before(Home(hash, t[k].p, |t|), j, k, |t|) ==> t[j].p != NULL
  }

  /** Every pointer is reached from its hash without crossing a NULL, and sits in one slot. */
  ghost predicate WellFormed(hash: Hash, t: seq<Slot>) {
    && |t| > 0
    && (forall k :: 0 <= k < |t| && t[k].p > TOMB ==> Reached(hash, t, k))
    && (forall i, j :: 0 <= i < j < |t| && t[i].p > TOMB ==> t[i].p != t[j].p)
  }

  ghost predicate Holds(t: seq<Slot>, p: nat) {
    exists k :: 0 <= k < |t| && t[k].p == p
  }

  /** The table holds exactly the pointers of `m`, with their counts. */
  ghost predicate Refines(t: seq<Slot>, m: map<nat, int>) {
    && (forall k :: 0 <= k < |t| && t[k].p > TOMB ==> t[k].p in m && m[t[k].p] == t[k].refs)
    && (forall p :: p in m ==> p > TOMB && Holds(t, p))
  }

  // ------------------------------------------------------------------- occupancy

  function LiveSlots(t: seq<Slot>): nat {
    if t == [] then 0 else (if t[0].p > TOMB then 1 else 0) + LiveSlots(t[1..])
  }

  function TombSlots(t: seq<Slot>): nat {
    if t == [] then 0 else (if t[0].p == TOMB then 1 else 0) + TombSlots(t[1..])
  }

  lemma {:induction false} SlotCountsUpdate(t: seq<Slot>, k: nat, s: Slot)
    requires k < |t|
    ensures LiveSlots(t[k := s]) == LiveSlots(t) - (if t[k].p > TOMB then 1 else 0) + (if s.p > TOMB then 1 else 0)
    ensures TombSlots(t[k := s]) == TombSlots(t) - (if t[k].p == TOMB then 1 else 0) + (if s.p == TOMB then 1 else 0)
  {
    if k == 0 {
      assert t[0 := s][1..] == t[1..];
    } else {
      SlotCountsUpdate(t[1..], k - 1, s);
      assert t[k := s][1..] == t[1..][k - 1 := s];
    }
  }

  lemma {:induction false} SlotCountsAppend(t: seq<Slot>, s: Slot)
    ensures LiveSlots(t + [s]) == LiveSlots(t) + (if s.p > TOMB then 1 else 0)
    ensures TombSlots(t + [s]) == TombSlots(t) + (if s.p == TOMB then 1 else 0)
  {
    if t != [] {
      SlotCountsAppend(t[1..], s);
      assert (t + [s])[1..] == t[1..] + [s];
    } else {
      assert (t + [s])[1..] == [];
    }
  }

  /** Live slots and tombstones fill the table exactly when no slot is NULL. */
  lemma {:induction false} NullSlotExists(t: seq<Slot>)
    ensures LiveSlots(t) + TombSlots(t) <= |t|
    ensures LiveSlots(t) + TombSlots(t) < |t| <==> exists k :: 0 <= k < |t| && t[k].p == NULL
  {
    if t != [] {
      NullSlotExists(t[1..]);
      if t[0].p != NULL && LiveSlots(t) + TombSlots(t) < |t| {
        var k :| 0 <= k < |t[1..]| && t[1..][k].p == NULL;
        assert t[k + 1].p == NULL;
      }
      if k :| 0 <= k < |t| && t[k].p == NULL && t[0].p != NULL {
        assert t[1..][k - 1].p == NULL;
      }
    }
  }

  lemma {:induction false} EmptyCounts(t: seq<Slot>)
    requires forall k :: 0 <= k < |t| ==> t[k].p == NULL
    ensures LiveSlots(t) == 0 && TombSlots(t) == 0
  {
    if t != [] { EmptyCounts(t[1..]); }
  }

  // ------------------------------------------------------------ one slot changes

  lemma HoldsAfter(t: seq<Slot>, k: nat, s: Slot, p: nat)
    requires k < |t|
    ensures Holds(t, p) && t[k].p != p ==> Holds(t[k := s], p)
    ensures Holds(t[k := s], s.p)
  {
    assert t[k := s][k].p == s.p;
    if Holds(t, p) && t[k].p != p {
      var x :| 0 <= x < |t| && t[x].p == p;
      assert t[k := s][x].p == p;
    }
  }

  /** A slot that does not become NULL hides no entry. */
  lemma UpdateKeepsReached(hash: Hash, t: seq<Slot>, k: nat, s: Slot, x: nat)
    requires k < |t| && x < |t| && x != k && s.p != NULL && Reached(hash, t, x)
    ensures Reached(hash, t[k := s], x)
  {
  }

  /** Writing `p` where its probe first meets a free slot keeps the shape and adds `p`. */
  lemma InsertKeeps(hash: Hash, t: seq<Slot>, m: map<nat, int>, k: nat, s: Slot)
    requires WellFormed(hash, t) && Refines(t, m) && s.p > TOMB && s.p !in m && k < |t| && t[k].p <= TOMB
    requires forall j :: 0 <= j < |t| && Before(Home(hash, s.p, |t|), j, k, |t|) ==> t[j].p != NULL
    ensures WellFormed(hash, t[k := s]) && Refines(t[k := s], m[s.p := s.refs])
  {
    var t' := t[k := s];
    assert Reached(hash, t', k);
    forall x | 0 <= x < |t'| && t'[x].p > TOMB
      ensures Reached(hash, t', x)
    {
      if x != k { UpdateKeepsReached(hash, t, k, s, x); }
    }
    forall p | p in m[s.p := s.refs]
      ensures p > TOMB && Holds(t', p)
    {
      HoldsAfter(t, k, s, p);
    }
  }

  /** Turning an entry into a tombstone keeps every other entry reachable. */
  lemma RetireKeeps(hash: Hash, t: seq<Slot>, m: map<nat, int>, k: nat)
    requires WellFormed(hash, t) && Refines(t, m) && k < |t| && t[k].p > TOMB
    ensures WellFormed(hash, t[k := Slot(TOMB, 0)]) && Refines(t[k := Slot(TOMB, 0)], m - {t[k].p})
  {
    var t' := t[k := Slot(TOMB, 0)];
    forall x | 0 <= x < |t'| && t'[x].p > TOMB
      ensures Reached(hash, t', x)
    {
      UpdateKeepsReached(hash, t, k, Slot(TOMB, 0), x);
    }
    forall p | p in m - {t[k].p}
      ensures p > TOMB && Holds(t', p)
    {
      HoldsAfter(t, k, Slot(TOMB, 0), p);
    }
  }

  lemma CountKeeps(hash: Hash, t: seq<Slot>, m: map<nat, int>, k: nat, refs: int)
    requires WellFormed(hash, t) && Refines(t, m) && k < |t| && t[k].p > TOMB
    ensures WellFormed(hash, t[k := Slot(t[k].p, refs)]) && Refines(t[k := Slot(t[k].p, refs)], m[t[k].p := refs])
  {
    var t' := t[k := Slot(t[k].p, refs)];
    forall x | 0 <= x < |t'| && t'[x].p > TOMB
      ensures Reached(hash, t', x)
    {
      assert Reached(hash, t, x);
      assert forall j :: 0 <= j < |t| ==> t'[j].p == t[j].p;
    }
    forall p | p in m[t[k].p := refs]
      ensures p > TOMB && Holds(t', p)
    {
      HoldsAfter(t, k, Slot(t[k].p, refs), p);
    }
  }

  /** A probe that meets a NULL, or runs all the way round, without meeting `p` proves `p` absent. */
  lemma ProbeProvesAbsent(hash: Hash, t: seq<Slot>, p: nat, i: nat)
    requires WellFormed(hash, t) && p > TOMB && i <= |t|
    requires forall j :: 0 <= j < |t| && Distance(Home(hash, p, |t|), j, |t|) < i ==> t[j].p != p
    requires i == |t| || t[Index(Home(hash, p, |t|), i, |t|)].p == NULL
    ensures !Holds(t, p)
  {
    assert forall k :: 0 <= k < |t| && t[k].p == p ==> Reached(hash, t, k);
    assert i < |t| ==> forall k :: 0 <= k < |t| && t[k].p == p ==>
      !Before(Home(hash, p, |t|), Index(Home(hash, p, |t|), i, |t|), k, |t|);
  }

  // ------------------------------------------------------------------ copying a table

  lemma EmptyTable(hash: Hash, t: seq<Slot>)
    requires |t| > 0 && forall k :: 0 <= k < |t| ==> t[k].p == NULL
    ensures WellFormed(hash, t) && Refines(t, map[]) && LiveSlots(t) == 0 && TombSlots(t) == 0
  {
    EmptyCounts(t);
  }

  /** `m` holds the entries of the first `i` slots. */
  ghost predicate Copied(t: seq<Slot>, i: nat, m: map<nat, int>)
    requires i <= |t|
  {
    && (forall k :: 0 <= k < i && t[k].p > TOMB ==> t[k].p in m && m[t[k].p] == t[k].refs)
    && (forall p :: p in m ==> p > TOMB && exists k :: 0 <= k < i && t[k].p == p)
  }

  lemma CopiedNext(hash: Hash, t: seq<Slot>, i: nat, m: map<nat, int>)
    requires WellFormed(hash, t) && i < |t| && Copied(t, i, m)
    ensures t[i].p > TOMB ==> t[i].p !in m && Copied(t, i + 1, m[t[i].p := t[i].refs])
    ensures t[i].p <= TOMB ==> Copied(t, i + 1, m)
  {
  }

  lemma CopiedAll(t: seq<Slot>, m: map<nat, int>, counts: map<nat, int>)
    requires Copied(t, |t|, m) && Refines(t, counts)
    ensures m == counts
  {
    forall p | p in m
      ensures p in counts && counts[p] == m[p]
    {
      var k :| 0 <= k < |t| && t[k].p == p;
    }
    forall p | p in counts
      ensures p in m
    {
      assert Holds(t, p);
    }
  }
}
