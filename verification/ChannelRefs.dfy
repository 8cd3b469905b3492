/**
 Who owns the references to a String that travels through channels: the registry's count of every
 buffer against its holders, over all interleavings of sends, receives, refusals and frees.
 */
module ChannelRefs {

  type Ptr = nat

  datatype Chan = Chan(items: seq<Ptr>, bounded: bool, cap: nat, closed: bool, freeing: bool)

  /** `held` are the references of ordinary values; `retained` those of sends between their retain and
   the queue; `refused` those of refused sends that have yet to be given back. */
  datatype World = World(
    counts: map<Ptr, nat>,
    held: multiset<Ptr>,
    retained: multiset<Ptr>,
    refused: multiset<Ptr>,
    chans: seq<Chan>)

  datatype Step =
    | Allocate(p: Ptr)
    | Copy(p: Ptr)
    | Drop(p: Ptr)
    | NewChannel(bounded: bool, cap: nat)
    | SendRetain(p: Ptr)
    | SendAccept(c: nat, p: Ptr)
    | SendRefuse(c: nat, p: Ptr)
    | RefusalRelease(p: Ptr)
    | Receive(c: nat)
    | Close(c: nat)
    | FreeBegin(c: nat)
    | FreeOne(c: nat)

  /** The registry's map: a literal has no entry, and retain and release leave it alone. */
  function Retain(counts: map<Ptr, nat>, p: Ptr): map<Ptr, nat> {
    if p in counts then counts[p := counts[p] + 1] else counts
  }

  function Release(counts: map<Ptr, nat>, p: Ptr): map<Ptr, nat> {
    if p !in counts then counts
    else if counts[p] <= 1 then counts - {p}
    else counts[p := counts[p] - 1]
  }

  predicate Open(w: World, c: nat) { c < |w.chans| && !w.chans[c].freeing }

  predicate Full(ch: Chan) { ch.bounded && |ch.items| >= ch.cap }

  /** `literal` are the addresses of static texts, which the registry never has. */
  predicate Enabled(literal: set<Ptr>, w: World, step: Step) {
    match step
    case Allocate(p) => p !in literal && p !in w.counts
    case Copy(p) => p in w.held
    case Drop(p) => p in w.held
    case NewChannel(_, _) => true
    case SendRetain(p) => p in w.held
    case SendAccept(c, p) => Open(w, c) && p in w.retained && !w.chans[c].closed && !Full(w.chans[c])
    // an unbounded channel refuses only when it cannot grow
    case SendRefuse(c, p) =>
      Open(w, c) && p in w.retained && (w.chans[c].closed || Full(w.chans[c]) || !w.chans[c].bounded)
    case RefusalRelease(p) => p in w.refused
    case Receive(c) => Open(w, c) && w.chans[c].items != []
    case Close(c) => Open(w, c)
    case FreeBegin(c) => Open(w, c)
    case FreeOne(c) => c < |w.chans| && w.chans[c].freeing && w.chans[c].items != []
  }

  function Apply(literal: set<Ptr>, w: World, step: Step): World
    requires Enabled(literal, w, step)
  {
    match step
    case Allocate(p) => w.(counts := w.counts[p := 1], held := w.held + multiset{p})
    case Copy(p) => w.(counts := Retain(w.counts, p), held := w.held + multiset{p})
    case Drop(p) => w.(counts := Release(w.counts, p), held := w.held - multiset{p})
    case NewChannel(bounded, cap) => w.(chans := w.chans + [Chan([], bounded, cap, false, false)])
    case SendRetain(p) => w.(counts := Retain(w.counts, p), retained := w.retained + multiset{p})
    case SendAccept(c, p) =>
      w.(retained := w.retained - multiset{p}, chans := w.chans[c := w.chans[c].(items := w.chans[c].items + [p])])
    case SendRefuse(c, p) => w.(retained := w.retained - multiset{p}, refused := w.refused + multiset{p})
    case RefusalRelease(p) => w.(counts := Release(w.counts, p), refused := w.refused - multiset{p})
    case Receive(c) =>
      var items := w.chans[c].items;
      w.(held := w.held + multiset{items[0]}, chans := w.chans[c := w.chans[c].(items := items[1..])])
    case Close(c) => w.(chans := w.chans[c := w.chans[c].(closed := true)])
    case FreeBegin(c) => w.(chans := w.chans[c := w.chans[c].(freeing := true)])
    case FreeOne(c) =>
      var items := w.chans[c].items;
      w.(counts := Release(w.counts, items[0]), chans := w.chans[c := w.chans[c].(items := items[1..])])
  }

  // ----------------------------------------------------------------- the invariant

  /** How often `p` is queued in all channels together. */
  function Queued(chans: seq<Chan>, p: Ptr): nat {
    if chans == [] then 0 else multiset(chans[0].items)[p] + Queued(chans[1..], p)
  }

  /** All references to `p` that anyone accounts for. */
  function References(w: World, p: Ptr): nat {
    w.held[p] + w.retained[p] + w.refused[p] + Queued(w.chans, p)
  }

  function CountOf(counts: map<Ptr, nat>, p: Ptr): nat { if p in counts then counts[p] else 0 }

  /** The registry counts exactly the references there are, and has no entry for a literal. */
  ghost predicate Conserved(literal: set<Ptr>, w: World) {
    && (forall p :: p in w.counts ==> p !in literal && w.counts[p] > 0)
    && (forall p {:trigger References(w, p)} :: p !in literal ==> CountOf(w.counts, p) == References(w, p))
  }

  lemma {:induction false} QueuedUpdate(chans: seq<Chan>, c: nat, ch: Chan, p: Ptr)
    requires c < |chans|
    ensures Queued(chans[c := ch], p) == Queued(chans, p) - multiset(chans[c].items)[p] + multiset(ch.items)[p]
  {
    var chans' := chans[c := ch];
    if c == 0 {
      assert chans'[1..] == chans[1..];
    } else {
      assert chans'[1..] == chans[1..][c - 1 := ch];
      QueuedUpdate(chans[1..], c - 1, ch, p);
    }
  }

  lemma {:induction false} QueuedAppend(chans: seq<Chan>, ch: Chan, p: Ptr)
    ensures Queued(chans + [ch], p) == Queued(chans, p) + multiset(ch.items)[p]
  {
    if chans != [] {
      assert (chans + [ch])[1..] == chans[1..] + [ch];
      QueuedAppend(chans[1..], ch, p);
    }
  }

  lemma {:induction false} QueuedAtLeast(chans: seq<Chan>, c: nat, p: Ptr)
    requires c < |chans|
    ensures Queued(chans, p) >= multiset(chans[c].items)[p]
  {
    if c > 0 { QueuedAtLeast(chans[1..], c - 1, p); }
  }

  /** What a step does to the references to `q`. */
  function Gain(w: World, step: Step, q: Ptr): int {
    match step
    case Allocate(p) => if q == p then 1 else 0
    case Copy(p) => if q == p then 1 else 0
    case Drop(p) => if q == p then -1 else 0
    case SendRetain(p) => if q == p then 1 else 0
    case RefusalRelease(p) => if q == p then -1 else 0
    case FreeOne(c) => if c < |w.chans| && w.chans[c].items != [] && q == w.chans[c].items[0] then -1 else 0
    case _ => 0
  }

  lemma StepReferences(literal: set<Ptr>, w: World, step: Step, q: Ptr)
    requires Enabled(literal, w, step)
    ensures References(Apply(literal, w, step), q) == References(w, q) + Gain(w, step, q)
  {
    StepQueued(literal, w, step, q);
    hide Queued, Retain, Release;
  }

  /** How a step changes the number of times `q` is queued. */
  lemma StepQueued(literal: set<Ptr>, w: World, step: Step, q: Ptr)
    requires Enabled(literal, w, step)
    ensures Queued(Apply(literal, w, step).chans, q) == Queued(w.chans, q) +
      match step
      case SendAccept(_, p) => if p == q then 1 else 0
      case Receive(c) => if w.chans[c].items[0] == q then -1 else 0
      case FreeOne(c) => if w.chans[c].items[0] == q then -1 else 0
      case _ => 0
  {
    var chans' := Apply(literal, w, step).chans;
    hide Queued, Retain, Release;
    match step
    case NewChannel(bounded, cap) => QueuedAppend(w.chans, Chan([], bounded, cap, false, false), q);
    case SendAccept(c, p) => TailCount(w.chans[c].items, p, q); QueuedUpdate(w.chans, c, chans'[c], q);
    case Receive(c) => HeadCount(w.chans[c].items, q); QueuedUpdate(w.chans, c, chans'[c], q);
    case Close(c) => QueuedUpdate(w.chans, c, chans'[c], q);
    case FreeBegin(c) => QueuedUpdate(w.chans, c, chans'[c], q);
    case FreeOne(c) => HeadCount(w.chans[c].items, q); QueuedUpdate(w.chans, c, chans'[c], q);
    case _ =>
  }

  lemma HeadCount(items: seq<Ptr>, q: Ptr)
    requires items != []
    ensures multiset(items)[q] == (if q == items[0] then 1 else 0) + multiset(items[1..])[q]
  {
    assert items == [items[0]] + items[1..];
  }

  lemma TailCount(items: seq<Ptr>, p: Ptr, q: Ptr)
    ensures multiset(items + [p])[q] == multiset(items)[q] + if q == p then 1 else 0
  {
  }

  lemma RetainCounts(counts: map<Ptr, nat>, p: Ptr, q: Ptr)
    requires q == p ==> p in counts
    ensures CountOf(Retain(counts, p), q) == CountOf(counts, q) + if q == p then 1 else 0
  {
  }

  lemma ReleaseCounts(counts: map<Ptr, nat>, p: Ptr, q: Ptr)
    requires q == p ==> CountOf(counts, p) > 0
    ensures CountOf(Release(counts, p), q) == CountOf(counts, q) - if q == p then 1 else 0
  {
  }

  lemma StepCounts(literal: set<Ptr>, w: World, step: Step, q: Ptr)
    requires Conserved(literal, w) && Enabled(literal, w, step) && q !in literal
    ensures CountOf(Apply(literal, w, step).counts, q) == CountOf(w.counts, q) + Gain(w, step, q)
  {
    assert References(w, q) == CountOf(w.counts, q);
    hide Retain, Release, Queued;
    match step
    case Copy(p) => RetainCounts(w.counts, p, q);
    case SendRetain(p) => RetainCounts(w.counts, p, q);
    case Drop(p) => ReleaseCounts(w.counts, p, q);
    case RefusalRelease(p) => ReleaseCounts(w.counts, p, q);
    case FreeOne(c) =>
      QueuedAtLeast(w.chans, c, q);
      HeadCount(w.chans[c].items, q);
      ReleaseCounts(w.counts, w.chans[c].items[0], q);
    case _ =>
  }

  /** Entries stay positive, and a literal never gets one. */
  lemma StepEntries(literal: set<Ptr>, w: World, step: Step)
    requires Enabled(literal, w, step) && (forall p :: p in w.counts ==> p !in literal && w.counts[p] > 0)
    ensures var counts := Apply(literal, w, step).counts; forall p :: p in counts ==> p !in literal && counts[p] > 0
  {
    hide Retain, Release;
    match step
    case Copy(p) => RetainEntries(w.counts, p);
    case SendRetain(p) => RetainEntries(w.counts, p);
    case Drop(p) => ReleaseEntries(w.counts, p);
    case RefusalRelease(p) => ReleaseEntries(w.counts, p);
    case FreeOne(c) => ReleaseEntries(w.counts, w.chans[c].items[0]);
    case _ =>
  }

  lemma RetainEntries(counts: map<Ptr, nat>, p: Ptr)
    requires forall r :: r in counts ==> counts[r] > 0
    ensures forall r :: r in Retain(counts, p) ==> r in counts && Retain(counts, p)[r] > 0
  {
  }

  lemma ReleaseEntries(counts: map<Ptr, nat>, p: Ptr)
    requires forall r :: r in counts ==> counts[r] > 0
    ensures forall r :: r in Release(counts, p) ==> r in counts && Release(counts, p)[r] > 0
  {
  }

  /** Every step keeps the books. */
  lemma StepConserves(literal: set<Ptr>, w: World, step: Step)
    requires Conserved(literal, w) && Enabled(literal, w, step)
    ensures Conserved(literal, Apply(literal, w, step))
  {
    hide Apply, Enabled;
    var w' := Apply(literal, w, step);
    forall p | p !in literal ensures CountOf(w'.counts, p) == References(w', p) {
      StepReferences(literal, w, step, p);
      StepCounts(literal, w, step, p);
      assert References(w, p) == CountOf(w.counts, p);
    }
    StepEntries(literal, w, step);
  }

  // ------------------------------------------------------------------------- runs

  predicate Run(literal: set<Ptr>, w: World, steps: seq<Step>)
    decreases |steps|
  {
    steps == [] || (Enabled(literal, w, steps[0]) && Run(literal, Apply(literal, w, steps[0]), steps[1..]))
  }

  function End(literal: set<Ptr>, w: World, steps: seq<Step>): World
    requires Run(literal, w, steps)
    decreases |steps|
  {
    if steps == [] then w else End(literal, Apply(literal, w, steps[0]), steps[1..])
  }

  /** A program starts with references to literals only. */
  predicate Initial(literal: set<Ptr>, w: World) {
    w == World(map[], w.held, multiset{}, multiset{}, []) && forall p :: p in w.held ==> p in literal
  }

  lemma {:induction false} RunConserves(literal: set<Ptr>, w: World, steps: seq<Step>)
    requires Conserved(literal, w) && Run(literal, w, steps)
    ensures Conserved(literal, End(literal, w, steps))
    decreases |steps|
  {
    if steps != [] {
      StepConserves(literal, w, steps[0]);
      RunConserves(literal, Apply(literal, w, steps[0]), steps[1..]);
    }
  }

  /** In every state a run reaches, each buffer's count is the number of references to it, so a buffer
   that is queued, in flight or held has not been freed. */
  lemma ReferencesAreConserved(literal: set<Ptr>, w: World, steps: seq<Step>, p: Ptr)
    requires Initial(literal, w) && Run(literal, w, steps) && p !in literal
    ensures var e := End(literal, w, steps);
      && CountOf(e.counts, p) == References(e, p)
      && ((p in e.held || p in e.retained || p in e.refused || Queued(e.chans, p) > 0) <==> p in e.counts)
  {
    assert forall q :: q !in literal ==> References(w, q) == 0;
    RunConserves(literal, w, steps);
    var e := End(literal, w, steps);
    assert References(e, p) == CountOf(e.counts, p);
  }

  /** What is received is alive, and its reference now belongs to the receiver. */
  lemma ReceivedIsAlive(literal: set<Ptr>, w: World, c: nat)
    requires Conserved(literal, w) && Enabled(literal, w, Receive(c)) && w.chans[c].items[0] !in literal
    ensures var w' := Apply(literal, w, Receive(c)); var p := w.chans[c].items[0];
      p in w'.counts && w'.counts == w.counts && w'.held[p] == w.held[p] + 1
  {
    var p := w.chans[c].items[0];
    assert References(w, p) == CountOf(w.counts, p);
    QueuedAtLeast(w.chans, c, p);
    HeadCount(w.chans[c].items, p);
  }

  /** A refused send leaves no trace: the retain and the release of the same reference cancel. */
  lemma RefusalLeavesNoTrace(literal: set<Ptr>, w: World, c: nat, p: Ptr)
    requires Conserved(literal, w) && Run(literal, w, [SendRetain(p), SendRefuse(c, p), RefusalRelease(p)])
    ensures End(literal, w, [SendRetain(p), SendRefuse(c, p), RefusalRelease(p)]) == w
  {
    var s1 := Apply(literal, w, SendRetain(p));
    var s2 := Apply(literal, s1, SendRefuse(c, p));
    var steps := [SendRetain(p), SendRefuse(c, p), RefusalRelease(p)];
    assert steps[1..] == [SendRefuse(c, p), RefusalRelease(p)] && steps[1..][1..] == [RefusalRelease(p)];
    assert End(literal, w, steps) == End(literal, s1, steps[1..]) == End(literal, s2, [RefusalRelease(p)]);
    assert [RefusalRelease(p)][1..] == [];
    assert End(literal, s2, [RefusalRelease(p)]) == Apply(literal, s2, RefusalRelease(p));
    assert s1.retained - multiset{p} == w.retained;
    assert s2.refused - multiset{p} == w.refused;
    assert Release(Retain(w.counts, p), p) == w.counts;
  }

  /** Once every channel is drained and no send is under way, the values alone own the buffers. */
  lemma NothingLeaks(literal: set<Ptr>, w: World, p: Ptr)
    requires Conserved(literal, w) && p !in literal
    requires w.retained == multiset{} && w.refused == multiset{}
    requires forall c :: 0 <= c < |w.chans| ==> w.chans[c].items == []
    ensures CountOf(w.counts, p) == w.held[p]
  {
    NoneQueued(w.chans, p);
    assert References(w, p) == CountOf(w.counts, p);
  }

  lemma {:induction false} NoneQueued(chans: seq<Chan>, p: Ptr)
    requires forall c :: 0 <= c < |chans| ==> chans[c].items == []
    ensures Queued(chans, p) == 0
  {
    if chans != [] { NoneQueued(chans[1..], p); }
  }

  // -------------------------------------------------------------- order, room and lifetime

  /** What the steps of a run put into channel `c`, in order. */
  function Accepted(steps: seq<Step>, c: nat): seq<Ptr> {
    if steps == [] then []
    else (if steps[0].SendAccept? && steps[0].c == c then [steps[0].p] else []) + Accepted(steps[1..], c)
  }

  /** What they take out of it, in order, to a receiver or to be released. */
  function Taken(literal: set<Ptr>, w: World, steps: seq<Step>, c: nat): seq<Ptr>
    requires Run(literal, w, steps)
    decreases |steps|
  {
    if steps == [] then []
    else
      (if (steps[0].Receive? || steps[0].FreeOne?) && steps[0].c == c then [w.chans[c].items[0]] else [])
      + Taken(literal, Apply(literal, w, steps[0]), steps[1..], c)
  }

  lemma StepQueues(literal: set<Ptr>, w: World, step: Step, c: nat)
    requires Enabled(literal, w, step) && c < |w.chans|
    ensures var w' := Apply(literal, w, step);
      && c < |w'.chans|
      && (if (step.Receive? || step.FreeOne?) && step.c == c then [w.chans[c].items[0]] else []) + w'.chans[c].items
         == w.chans[c].items + (if step.SendAccept? && step.c == c then [step.p] else [])
  {
    var w' := Apply(literal, w, step);
    if (step.Receive? || step.FreeOne?) && step.c == c {
      assert w.chans[c].items == [w.chans[c].items[0]] + w.chans[c].items[1..];
    } else if !(step.SendAccept? && step.c == c) {
      assert w'.chans[c].items == w.chans[c].items;
    }
  }

  /** A channel is a queue: what was in it and what came in is what went out, in that order, and what is in it. */
  lemma {:induction false} FirstInFirstOut(literal: set<Ptr>, w: World, steps: seq<Step>, c: nat)
    requires Run(literal, w, steps) && c < |w.chans|
    ensures var e := End(literal, w, steps);
      c < |e.chans| && Taken(literal, w, steps, c) + e.chans[c].items == w.chans[c].items + Accepted(steps, c)
    decreases |steps|
  {
    if steps != [] {
      var w' := Apply(literal, w, steps[0]);
      StepQueues(literal, w, steps[0], c);
      FirstInFirstOut(literal, w', steps[1..], c);
      var out := if (steps[0].Receive? || steps[0].FreeOne?) && steps[0].c == c then [w.chans[c].items[0]] else [];
      var came := if steps[0].SendAccept? && steps[0].c == c then [steps[0].p] else [];
      var e := End(literal, w, steps);
      Regroup(out, Taken(literal, w', steps[1..], c), e.chans[c].items, w'.chans[c].items, w.chans[c].items, came,
              Accepted(steps[1..], c));
    }
  }

  lemma Regroup(out: seq<Ptr>, taken: seq<Ptr>, left: seq<Ptr>, mid: seq<Ptr>, items: seq<Ptr>, came: seq<Ptr>, later: seq<Ptr>)
    requires out + mid == items + came && taken + left == mid + later
    ensures (out + taken) + left == items + (came + later)
  {
    assert (out + taken) + left == out + (taken + left);
    assert out + (mid + later) == (out + mid) + later;
    assert (items + came) + later == items + (came + later);
  }

  /** Nothing about a channel but its queue changes, except that it may be closed and then freed. */
  ghost predicate Ages(a: Chan, b: Chan) {
    b.bounded == a.bounded && b.cap == a.cap && (a.closed ==> b.closed) && (a.freeing ==> b.freeing)
  }

  lemma {:induction false} RunAges(literal: set<Ptr>, w: World, steps: seq<Step>, c: nat)
    requires Run(literal, w, steps) && c < |w.chans|
    ensures var e := End(literal, w, steps); c < |e.chans| && Ages(w.chans[c], e.chans[c])
    decreases |steps|
  {
    if steps != [] {
      StepAges(literal, w, steps[0], c);
      hide Apply, Enabled;
      RunAges(literal, Apply(literal, w, steps[0]), steps[1..], c);
    }
  }

  lemma StepAges(literal: set<Ptr>, w: World, step: Step, c: nat)
    requires Enabled(literal, w, step) && c < |w.chans|
    ensures c < |Apply(literal, w, step).chans| && Ages(w.chans[c], Apply(literal, w, step).chans[c])
  {
  }

  /** A closed channel accepts nothing any more; what is queued can still be received. */
  lemma CloseIsFinal(literal: set<Ptr>, w: World, c: nat, steps: seq<Step>, p: Ptr)
    requires Enabled(literal, w, Close(c)) && Run(literal, Apply(literal, w, Close(c)), steps)
    ensures var e := End(literal, Apply(literal, w, Close(c)), steps);
      && !Enabled(literal, e, SendAccept(c, p))
      && (Enabled(literal, e, Receive(c)) <==> Open(e, c) && e.chans[c].items != [])
  {
    RunAges(literal, Apply(literal, w, Close(c)), steps, c);
  }

  /** A freed channel is used by nobody any more; its queue is only released. */
  lemma FreeIsFinal(literal: set<Ptr>, w: World, c: nat, steps: seq<Step>, p: Ptr)
    requires Enabled(literal, w, FreeBegin(c)) && Run(literal, Apply(literal, w, FreeBegin(c)), steps)
    ensures var e := End(literal, Apply(literal, w, FreeBegin(c)), steps);
      && !Enabled(literal, e, SendAccept(c, p)) && !Enabled(literal, e, Receive(c))
      && c < |e.chans| && (Enabled(literal, e, FreeOne(c)) <==> e.chans[c].items != [])
  {
    RunAges(literal, Apply(literal, w, FreeBegin(c)), steps, c);
  }

  ghost predicate Fits(w: World) {
    forall c :: 0 <= c < |w.chans| && w.chans[c].bounded ==> |w.chans[c].items| <= w.chans[c].cap
  }

  /** A bounded channel never holds more than its capacity. */
  lemma {:induction false} CapacityIsKept(literal: set<Ptr>, w: World, steps: seq<Step>)
    requires Run(literal, w, steps) && Fits(w)
    ensures Fits(End(literal, w, steps))
    decreases |steps|
  {
    if steps != [] { CapacityIsKept(literal, Apply(literal, w, steps[0]), steps[1..]); }
  }
}
