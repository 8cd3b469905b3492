/**
 The module resolver's depth-first search: module states, the active stack, the circular-import
 error with its chain, and the topological order.
 */
module ModuleResolver {
  type Key = string

  /** What the resolver finds under a key: a parsed module with its imports in order, or a source
   that does not parse. A key with no entry is a file that cannot be read. */
  datatype Source = Parsed(imports: seq<Key>) | Unparsable

  datatype Phase = Parsing | Resolved | Failed

  datatype Outcome =
    | Done
    | Circular(chain: seq<Key>)
    | ParseError(key: Key)
    | Unreadable(key: Key)
    | PreviouslyFailed(key: Key)

  // ----------------------------------------------------------------------- import graph

  predicate Imports(g: map<Key, Source>, a: Key, b: Key) {
    a in g && g[a].Parsed? && b in g[a].imports
  }

  /** A chain of modules, each importing the next. */
  predicate Path(g: map<Key, Source>, p: seq<Key>) {
    p != [] && (forall i :: 0 <= i < |p| - 1 ==> Imports(g, p[i], p[i + 1]))
  }

  ghost predicate Reaches(g: map<Key, Source>, a: Key, b: Key) {
    exists p :: Path(g, p) && p[0] == a && p[|p| - 1] == b
  }

  /** A chain that starts and ends at the same module. */
  predicate Cycle(g: map<Key, Source>, p: seq<Key>) {
    Path(g, p) && |p| >= 2 && p[0] == p[|p| - 1]
  }

  predicate Broken(g: map<Key, Source>, k: Key) { k !in g || g[k].Unparsable? }

  ghost predicate OnCycle(g: map<Key, Source>, k: Key) { exists p :: Cycle(g, p) && p[0] == k }

  /** Something `k` needs is broken or imports itself. */
  ghost predicate Doomed(g: map<Key, Source>, k: Key) {
    exists m :: Reaches(g, k, m) && (Broken(g, m) || OnCycle(g, m))
  }

  lemma ReachesSelf(g: map<Key, Source>, a: Key)
    ensures Reaches(g, a, a)
  {
    assert Path(g, [a]);
  }

  lemma ReachesStep(g: map<Key, Source>, a: Key, b: Key, c: Key)
    requires Imports(g, a, b) && Reaches(g, b, c)
    ensures Reaches(g, a, c)
  {
    var p :| Path(g, p) && p[0] == b && p[|p| - 1] == c;
    var q := [a] + p;
    assert forall i :: 0 < i < |q| - 1 ==> q[i] == p[i - 1] && q[i + 1] == p[i];
    assert Path(g, q) && q[0] == a && q[|q| - 1] == c;
  }

  lemma DoomedStep(g: map<Key, Source>, a: Key, b: Key)
    requires Imports(g, a, b) && Doomed(g, b)
    ensures Doomed(g, a)
  {
    var m :| Reaches(g, b, m) && (Broken(g, m) || OnCycle(g, m));
    ReachesStep(g, a, b, m);
  }

  /** Each entry comes after everything it imports, and no entry comes twice. */
  predicate ImportsFirst(g: map<Key, Source>, order: seq<Key>) {
    forall i {:trigger order[i]} :: 0 <= i < |order| ==>
      && order[i] in g && g[order[i]].Parsed?
      && order[i] !in order[..i]
      && (forall b :: b in g[order[i]].imports ==> b in order[..i])
  }

  lemma PathTail(g: map<Key, Source>, p: seq<Key>)
    requires Path(g, p) && |p| > 1
    ensures Path(g, p[1..])
  {
    var q := p[1..];
    forall i | 0 <= i < |q| - 1 ensures Imports(g, q[i], q[i + 1]) {
      assert q[i] == p[i + 1] && q[i + 1] == p[i + 1 + 1];
    }
  }

  /** Along a path the place in the order goes strictly down. */
  lemma {:induction false} PathDescends(g: map<Key, Source>, order: seq<Key>, p: seq<Key>, i: nat)
    requires ImportsFirst(g, order) && Path(g, p) && i < |order| && p[0] == order[i]
    ensures p[|p| - 1] in order[..i + 1]
    ensures |p| > 1 ==> p[|p| - 1] in order[..i]
    decreases |p|
  {
    if |p| > 1 {
      assert Imports(g, p[0], p[1]);
      var j :| 0 <= j < i && order[..i][j] == p[1];
      var q := p[1..];
      PathTail(g, p);
      PathDescends(g, order, q, j);
      var n :| 0 <= n < j + 1 && order[..j + 1][n] == q[|q| - 1];
      assert order[..i][n] == p[|p| - 1];
    } else {
      assert order[..i + 1][i] == p[0];
    }
  }

  /** An order with the imports first holds whatever its members reach, and nothing in it is doomed. */
  lemma OrderedIsSound(g: map<Key, Source>, order: seq<Key>, k: Key)
    requires ImportsFirst(g, order) && k in order
    ensures forall m :: Reaches(g, k, m) ==> m in order
    ensures !Doomed(g, k)
  {
    var i :| 0 <= i < |order| && order[i] == k;
    forall m | Reaches(g, k, m) ensures m in order && !Broken(g, m) && !OnCycle(g, m) {
      var p :| Path(g, p) && p[0] == k && p[|p| - 1] == m;
      PathDescends(g, order, p, i);
      var j :| 0 <= j < i + 1 && order[..i + 1][j] == m;
      assert order[j] == m;
      if OnCycle(g, m) {
        var c :| Cycle(g, c) && c[0] == m;
        PathDescends(g, order, c, j);
        assert false;
      }
    }
  }

  // ----------------------------------------------------------------- states of the search

  datatype Search = Search(phase: map<Key, Phase>, active: seq<Key>, order: seq<Key>)

  predicate In(s: Search, k: Key, ph: Phase) { k in s.phase && s.phase[k] == ph }

  /** The stack is a chain of imports without repeats and holds exactly the modules being parsed. */
  ghost predicate StackOk(g: map<Key, Source>, s: Search) {
    && (forall i {:trigger s.active[i]} :: 0 <= i < |s.active| ==> s.active[i] !in s.active[..i])
    && (s.active != [] ==> Path(g, s.active))
    && (forall k :: k in s.active <==> In(s, k, Parsing))
  }

  /** The order holds exactly the resolved modules, imports first. */
  ghost predicate OrderOk(g: map<Key, Source>, s: Search) {
    && ImportsFirst(g, s.order)
    && (forall k :: k in s.order <==> In(s, k, Resolved))
  }

  ghost predicate Consistent(g: map<Key, Source>, s: Search) {
    && s.phase.Keys <= g.Keys
    && StackOk(g, s) && OrderOk(g, s)
    && (forall k :: In(s, k, Failed) ==> Doomed(g, k))
  }

  /** `k` may be asked for next: the module on top of the stack imports it. */
  predicate Asked(g: map<Key, Source>, s: Search, k: Key) {
    s.active != [] ==> Imports(g, s.active[|s.active| - 1], k)
  }

  /** An error names something `k` needs: a real cycle, a broken module, or one that failed before. */
  ghost predicate Explained(g: map<Key, Source>, k: Key, s: Search, r: Outcome) {
    match r
    case Done => true
    case Circular(chain) => Cycle(g, chain) && Reaches(g, k, chain[0])
    case ParseError(m) => m in g && g[m].Unparsable? && Reaches(g, k, m)
    case Unreadable(m) => m !in g && Reaches(g, k, m)
    case PreviouslyFailed(m) => In(s, m, Failed) && Reaches(g, k, m)
  }

  /** What changes from `s` to `s'` while `k` is resolved: only modules `k` needs join the order, and
   settled modules stay settled. */
  ghost predicate Extends(g: map<Key, Source>, k: Key, s: Search, s': Search) {
    && s.order <= s'.order && (forall m :: m in s'.order ==> m in s.order || Reaches(g, k, m))
    && s.phase.Keys <= s'.phase.Keys
    && (forall m :: In(s, m, Failed) ==> In(s', m, Failed))
  }

  /** The answer for `k`: success exactly when nothing it needs is broken or cyclic. */
  ghost predicate Answers(g: map<Key, Source>, k: Key, s: Search, s': Search, r: Outcome) {
    && Extends(g, k, s, s') && Explained(g, k, s, r)
    && (r.Done? <==> !Doomed(g, k))
    && (r.Done? ==> In(s', k, Resolved) && (forall m :: In(s', m, Failed) ==> In(s, m, Failed)))
  }

  lemma EnterKeeps(g: map<Key, Source>, s: Search, k: Key)
    requires Consistent(g, s) && Asked(g, s, k) && k in g && k !in s.phase
    ensures Consistent(g, Search(s.phase[k := Parsing], s.active + [k], s.order))
  {
    hide Doomed, ImportsFirst;
    var s' := Search(s.phase[k := Parsing], s.active + [k], s.order);
    PushKeeps(g, s, k);
    assert forall m :: In(s', m, Resolved) <==> In(s, m, Resolved);
    assert forall m :: In(s', m, Failed) <==> In(s, m, Failed);
  }

  lemma PushKeeps(g: map<Key, Source>, s: Search, k: Key)
    requires StackOk(g, s) && Asked(g, s, k) && k !in s.phase
    ensures StackOk(g, Search(s.phase[k := Parsing], s.active + [k], s.order))
  {
    var s' := Search(s.phase[k := Parsing], s.active + [k], s.order);
    assert forall i :: 0 <= i < |s.active| ==> s'.active[..i] == s.active[..i];
    assert s'.active[..|s.active|] == s.active;
    assert forall m :: In(s', m, Parsing) <==> In(s, m, Parsing) || m == k;
    assert !In(s, k, Parsing);
  }

  /** Popping the stack, whatever phase the popped module goes to. */
  lemma PopKeeps(g: map<Key, Source>, s: Search, ph: Phase, order: seq<Key>)
    requires StackOk(g, s) && s.active != [] && ph != Parsing
    ensures StackOk(g, Search(s.phase[s.active[|s.active| - 1] := ph], s.active[..|s.active| - 1], order))
  {
    var n := |s.active| - 1;
    var k := s.active[n];
    var s' := Search(s.phase[k := ph], s.active[..n], order);
    PopUnique(s.active);
    if n > 0 { PathInit(g, s.active); }
    hide Path;
    assert forall m :: In(s', m, Parsing) <==> In(s, m, Parsing) && m != k;
  }

  /** A stack without repeats, popped, holds all but its top, without repeats. */
  lemma PopUnique(a: seq<Key>)
    requires a != [] && forall i {:trigger a[i]} :: 0 <= i < |a| ==> a[i] !in a[..i]
    ensures var b := a[..|a| - 1]; forall i {:trigger b[i]} :: 0 <= i < |b| ==> b[i] !in b[..i]
    ensures forall m :: m in a[..|a| - 1] <==> m in a && m != a[|a| - 1]
  {
    var b := a[..|a| - 1];
    forall i | 0 <= i < |b| ensures b[i] !in b[..i] { assert b[..i] == a[..i]; }
    assert a[|a| - 1] !in b;
    forall m | m in a && m != a[|a| - 1] ensures m in b {
      var i :| 0 <= i < |a| && a[i] == m;
      assert b[i] == m;
    }
  }

  lemma PathInit(g: map<Key, Source>, p: seq<Key>)
    requires Path(g, p) && |p| > 1
    ensures Path(g, p[..|p| - 1])
  {
  }

  lemma FailKeeps(g: map<Key, Source>, s: Search)
    requires Consistent(g, s) && s.active != [] && Doomed(g, s.active[|s.active| - 1])
    ensures Consistent(g, Search(s.phase[s.active[|s.active| - 1] := Failed], s.active[..|s.active| - 1], s.order))
  {
    var k := s.active[|s.active| - 1];
    var s' := Search(s.phase[k := Failed], s.active[..|s.active| - 1], s.order);
    PopKeeps(g, s, Failed, s.order);
    assert In(s, k, Parsing);
    assert forall m :: In(s', m, Resolved) <==> In(s, m, Resolved);
    assert forall m :: In(s', m, Failed) <==> In(s, m, Failed) || m == k;
  }

  lemma OrderExtends(g: map<Key, Source>, order: seq<Key>, k: Key)
    requires ImportsFirst(g, order) && k in g && g[k].Parsed? && k !in order
    requires forall b :: b in g[k].imports ==> b in order
    ensures ImportsFirst(g, order + [k])
  {
    var order' := order + [k];
    assert forall i :: 0 <= i < |order| ==> order'[..i] == order[..i];
    assert order'[..|order|] == order;
  }

  lemma CompleteKeeps(g: map<Key, Source>, s: Search)
    requires Consistent(g, s) && s.active != []
    requires var k := s.active[|s.active| - 1]; k in g && g[k].Parsed? && (forall b :: b in g[k].imports ==> b in s.order)
    ensures var k := s.active[|s.active| - 1];
      Consistent(g, Search(s.phase[k := Resolved], s.active[..|s.active| - 1], s.order + [k]))
  {
    hide ImportsFirst, Doomed;
    var k := s.active[|s.active| - 1];
    var s' := Search(s.phase[k := Resolved], s.active[..|s.active| - 1], s.order + [k]);
    assert In(s, k, Parsing);
    PopKeeps(g, s, Resolved, s.order + [k]);
    OrderExtends(g, s.order, k);
    assert forall m :: In(s', m, Resolved) <==> In(s, m, Resolved) || m == k;
    assert forall m :: In(s', m, Failed) <==> In(s, m, Failed);
  }

  lemma ChainIsCycle(g: map<Key, Source>, active: seq<Key>, from: nat, k: Key)
    requires from < |active| && active[from] == k && Path(g, active) && Imports(g, active[|active| - 1], k)
    ensures Cycle(g, active[from..] + [k])
    ensures Doomed(g, k)
  {
    var chain := active[from..] + [k];
    forall j | 0 <= j < |chain| - 1 ensures Imports(g, chain[j], chain[j + 1]) {
      assert chain[j] == active[from + j];
      if j < |chain| - 2 { assert chain[j + 1] == active[from + j + 1]; }
    }
    ReachesSelf(g, k);
    assert Cycle(g, chain) && chain[0] == k;
  }

  /** The turn for one more import: `k` has resolved the imports before it and now has `b`'s answer. */
  lemma ImportAnswers(g: map<Key, Source>, k: Key, b: Key, s: Search, s1: Search, s2: Search, r: Outcome)
    requires Imports(g, k, b) && Extends(g, k, s, s1) && Answers(g, b, s1, s2, r)
    requires Consistent(g, s2) && (forall m :: In(s1, m, Failed) ==> In(s, m, Failed))
    ensures Extends(g, k, s, s2) && s1.order <= s2.order && s1.phase.Keys <= s2.phase.Keys
    ensures r.Done? ==> b in s2.order
    ensures r.Done? ==> forall m :: In(s2, m, Failed) ==> In(s, m, Failed)
    ensures !r.Done? ==> Doomed(g, k) && Explained(g, k, s, r)
  {
    forall m | Reaches(g, b, m) ensures Reaches(g, k, m) { ReachesStep(g, k, b, m); }
    if !r.Done? {
      DoomedStep(g, k, b);
      if r.Circular? { assert Reaches(g, b, r.chain[0]); }
    }
  }

  lemma StackTop(g: map<Key, Source>, s: Search)
    requires Consistent(g, s) && s.active != []
    ensures In(s, s.active[|s.active| - 1], Parsing)
  {
  }

  lemma ExtendsRefl(g: map<Key, Source>, k: Key, s: Search)
    ensures Extends(g, k, s, s)
  {
  }

  lemma BrokenIsDoomed(g: map<Key, Source>, k: Key)
    requires Broken(g, k)
    ensures Doomed(g, k) && Reaches(g, k, k)
  {
    ReachesSelf(g, k);
  }

  lemma BrokenAnswers(g: map<Key, Source>, k: Key, s: Search, s': Search, r: Outcome)
    requires (k !in g && r == Unreadable(k)) || (k in g && g[k].Unparsable? && r == ParseError(k))
    requires s' == s || (k !in s.phase && s' == Search(s.phase[k := Parsing][k := Failed], s.active, s.order))
    ensures Answers(g, k, s, s', r)
  {
    BrokenIsDoomed(g, k);
  }

  lemma ResolvedAnswers(g: map<Key, Source>, k: Key, s: Search)
    requires Consistent(g, s) && In(s, k, Resolved)
    ensures Answers(g, k, s, s, Done)
  {
    OrderedIsSound(g, s.order, k);
  }

  lemma ActiveAnswers(g: map<Key, Source>, k: Key, s: Search, from: nat)
    requires Consistent(g, s) && Asked(g, s, k) && from < |s.active| && s.active[from] == k
    ensures Answers(g, k, s, s, Circular(s.active[from..] + [k]))
  {
    ChainIsCycle(g, s.active, from, k);
    ReachesSelf(g, k);
  }

  lemma FailedAnswers(g: map<Key, Source>, k: Key, s: Search)
    requires Consistent(g, s) && In(s, k, Failed)
    ensures Answers(g, k, s, s, PreviouslyFailed(k))
  {
    ReachesSelf(g, k);
  }

  /** An answer given after `k` was entered is an answer from before. */
  lemma EnteredAnswers(g: map<Key, Source>, k: Key, s: Search, s1: Search, s2: Search, r: Outcome)
    requires k !in s.phase && s1 == Search(s.phase[k := Parsing], s.active + [k], s.order)
    requires Answers(g, k, s1, s2, r)
    ensures Answers(g, k, s, s2, r)
  {
    assert forall m :: In(s1, m, Failed) <==> In(s, m, Failed);
  }

  lemma FailedImportAnswers(g: map<Key, Source>, k: Key, s: Search, s2: Search, s3: Search, r: Outcome)
    requires Extends(g, k, s, s2) && s3.phase == s2.phase[k := Failed] && s3.order == s2.order
    requires !r.Done? && Doomed(g, k) && Explained(g, k, s, r)
    ensures Answers(g, k, s, s3, r)
  {
  }

  lemma CompleteAnswers(g: map<Key, Source>, k: Key, s: Search, s2: Search, s3: Search)
    requires Extends(g, k, s, s2) && s3.phase == s2.phase[k := Resolved] && s3.order == s2.order + [k]
    requires Consistent(g, s3) && In(s, k, Parsing) && In(s2, k, Parsing)
    requires forall m :: In(s2, m, Failed) ==> In(s, m, Failed)
    ensures Answers(g, k, s, s3, Done)
  {
    ReachesSelf(g, k);
    assert In(s3, k, Resolved);
    OrderedIsSound(g, s3.order, k);
  }

  // ------------------------------------------------------------------------- the search

  class Resolver {
    const g: map<Key, Source>
    var phase: map<Key, Phase>
    var active: seq<Key>
    var order: seq<Key>

    ghost function View(): Search
      reads this
    {
      Search(phase, active, order)
    }

    ghost predicate Valid()
      reads this
    {
      Consistent(g, View())
    }

    constructor (g: map<Key, Source>)
      ensures Valid() && this.g == g && View() == Search(map[], [], [])
    {
      this.g, phase, active, order := g, map[], [], [];
    }

    /** The part of the active stack from `k` on, closed with `k` again. */
    method Chain(k: Key) returns (chain: seq<Key>)
      requires k in active
      ensures exists from: nat :: from < |active| && active[from] == k && chain == active[from..] + [k]
    {
      chain := [];
      var inCycle, i := false, 0;
      ghost var from: nat := 0;
      while i < |active|
        invariant 0 <= i <= |active|
        invariant inCycle <==> k in active[..i]
        invariant inCycle ==> from < i && active[from] == k && chain == active[from..i]
        invariant !inCycle ==> chain == []
      {
        if active[i] == k && !inCycle {
          from := i;
          inCycle := true;
        }
        if inCycle {
          chain := chain + [active[i]];
        }
        i := i + 1;
      }
      assert active[..i] == active && active[from..i] == active[from..];
      chain := chain + [k];
    }

    /** Resolve one module: the answer is exact, and the stack is as it was. */
    method Resolve(k: Key) returns (r: Outcome)
      requires Valid() && Asked(g, View(), k)
      modifies this
      ensures Valid() && active == old(active)
      ensures Answers(g, k, old(View()), View(), r)
      decreases g.Keys - phase.Keys, 0
    {
      hide Answers, Doomed;
      if k !in g {
        BrokenAnswers(g, k, View(), View(), Unreadable(k));
        return Unreadable(k);
      }
      if k in phase {
        match phase[k]
        case Resolved =>
          ResolvedAnswers(g, k, View());
          return Done;
        case Parsing =>
          assert In(View(), k, Parsing);
          var chain := Chain(k);
          ghost var from: nat :| from < |active| && active[from] == k && chain == active[from..] + [k];
          ActiveAnswers(g, k, View(), from);
          return Circular(chain);
        case Failed =>
          FailedAnswers(g, k, View());
          return PreviouslyFailed(k);
      }
      Enter(k);
      if g[k].Unparsable? {
        BrokenIsDoomed(g, k);
        Leave(k);
        BrokenAnswers(g, k, old(View()), View(), ParseError(k));
        return ParseError(k);
      }
      ghost var s := View();
      assert k in g.Keys - old(phase).Keys && k !in g.Keys - phase.Keys;
      r := ResolveImports(k);
      EnteredAnswers(g, k, old(View()), s, View(), r);
    }

    /** The import loop of a module that has just been entered. */
    method ResolveImports(k: Key) returns (r: Outcome)
      requires Valid() && active != [] && active[|active| - 1] == k && k in g && g[k].Parsed?
      modifies this
      ensures Valid() && active == old(active)[..|old(active)| - 1]
      ensures Answers(g, k, old(View()), View(), r)
      decreases g.Keys - phase.Keys, 1
    {
      hide Answers, Extends, Doomed, Consistent;
      var imports := g[k].imports;
      ghost var s := View();
      ExtendsRefl(g, k, s);
      var i := 0;
      while i < |imports|
        invariant 0 <= i <= |imports|
        invariant Valid() && active == old(active) && Extends(g, k, s, View())
        invariant phase.Keys >= old(phase).Keys
        invariant forall m :: In(View(), m, Failed) ==> In(s, m, Failed)
        invariant forall j :: 0 <= j < i ==> imports[j] in order
      {
        ghost var s1 := View();
        assert g.Keys - phase.Keys <= g.Keys - old(phase).Keys;
        r := Resolve(imports[i]);
        ImportAnswers(g, k, imports[i], s, s1, View(), r);
        if !r.Done? {
          ghost var s2 := View();
          Leave(k);
          FailedImportAnswers(g, k, s, s2, View(), r);
          return;
        }
        i := i + 1;
      }
      r := Done;
      ghost var s2 := View();
      Complete(k);
      StackTop(g, s);
      StackTop(g, s2);
      CompleteAnswers(g, k, s, s2, View());
    }

    method Enter(k: Key)
      requires Valid() && Asked(g, View(), k) && k in g && k !in phase
      modifies this
      ensures Valid() && View() == Search(old(phase)[k := Parsing], old(active) + [k], old(order))
    {
      EnterKeeps(g, View(), k);
      phase := phase[k := Parsing];
      active := active + [k];
    }

    /** The exception path: the module is marked failed and leaves the stack. */
    method Leave(k: Key)
      requires Valid() && active != [] && active[|active| - 1] == k && Doomed(g, k)
      modifies this
      ensures Valid() && View() == Search(old(phase)[k := Failed], old(active)[..|old(active)| - 1], old(order))
    {
      FailKeeps(g, View());
      phase := phase[k := Failed];
      active := active[..|active| - 1];
    }

    /** The success path. */
    method Complete(k: Key)
      requires Valid() && active != [] && active[|active| - 1] == k && k in g && g[k].Parsed?
      requires forall b :: b in g[k].imports ==> b in order
      modifies this
      ensures Valid()
      ensures View() == Search(old(phase)[k := Resolved], old(active)[..|old(active)| - 1], old(order) + [k])
    {
      CompleteKeeps(g, View());
      phase := phase[k := Resolved];
      order := order + [k];
      active := active[..|active| - 1];
    }
  }

  // ------------------------------------------------------------------ what an answer means

  const EMPTY: Search := Search(map[], [], [])

  /** A first resolution that succeeds orders exactly the modules the root needs, imports first and
   without repeats; it succeeds exactly when nothing needed is broken or cyclic. */
  lemma FirstResolution(g: map<Key, Source>, root: Key, s': Search, r: Outcome)
    requires Consistent(g, s') && Answers(g, root, EMPTY, s', r)
    ensures r.Done? <==> forall m :: Reaches(g, root, m) ==> !Broken(g, m) && !OnCycle(g, m)
    ensures r.Done? ==> ImportsFirst(g, s'.order) && (forall m :: m in s'.order <==> Reaches(g, root, m))
  {
    if r.Done? {
      assert root in s'.order;
      OrderedIsSound(g, s'.order, root);
    }
  }

  /** A circular-import error names a cycle the root needs. A needed cycle always stops the resolution,
   and with that error if every needed module can be read and parsed; else a broken one may come first. */
  lemma CircularExactly(g: map<Key, Source>, root: Key, s': Search, r: Outcome)
    requires Answers(g, root, EMPTY, s', r)
    ensures r.Circular? ==> Cycle(g, r.chain) && Reaches(g, root, r.chain[0])
    ensures (exists c :: Cycle(g, c) && Reaches(g, root, c[0])) ==> !r.Done?
    ensures (forall m :: Reaches(g, root, m) ==> !Broken(g, m)) ==>
      && (r.Circular? || r.Done?)
      && (r.Circular? <==> exists c :: Cycle(g, c) && Reaches(g, root, c[0]))
  {
    if r.Done? {
      forall c | Cycle(g, c) ensures !Reaches(g, root, c[0]) {
        assert OnCycle(g, c[0]);
      }
    }
  }
}
