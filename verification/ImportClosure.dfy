/**
 The dependency closure of an import: which of the origin module's declarations and binds travel with
 the names that were asked for.
 */
module ImportClosure {
  import opened Seqs

  type Name = string

  /** A bind as the closure sees it: its self type if that has a name, the types of its signature,
   the methods it provides and the identifiers its body mentions. */
  datatype Bind = Bind(self: Option<Name>, bases: set<Name>, methods: set<Name>, refs: set<Name>)

  /** The origin module: for each declaration the identifiers it mentions, and its binds by key. */
  datatype Origin = Origin(decls: map<Name, set<Name>>, binds: map<Name, Bind>)

  /** What an import carries, and the types those declarations bring into play. */
  datatype Carried = Carried(names: set<Name>, binds: set<Name>, types: set<Name>)

  predicate Below(c: Carried, d: Carried) {
    c.names <= d.names && c.binds <= d.binds && c.types <= d.types
  }

  // ------------------------------------------------------------------- the specification

  /** Everything `refs` mentions is in play, and carried if the module declares it. */
  predicate Absorbed(o: Origin, c: Carried, refs: set<Name>) {
    refs <= c.types && (forall n :: n in refs && n in o.decls ==> n in c.names)
  }

  /** A bind's self type, when it has one and that type is in play, forces the bind. */
  predicate Wanted(b: Bind, types: set<Name>) { b.self.Some? && b.self.value in types }

  /** Closed under references, and under binds of the types in play with their signatures. */
  predicate Closed(o: Origin, c: Carried) {
    && (forall n :: n in c.names && n in o.decls ==> Absorbed(o, c, o.decls[n]))
    && c.binds <= o.binds.Keys
    && (forall k :: k in c.binds ==> Absorbed(o, c, o.binds[k].refs) && o.binds[k].bases <= c.types)
    && (forall k :: k in o.binds && Wanted(o.binds[k], c.types) ==> k in c.binds)
  }

  predicate Seeded(c: Carried, seeds: set<Name>) { seeds <= c.names && seeds <= c.types }

  /** `c` lies below every closed triple over the same seeds. */
  ghost predicate Necessary(o: Origin, seeds: set<Name>, c: Carried) {
    forall d :: Closed(o, d) && Seeded(d, seeds) ==> Below(c, d)
  }

  ghost predicate LeastClosed(o: Origin, seeds: set<Name>, c: Carried) {
    Closed(o, c) && Seeded(c, seeds) && Necessary(o, seeds, c)
  }

  lemma LeastIsUnique(o: Origin, seeds: set<Name>, c: Carried, d: Carried)
    requires LeastClosed(o, seeds, c) && LeastClosed(o, seeds, d)
    ensures c == d
  {
    assert Below(c, d) && Below(d, c);
  }

  // ------------------------------------------------------------- steps of the fixpoint

  /** The walk of one declaration or bind body. */
  function Absorb(o: Origin, c: Carried, refs: set<Name>): Carried {
    Carried(c.names + (set n | n in refs && n in o.decls), c.binds, c.types + refs)
  }

  /** The admission of one bind. */
  function Admit(o: Origin, c: Carried, k: Name): Carried
    requires k in o.binds
  {
    Carried(c.names, c.binds + {k}, c.types + o.binds[k].bases)
  }

  lemma AbsorbDeclNecessary(o: Origin, seeds: set<Name>, c: Carried, n: Name)
    requires Necessary(o, seeds, c) && n in c.names && n in o.decls
    ensures Necessary(o, seeds, Absorb(o, c, o.decls[n]))
  {
    forall d | Closed(o, d) && Seeded(d, seeds) ensures Below(Absorb(o, c, o.decls[n]), d) {
      assert Below(c, d);
      assert Absorbed(o, d, o.decls[n]);
    }
  }

  lemma AbsorbBindNecessary(o: Origin, seeds: set<Name>, c: Carried, k: Name)
    requires Necessary(o, seeds, c) && k in c.binds && k in o.binds
    ensures Necessary(o, seeds, Absorb(o, c, o.binds[k].refs))
  {
    forall d | Closed(o, d) && Seeded(d, seeds) ensures Below(Absorb(o, c, o.binds[k].refs), d) {
      assert Below(c, d);
      assert Absorbed(o, d, o.binds[k].refs);
    }
  }

  lemma AdmitNecessary(o: Origin, seeds: set<Name>, c: Carried, k: Name)
    requires Necessary(o, seeds, c) && k in o.binds && Wanted(o.binds[k], c.types)
    ensures Necessary(o, seeds, Admit(o, c, k))
  {
    forall d | Closed(o, d) && Seeded(d, seeds) ensures Below(Admit(o, c, k), d) {
      assert Below(c, d);
      assert Wanted(o.binds[k], d.types);
    }
  }

  lemma StartNecessary(o: Origin, seeds: set<Name>)
    ensures Necessary(o, seeds, Carried(seeds, {}, seeds))
  {
  }

  // ---------------------------------------------------------------------- the loops

  /** The sets the fixpoint loop keeps between its passes. */
  datatype Walk = Walk(c: Carried, methods: set<Name>, declsWalked: set<Name>, bindsWalked: set<Name>)

  /** The identifiers that some bind provides as a method. */
  function Methods(o: Origin, refs: set<Name>): set<Name> {
    set m | m in refs && exists k :: k in o.binds && m in o.binds[k].methods
  }

  /** Walked declarations and binds stay absorbed; admitted binds have brought their signatures. */
  predicate WalkOk(o: Origin, seeds: set<Name>, w: Walk) {
    && Seeded(w.c, seeds) && w.c.binds <= o.binds.Keys && w.c.names <= o.decls.Keys + seeds
    && w.declsWalked <= w.c.names && w.bindsWalked <= w.c.binds
    && (forall n :: n in w.declsWalked && n in o.decls ==> Absorbed(o, w.c, o.decls[n]))
    && (forall k :: k in w.bindsWalked ==> Absorbed(o, w.c, o.binds[k].refs))
    && (forall k :: k in w.c.binds ==> o.binds[k].bases <= w.c.types)
  }

  /** One pass over the carried declarations that have not been walked. */
  method WalkDecls(o: Origin, seeds: set<Name>, w: Walk) returns (w': Walk, changed: bool)
    requires WalkOk(o, seeds, w) && Necessary(o, seeds, w.c)
    ensures WalkOk(o, seeds, w') && Necessary(o, seeds, w'.c)
    ensures Below(w.c, w'.c) && w'.c.binds == w.c.binds && w'.bindsWalked == w.bindsWalked
    ensures w.c.names <= w'.declsWalked
    ensures changed <==> w.c.names != w'.c.names
  {
    hide Necessary;
    w', changed := w, false;
    var pass := w.c.names;
    while pass != {}
      invariant WalkOk(o, seeds, w') && Necessary(o, seeds, w'.c)
      invariant Below(w.c, w'.c) && w'.c.binds == w.c.binds && w'.bindsWalked == w.bindsWalked
      invariant pass <= w.c.names <= w'.declsWalked + pass
      invariant changed <==> w.c.names != w'.c.names
      decreases pass
    {
      var n :| n in pass;
      pass := pass - {n};
      if n !in w'.declsWalked {
        if n in o.decls {
          AbsorbDeclNecessary(o, seeds, w'.c, n);
          var c := Absorb(o, w'.c, o.decls[n]);
          if c.names != w'.c.names { changed := true; }
          w' := w'.(c := c, methods := w'.methods + Methods(o, o.decls[n]));
        }
        w' := w'.(declsWalked := w'.declsWalked + {n});
      }
    }
  }

  /** One pass over the admitted binds whose bodies have not been walked. */
  method WalkBinds(o: Origin, seeds: set<Name>, w: Walk) returns (w': Walk, changed: bool)
    requires WalkOk(o, seeds, w) && Necessary(o, seeds, w.c)
    ensures WalkOk(o, seeds, w') && Necessary(o, seeds, w'.c)
    ensures Below(w.c, w'.c) && w'.c.binds == w.c.binds && w'.declsWalked == w.declsWalked
    ensures w.c.binds <= w'.bindsWalked
    ensures changed <==> w.c.names != w'.c.names
  {
    hide Necessary;
    w', changed := w, false;
    var pass := w.c.binds;
    while pass != {}
      invariant WalkOk(o, seeds, w') && Necessary(o, seeds, w'.c)
      invariant Below(w.c, w'.c) && w'.c.binds == w.c.binds && w'.declsWalked == w.declsWalked
      invariant pass <= w.c.binds <= w'.bindsWalked + pass
      invariant changed <==> w.c.names != w'.c.names
      decreases pass
    {
      var k :| k in pass;
      pass := pass - {k};
      if k !in w'.bindsWalked {
        AbsorbBindNecessary(o, seeds, w'.c, k);
        var c := Absorb(o, w'.c, o.binds[k].refs);
        if c.names != w'.c.names { changed := true; }
        w' := w'.(c := c, methods := w'.methods + Methods(o, o.binds[k].refs), bindsWalked := w'.bindsWalked + {k});
      }
    }
  }

  /** Admission keeps the walk in order. */
  lemma AdmitKeeps(o: Origin, seeds: set<Name>, w: Walk, k: Name)
    requires WalkOk(o, seeds, w) && k in o.binds
    ensures WalkOk(o, seeds, w.(c := Admit(o, w.c, k)))
  {
  }

  /** What every admission loop does to the walk: binds and types grow, nothing else moves. */
  predicate Admits(w: Walk, w': Walk) {
    && w'.c.names == w.c.names && w.c.binds <= w'.c.binds && w.c.types <= w'.c.types
    && w'.methods == w.methods && w'.declsWalked == w.declsWalked && w'.bindsWalked == w.bindsWalked
  }

  /** One sweep over `keys`, admitting the binds whose self type is in play. */
  method Sweep(o: Origin, seeds: set<Name>, w: Walk, keys: set<Name>) returns (w': Walk, admitted: bool)
    requires WalkOk(o, seeds, w) && Necessary(o, seeds, w.c) && keys <= o.binds.Keys
    ensures WalkOk(o, seeds, w') && Necessary(o, seeds, w'.c) && Admits(w, w')
    ensures admitted <==> w'.c.binds != w.c.binds
    ensures !admitted ==> w' == w && forall k :: k in keys && Wanted(o.binds[k], w.c.types) ==> k in w.c.binds
  {
    hide Necessary, WalkOk;
    w', admitted := w, false;
    var pass := keys;
    while pass != {}
      invariant WalkOk(o, seeds, w') && Necessary(o, seeds, w'.c) && Admits(w, w')
      invariant pass <= keys
      invariant admitted <==> w'.c.binds != w.c.binds
      invariant !admitted ==> w' == w && forall k :: k in keys - pass && Wanted(o.binds[k], w.c.types) ==> k in w.c.binds
      decreases pass
    {
      var k :| k in pass;
      pass := pass - {k};
      if k !in w'.c.binds && Wanted(o.binds[k], w'.c.types) {
        AdmitNecessary(o, seeds, w'.c, k);
        AdmitKeeps(o, seeds, w', k);
        w' := w'.(c := Admit(o, w'.c, k));
        admitted := true;
      }
    }
  }

  /** The admission loop directed by the methods that were mentioned. */
  method AdmitByMethod(o: Origin, seeds: set<Name>, w: Walk) returns (w': Walk)
    requires WalkOk(o, seeds, w) && Necessary(o, seeds, w.c)
    ensures WalkOk(o, seeds, w') && Necessary(o, seeds, w'.c) && Admits(w, w')
  {
    hide Necessary, WalkOk;
    w' := w;
    var admitted := true;
    while admitted
      invariant WalkOk(o, seeds, w') && Necessary(o, seeds, w'.c) && Admits(w, w')
      decreases o.binds.Keys - w'.c.binds, admitted
    {
      admitted := false;
      var pass := w'.methods;
      ghost var from := w';
      while pass != {}
        invariant WalkOk(o, seeds, w') && Necessary(o, seeds, w'.c) && Admits(w, w') && Admits(from, w')
        invariant admitted <==> w'.c.binds != from.c.binds
        decreases pass
      {
        var m :| m in pass;
        pass := pass - {m};
        var keys := set k | k in o.binds && m in o.binds[k].methods;
        var w1, more := Sweep(o, seeds, w', keys);
        w' := w1;
        admitted := admitted || more;
      }
      Shrinks(o, seeds, from, w');
    }
  }

  /** Growing binds shrink what is left to admit. */
  lemma Shrinks(o: Origin, seeds: set<Name>, w: Walk, w': Walk)
    requires WalkOk(o, seeds, w') && Admits(w, w')
    ensures o.binds.Keys - w'.c.binds <= o.binds.Keys - w.c.binds
    ensures w'.c.binds != w.c.binds ==> o.binds.Keys - w'.c.binds < o.binds.Keys - w.c.binds
  {
    if w'.c.binds != w.c.binds {
      var k :| k in w'.c.binds && k !in w.c.binds;
      assert k in o.binds.Keys - w.c.binds && k !in o.binds.Keys - w'.c.binds;
    }
  }

  /** The admission loop directed by the types in play: it leaves no wanted bind behind. */
  method AdmitByType(o: Origin, seeds: set<Name>, w: Walk) returns (w': Walk)
    requires WalkOk(o, seeds, w) && Necessary(o, seeds, w.c)
    ensures WalkOk(o, seeds, w') && Necessary(o, seeds, w'.c) && Admits(w, w')
    ensures forall k :: k in o.binds && Wanted(o.binds[k], w'.c.types) ==> k in w'.c.binds
  {
    hide Necessary, WalkOk;
    w' := w;
    var admitted := true;
    while admitted
      invariant WalkOk(o, seeds, w') && Necessary(o, seeds, w'.c) && Admits(w, w')
      invariant !admitted ==> forall k :: k in o.binds && Wanted(o.binds[k], w'.c.types) ==> k in w'.c.binds
      decreases o.binds.Keys - w'.c.binds, admitted
    {
      ghost var from := w';
      w', admitted := Sweep(o, seeds, w', o.binds.Keys);
      Shrinks(o, seeds, from, w');
    }
  }

  /** The whole fixpoint: it ends, and what it carries is the least closed triple over the seeds. */
  method Closure(o: Origin, seeds: set<Name>) returns (c: Carried)
    ensures LeastClosed(o, seeds, c)
  {
    hide Necessary;
    StartNecessary(o, seeds);
    var w := Walk(Carried(seeds, {}, seeds), {}, {}, {});
    var changed := true;
    while changed
      invariant WalkOk(o, seeds, w) && Necessary(o, seeds, w.c)
      invariant !changed ==> Closed(o, w.c)
      decreases o.decls.Keys + seeds - w.c.names, o.binds.Keys - w.c.binds, changed
    {
      ghost var w0 := w;
      var w1, named := WalkDecls(o, seeds, w);
      var w2, named' := WalkBinds(o, seeds, w1);
      var w3 := AdmitByMethod(o, seeds, w2);
      var w4 := AdmitByType(o, seeds, w3);
      changed := named || named' || w4.c.binds != w2.c.binds;
      Progress(o, seeds, w0, w4);
      if !changed { Settled(o, seeds, w0, w1, w2, w4); }
      w := w4;
    }
    c := w.c;
  }

  lemma Progress(o: Origin, seeds: set<Name>, w: Walk, w': Walk)
    requires WalkOk(o, seeds, w) && WalkOk(o, seeds, w') && Below(w.c, w'.c)
    ensures w.c.names != w'.c.names ==> o.decls.Keys + seeds - w'.c.names < o.decls.Keys + seeds - w.c.names
    ensures w.c.binds != w'.c.binds ==> o.binds.Keys - w'.c.binds < o.binds.Keys - w.c.binds
  {
    if w.c.names != w'.c.names {
      var n :| n in w'.c.names && n !in w.c.names;
      assert n in o.decls.Keys + seeds - w.c.names && n !in o.decls.Keys + seeds - w'.c.names;
    }
    if w.c.binds != w'.c.binds {
      var k :| k in w'.c.binds && k !in w.c.binds;
      assert k in o.binds.Keys - w.c.binds && k !in o.binds.Keys - w'.c.binds;
    }
  }

  /** A pass that changed nothing has walked everything it carries. */
  lemma Settled(o: Origin, seeds: set<Name>, w0: Walk, w1: Walk, w2: Walk, w4: Walk)
    requires WalkOk(o, seeds, w4)
    requires w0.c.names <= w1.declsWalked && w1.c.names == w0.c.names && w1.c.binds == w0.c.binds
    requires w2.declsWalked == w1.declsWalked && w1.c.binds <= w2.bindsWalked && w2.c.names == w1.c.names
    requires Admits(w2, w4) && w4.c.binds == w2.c.binds == w1.c.binds
    requires forall k :: k in o.binds && Wanted(o.binds[k], w4.c.types) ==> k in w4.c.binds
    ensures Closed(o, w4.c)
  {
  }

  // ----------------------------------------------------------------- what it means

  /** Nothing carried mentions a declaration of the module that is not carried. */
  lemma NothingDangles(o: Origin, seeds: set<Name>, c: Carried, n: Name)
    requires LeastClosed(o, seeds, c) && n in o.decls
    requires (exists m :: m in c.names && m in o.decls && n in o.decls[m]) || (exists k :: k in c.binds && n in o.binds[k].refs)
    ensures n in c.names && n in c.types
  {
  }

  /** Which methods a bind provides makes no difference: the method-directed loop admits nothing the
   type-directed one would not. */
  lemma MethodsMakeNoDifference(o: Origin, o': Origin, seeds: set<Name>, c: Carried, c': Carried)
    requires o'.decls == o.decls && o'.binds.Keys == o.binds.Keys
    requires forall k :: k in o.binds ==> o'.binds[k] == o.binds[k].(methods := o'.binds[k].methods)
    requires LeastClosed(o, seeds, c) && LeastClosed(o', seeds, c')
    ensures c == c'
  {
    assert Closed(o, c') && Closed(o', c);
    assert Below(c, c') && Below(c', c);
  }
}
