/**
 The integer evaluator's grammar as productions over token lists, each with the rule for its value.
 No tree and no parser occurs in it.
 */
module MacroDerivation {
  import opened Seqs
  import opened Precedence
  import opened MacroExpr

  /** The production each binary operator of section 6.5 of ISO C belongs to, and its value from the
   values left and right of it. */
  ghost predicate Rule(m: Meaning, l: nat, op: Sym, x: int, y: int, v: int) {
    match op
    case Bar => l == 1 && v == m.bin(Bar, x, y)
    case Caret => l == 2 && v == m.bin(Caret, x, y)
    case Amp => l == 3 && v == m.bin(Amp, x, y)
    case Shl => l == 4 && v == m.bin(Shl, x, y)
    case Shr => l == 4 && v == m.bin(Shr, x, y)
    case Plus => l == 5 && v == m.bin(Plus, x, y)
    case Minus => l == 5 && v == m.bin(Minus, x, y)
    case Star => l == 6 && v == m.bin(Star, x, y)
    case Slash => l == 6 && y != 0 && v == m.bin(Slash, x, y)
    case Percent => l == 6 && y != 0 && v == m.bin(Percent, x, y)
    case _ => false
  }

  /** `s` is an expression of level `l`, 7 being the unary one, and its value is `v`. */
  ghost predicate Derives(m: Meaning, l: nat, s: seq<Tok>, v: int)
    requires 1 <= l <= 7
    decreases |s|, 7 - l, 1
  {
    if l < 7 then Derives(m, l + 1, s, v) || exists i :: 0 <= i < |s| && Splits(m, l, s, i, v)
    else
      || (|s| == 1 && s[0].Word? && (m.literal(s[0].text) == Some(v)
                                     || (m.literal(s[0].text).None? && s[0].text in m.env && v == m.env[s[0].text])))
      || (Starts(s, Plus) && Derives(m, 7, s[1..], v))
      || (Starts(s, Minus) && exists x :: Derives(m, 7, s[1..], x) && v == m.un(Minus, x))
      || (Starts(s, Tilde) && exists x :: Derives(m, 7, s[1..], x) && v == m.un(Tilde, x))
      || (|s| >= 2 && Starts(s, LParen) && s[|s| - 1] == Op(RParen) && Derives(m, 1, s[1..|s| - 1], v))
  }

  /** The operator at place `i` has an expression of its own level on its left and a tighter one on its right. */
  ghost predicate Splits(m: Meaning, l: nat, s: seq<Tok>, i: nat, v: int)
    requires 1 <= l < 7 && i < |s|
    decreases |s|, 7 - l, 0
  {
    s[i].Op? && exists x, y :: Derives(m, l, s[..i], x) && Derives(m, l + 1, s[i + 1..], y) && Rule(m, l, s[i].sym, x, y, v)
  }

  // --------------------------------------------------------------- trees and derivations

  lemma RuleIsValue(m: Meaning, l: nat, op: Sym, x: int, y: int, v: int)
    requires 1 <= l < 7
    ensures At(INT, l, op) && BinValue(m, op, x, y) == Some(v) <==> Rule(m, l, op, x, y, v)
  {
  }

  /** `s` are the tokens of `e`. */
  ghost predicate Spells(e: Expr, s: seq<Tok>) { forall k :: Print(e, k) == s + k }

  lemma SpellsBin(op: Sym, left: Expr, right: Expr, a: seq<Tok>, b: seq<Tok>)
    requires Spells(left, a) && Spells(right, b)
    ensures Spells(Bin(op, left, right), a + [Op(op)] + b)
  {
    forall k ensures Print(Bin(op, left, right), k) == a + [Op(op)] + b + k {
      assert a + ([Op(op)] + (b + k)) == a + [Op(op)] + b + k;
    }
  }

  lemma SpellsUn(op: Sym, arg: Expr, a: seq<Tok>)
    requires Spells(arg, a)
    ensures Spells(Un(op, arg), [Op(op)] + a)
  {
    forall k ensures Print(Un(op, arg), k) == [Op(op)] + a + k { assert [Op(op)] + (a + k) == [Op(op)] + a + k; }
  }

  lemma SpellsParen(inner: Expr, a: seq<Tok>)
    requires Spells(inner, a)
    ensures Spells(Paren(inner), [Op(LParen)] + a + [Op(RParen)])
  {
    forall k ensures Print(Paren(inner), k) == [Op(LParen)] + a + [Op(RParen)] + k {
      assert [Op(LParen)] + (a + ([Op(RParen)] + k)) == [Op(LParen)] + a + [Op(RParen)] + k;
    }
  }

  /** The tokens of a tree that fits and has a value derive that value. */
  lemma {:induction false} TreeDerives(m: Meaning, l: nat, e: Expr, v: int) returns (s: seq<Tok>)
    requires 1 <= l <= 7 && Fits(INT, l, e) && Value(m, e) == Some(v)
    ensures Derives(m, l, s, v) && Spells(e, s)
    decreases e, 7 - l, 1
  {
    hide Spells, BinValue, UnValue, LeafValue;
    if l == 7 {
      s := UnaryDerives(m, e, v);
    } else if e.Bin? && At(INT, l, e.sym) {
      var x, y := Value(m, e.left).value, Value(m, e.right).value;
      hide Derives;
      var a := TreeDerives(m, l, e.left, x);
      var b := TreeDerives(m, l + 1, e.right, y);
      RuleIsValue(m, l, e.sym, x, y, v);
      s := a + [Op(e.sym)] + b;
      Split(m, l, a, e.sym, b, x, y, v);
      SpellsBin(e.sym, e.left, e.right, a, b);
    } else {
      s := TreeDerives(m, l + 1, e, v);
    }
  }

  lemma Split(m: Meaning, l: nat, a: seq<Tok>, op: Sym, b: seq<Tok>, x: int, y: int, v: int)
    requires 1 <= l < 7 && Derives(m, l, a, x) && Derives(m, l + 1, b, y) && Rule(m, l, op, x, y, v)
    ensures Derives(m, l, a + [Op(op)] + b, v)
  {
    hide Derives, Rule;
    var s := a + [Op(op)] + b;
    assert s[..|a|] == a && s[|a| + 1..] == b && s[|a|] == Op(op);
    assert Splits(m, l, s, |a|, v);
    SplitDerives(m, l, s, |a|, v);
  }

  lemma SplitDerives(m: Meaning, l: nat, s: seq<Tok>, i: nat, v: int)
    requires 1 <= l < 7 && i < |s| && Splits(m, l, s, i, v)
    ensures Derives(m, l, s, v)
  {
    hide Splits;
  }

  lemma {:induction false} UnaryDerives(m: Meaning, e: Expr, v: int) returns (s: seq<Tok>)
    requires Fits(INT, 7, e) && Value(m, e) == Some(v)
    ensures Derives(m, 7, s, v) && Spells(e, s)
    decreases e, 0, 0
  {
    match e
    case Leaf(text) => s := [Word(text)];
    case Un(op, arg) =>
      var x := Value(m, arg).value;
      var a := TreeDerives(m, 7, arg, x);
      s := [Op(op)] + a;
      SpellsUn(op, arg, a);
      hide Spells;
      PrefixDerives(m, op, a, x);
    case Paren(inner) =>
      var a := TreeDerives(m, 1, inner, v);
      s := [Op(LParen)] + a + [Op(RParen)];
      SpellsParen(inner, a);
      hide Spells;
      GroupDerives(m, a, v);
  }

  lemma PrefixDerives(m: Meaning, op: Sym, a: seq<Tok>, x: int)
    requires Derives(m, 7, a, x) && op in INT.prefix
    ensures Derives(m, 7, [Op(op)] + a, UnValue(m, op, x))
  {
    assert ([Op(op)] + a)[1..] == a;
  }

  lemma GroupDerives(m: Meaning, a: seq<Tok>, v: int)
    requires Derives(m, 1, a, v)
    ensures Derives(m, 7, [Op(LParen)] + a + [Op(RParen)], v)
  {
    var s := [Op(LParen)] + a + [Op(RParen)];
    assert s[1..|s| - 1] == a && s[|s| - 1] == Op(RParen);
  }

  /** A derivation is the print of a tree that fits and has the value. */
  lemma {:induction false} DerivesTree(m: Meaning, l: nat, s: seq<Tok>, v: int) returns (e: Expr)
    requires 1 <= l <= 7 && Derives(m, l, s, v)
    ensures Fits(INT, l, e) && Value(m, e) == Some(v) && Spells(e, s)
    decreases |s|, 7 - l, 1
  {
    hide Spells, Fits, Value;
    if l == 7 {
      e := DerivesUnary(m, s, v);
    } else if Derives(m, l + 1, s, v) {
      e := DerivesTree(m, l + 1, s, v);
      IntOk();
      FitsDown(INT, l, l + 1, e);
    } else {
      var i :| 0 <= i < |s| && Splits(m, l, s, i, v);
      e := DerivesSplit(m, l, s, i, v);
    }
  }

  lemma {:induction false} DerivesSplit(m: Meaning, l: nat, s: seq<Tok>, i: nat, v: int) returns (e: Expr)
    requires 1 <= l < 7 && i < |s| && Splits(m, l, s, i, v)
    ensures Fits(INT, l, e) && Value(m, e) == Some(v) && Spells(e, s)
    decreases |s|, 7 - l, 0
  {
    var x, y :| Derives(m, l, s[..i], x) && Derives(m, l + 1, s[i + 1..], y) && Rule(m, l, s[i].sym, x, y, v);
    hide Derives, Spells;
    var a := DerivesTree(m, l, s[..i], x);
    var b := DerivesTree(m, l + 1, s[i + 1..], y);
    RuleIsValue(m, l, s[i].sym, x, y, v);
    e := Bin(s[i].sym, a, b);
    SpellsBin(s[i].sym, a, b, s[..i], s[i + 1..]);
    assert s == s[..i] + [s[i]] + s[i + 1..];
  }

  lemma {:induction false} DerivesUnary(m: Meaning, s: seq<Tok>, v: int) returns (e: Expr)
    requires Derives(m, 7, s, v)
    ensures Fits(INT, 7, e) && Value(m, e) == Some(v) && Spells(e, s)
    decreases |s|, 0, 0
  {
    assert s == [s[0]] + s[1..];
    if s[0].Word? {
      e := Leaf(s[0].text);
    } else if s[0] == Op(LParen) {
      var a := DerivesTree(m, 1, s[1..|s| - 1], v);
      e := Paren(a);
      FitsWhole(a);
      SpellsParen(a, s[1..|s| - 1]);
      assert s == [Op(LParen)] + s[1..|s| - 1] + [Op(RParen)];
    } else {
      var x := DerivesOperand(m, s, v);
      var a := DerivesTree(m, 7, s[1..], x);
      e := Un(s[0].sym, a);
      SpellsUn(s[0].sym, a, s[1..]);
    }
  }

  lemma DerivesOperand(m: Meaning, s: seq<Tok>, v: int) returns (x: int)
    requires Derives(m, 7, s, v) && s != [] && s[0].Op? && s[0].sym != LParen
    ensures s[0].sym in INT.prefix && Derives(m, 7, s[1..], x) && v == UnValue(m, s[0].sym, x)
  {
    if Starts(s, Plus) { x := v; }
    else if Starts(s, Minus) { x :| Derives(m, 7, s[1..], x) && v == m.un(Minus, x); }
    else { x :| Derives(m, 7, s[1..], x) && v == m.un(Tilde, x); }
  }

  lemma FitsWhole(e: Expr)
    requires Fits(INT, 1, e)
    ensures Fits(INT, 0, e)
  {
    IntOk();
    FitsDown(INT, 0, 1, e);
  }

  // ------------------------------------------------------------------------ the theorems

  /** The evaluator computes `v` if and only if the productions derive it from all the tokens. */
  lemma EvaluateIsDerivation(m: Meaning, toks: seq<Tok>, v: int)
    ensures Evaluate(m, toks) == Some(v) <==> Derives(m, 1, toks, v)
  {
    hide Derives, Fits, Print, Value;
    EvaluateIsExact(m, toks, v);
    if Evaluate(m, toks) == Some(v) {
      var e :| Fits(INT, 0, e) && Print(e, []) == toks && Value(m, e) == Some(v);
      WholeFits(INT, e);
      var s := TreeDerives(m, 1, e, v);
      assert s + [] == s;
    }
    if Derives(m, 1, toks, v) {
      var e := DerivesTree(m, 1, toks, v);
      FitsWhole(e);
      assert toks + [] == toks;
    }
  }

  lemma WholeFits(g: Grammar, e: Expr)
    requires !g.ternary && Fits(g, 0, e)
    ensures Fits(g, 1, e)
  {
  }

  /** What a nonterminal of the parser consumes derives the value of the tree it builds. */
  lemma ParsedDerives(m: Meaning, l: nat, s: seq<Tok>)
    requires 1 <= l <= 7 && Parse(INT, l, s).Some? && Value(m, Parse(INT, l, s).value.0).Some?
    ensures var (e, rest) := Parse(INT, l, s).value;
      |rest| <= |s| && s == s[..|s| - |rest|] + rest && Derives(m, l, s[..|s| - |rest|], Value(m, e).value)
  {
    hide Derives, Fits, Print, Value, Parse;
    var (e, rest) := Parse(INT, l, s).value;
    IntOk();
    ParsedFits(INT, l, s);
    var t := TreeDerives(m, l, e, Value(m, e).value);
    assert s == t + rest by { assert Spells(e, t); }
    assert s[..|s| - |rest|] == t;
  }

  /** Between two literals: the left one comes first, and only a zero divisor has no value. */
  lemma TwoOperands(m: Meaning, a: string, op: Sym, b: string, x: int, y: int)
    requires m.literal(a) == Some(x) && m.literal(b) == Some(y)
    requires op in {Bar, Caret, Amp, Shl, Shr, Plus, Minus, Star, Slash, Percent}
    ensures Evaluate(m, [Word(a), Op(op), Word(b)])
         == if op in {Slash, Percent} && y == 0 then None else Some(m.bin(op, x, y))
  {
    var toks := [Word(a), Op(op), Word(b)];
    var e := Bin(op, Leaf(a), Leaf(b));
    assert Print(e, []) == [Word(a)] + ([Op(op)] + ([Word(b)] + [])) == toks;
    var l := LevelOfInt(op);
    IntOk();
    FitsDown(INT, l, 7, Leaf(a));
    FitsDown(INT, l + 1, 7, Leaf(b));
    FitsDown(INT, 0, l, e);
    ParseIsExact(INT, toks, e);
    assert Value(m, Leaf(a)) == Some(x) && Value(m, Leaf(b)) == Some(y);
  }

  lemma LevelOfInt(op: Sym) returns (l: nat)
    requires op in {Bar, Caret, Amp, Shl, Shr, Plus, Minus, Star, Slash, Percent}
    ensures 1 <= l < 7 && At(INT, l, op)
    ensures forall q :: Together(op, q) ==> At(INT, l, q)
  {
    if op == Bar { l := 1; }
    else if op == Caret { l := 2; }
    else if op == Amp { l := 3; }
    else if op == Shl || op == Shr { l := 4; }
    else if op == Plus || op == Minus { l := 5; }
    else { l := 6; }
  }

  /** Two shifts, two additive operators, or two of any other one that always has a value. */
  predicate Together(p: Sym, q: Sym) {
    || (p in {Shl, Shr} && q in {Shl, Shr})
    || (p in {Plus, Minus} && q in {Plus, Minus})
    || (p in {Bar, Caret, Amp, Star} && q == p)
  }

  /** Operators of one level are taken from the left. */
  lemma LeftToRight(m: Meaning, a: string, p: Sym, b: string, q: Sym, c: string, x: int, y: int, z: int)
    requires m.literal(a) == Some(x) && m.literal(b) == Some(y) && m.literal(c) == Some(z)
    requires Together(p, q)
    ensures Evaluate(m, [Word(a), Op(p), Word(b), Op(q), Word(c)]) == Some(m.bin(q, m.bin(p, x, y), z))
  {
    var toks := [Word(a), Op(p), Word(b), Op(q), Word(c)];
    var left := Bin(p, Leaf(a), Leaf(b));
    var e := Bin(q, left, Leaf(c));
    assert Print(left, [Op(q)] + Print(Leaf(c), [])) == [Word(a)] + ([Op(p)] + ([Word(b)] + ([Op(q)] + ([Word(c)] + []))));
    assert Print(e, []) == toks;
    var l := LevelOfInt(p);
    IntOk();
    FitsDown(INT, l, 7, Leaf(a));
    FitsDown(INT, l + 1, 7, Leaf(b));
    FitsDown(INT, l + 1, 7, Leaf(c));
    FitsDown(INT, 0, l, e);
    ParseIsExact(INT, toks, e);
    ChainValue(m, a, p, b, q, c);
  }

  lemma ChainValue(m: Meaning, a: string, p: Sym, b: string, q: Sym, c: string)
    requires m.literal(a).Some? && m.literal(b).Some? && m.literal(c).Some? && {p, q} !! {Slash, Percent}
    ensures Value(m, Bin(q, Bin(p, Leaf(a), Leaf(b)), Leaf(c)))
         == Some(m.bin(q, m.bin(p, m.literal(a).value, m.literal(b).value), m.literal(c).value))
  {
    assert Value(m, Bin(p, Leaf(a), Leaf(b))) == Some(m.bin(p, m.literal(a).value, m.literal(b).value));
  }

  /** A prefix operator applies to its operand; `+` changes nothing. */
  lemma PrefixOperator(m: Meaning, op: Sym, a: string, x: int)
    requires m.literal(a) == Some(x) && op in {Minus, Plus, Tilde}
    ensures Evaluate(m, [Op(op), Word(a)]) == Some(if op == Plus then x else m.un(op, x))
  {
    var e := Un(op, Leaf(a));
    assert Print(e, []) == [Op(op)] + ([Word(a)] + []) == [Op(op), Word(a)];
    IntOk();
    assert op in INT.prefix && Fits(INT, 7, Leaf(a));
    assert Value(m, Leaf(a)) == Some(x);
    FitsDown(INT, 0, 7, e);
    ParseIsExact(INT, [Op(op), Word(a)], e);
  }
}
