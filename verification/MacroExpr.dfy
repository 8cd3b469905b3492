/**
 C macro bodies: the integer evaluator for object-like macros and the translator for function-like
 ones, both over the grammar of module Precedence.
 */
module MacroExpr {
  import opened Seqs
  import opened Precedence

  /** The operators of the integer evaluator, loosest first. */
  const INT: Grammar := Grammar(
    [{Bar}, {Caret}, {Amp}, {Shl, Shr}, {Plus, Minus}, {Star, Slash, Percent}],
    {Minus, Plus, Tilde}, false, false)

  /** The operators of the macro translator. */
  const MACRO: Grammar := Grammar(
    [{OrOr}, {AndAnd}, {Bar}, {Caret}, {Amp}, {EqEq, NotEq}, {Lt, Le, Gt, Ge}, {Shl, Shr}, {Plus, Minus},
     {Star, Slash, Percent}],
    {Minus, Plus, Tilde, Bang}, true, false)

  /** The precedence of section 6.5 of ISO C, loosest first. */
  function Rung(op: Sym): nat {
    match op
    case OrOr => 1 case AndAnd => 2 case Bar => 3 case Caret => 4 case Amp => 5
    case EqEq => 6 case NotEq => 6
    case Lt => 7 case Le => 7 case Gt => 7 case Ge => 7
    case Shl => 8 case Shr => 8
    case Plus => 9 case Minus => 9
    case Star => 10 case Slash => 10 case Percent => 10
    case _ => 0
  }

  /** A table whose levels follow the rungs is a grammar. */
  lemma FollowsRungs(g: Grammar, rung: seq<nat>)
    requires |rung| == |g.levels| && (forall i, j :: 0 <= i < j < |rung| ==> rung[i] < rung[j])
    requires forall i :: 0 <= i < |rung| ==> rung[i] > 0 && forall op :: op in g.levels[i] ==> Rung(op) == rung[i]
    requires g.prefix !! {Quest, Colon, LParen, RParen}
    ensures GrammarOk(g)
  {
  }

  lemma IntOk()
    ensures GrammarOk(INT)
  {
    hide GrammarOk;
    var rung := [3, 4, 5, 8, 9, 10];
    forall i | 0 <= i < 6 ensures forall op :: op in INT.levels[i] ==> Rung(op) == rung[i] {
    }
    FollowsRungs(INT, rung);
  }

  lemma MacroOk()
    ensures GrammarOk(MACRO)
  {
    hide GrammarOk;
    var rung := seq(10, (i: nat) => i + 1);
    forall i | 0 <= i < 10 ensures forall op :: op in MACRO.levels[i] ==> Rung(op) == rung[i] {
      if i < 5 { } else { }
    }
    FollowsRungs(MACRO, rung);
  }

  /** The translator has each binary operator of C, on the rung C gives it. */
  lemma MacroLevels(op: Sym, l: nat)
    ensures At(MACRO, l, op) <==> l == Rung(op) > 0
  {
    if l <= 3 { LooseLevels(op, l); } else if l <= 7 { MiddleLevels(op, l); } else { TightLevels(op, l); }
  }

  lemma LooseLevels(op: Sym, l: nat)
    requires l <= 3
    ensures At(MACRO, l, op) <==> l == Rung(op) > 0
  {
  }

  lemma MiddleLevels(op: Sym, l: nat)
    requires 3 < l <= 7
    ensures At(MACRO, l, op) <==> l == Rung(op)
  {
  }

  lemma TightLevels(op: Sym, l: nat)
    requires 7 < l
    ensures At(MACRO, l, op) <==> l == Rung(op)
  {
  }

  lemma GrammarsOk()
    ensures GrammarOk(INT) && GrammarOk(MACRO)
  {
    IntOk();
    MacroOk();
  }

  // ---------------------------------------------------------------------------- meaning

  /** A meaning for leaves and operators. Nothing is assumed about the arithmetic. */
  datatype Meaning = Meaning(
    literal: string -> Option<int>,
    env: map<string, int>,
    un: (Sym, int) -> int,
    bin: (Sym, int, int) -> int)

  function LeafValue(m: Meaning, text: string): Option<int> {
    if m.literal(text).Some? then m.literal(text)
    else if text in m.env then Some(m.env[text])
    else None
  }

  function UnValue(m: Meaning, op: Sym, x: int): int { if op == Plus then x else m.un(op, x) }

  /** Dividing by zero has no value. */
  function BinValue(m: Meaning, op: Sym, x: int, y: int): Option<int> {
    if (op == Slash || op == Percent) && y == 0 then None else Some(m.bin(op, x, y))
  }

  function Value(m: Meaning, e: Expr): Option<int>
    decreases e
  {
    match e
    case Leaf(text) => LeafValue(m, text)
    case Un(op, arg) =>
      (match Value(m, arg) case Some(x) => Some(UnValue(m, op, x)) case None => None)
    case Bin(op, left, right) =>
      (match Value(m, left)
       case None => None
       case Some(x) => match Value(m, right) case Some(y) => BinValue(m, op, x, y) case None => None)
    case Cond(test, yes, no) =>
      (match Value(m, test) case None => None case Some(x) => if x != 0 then Value(m, yes) else Value(m, no))
    case Select(test, yes, no) =>
      (match Value(m, test) case None => None case Some(x) => if x == 0 then Value(m, no) else Value(m, yes))
    case Paren(inner) => Value(m, inner)
  }

  /** What the integer evaluator computes: the value of the tree, if all tokens make one. */
  function Evaluate(m: Meaning, toks: seq<Tok>): Option<int> {
    match ParseAll(INT, toks) case Some(e) => Value(m, e) case None => None
  }

  lemma {:induction false} MinimalKeepsValue(m: Meaning, g: Grammar, l: nat, e: Expr)
    ensures Value(m, Minimal(g, l, e)) == Value(m, e)
    decreases e
  {
    match e
    case Leaf(_) =>
    case Un(_, arg) => MinimalKeepsValue(m, g, Tightest(g), arg);
    case Bin(op, left, right) =>
      MinimalKeepsValue(m, g, LevelOf(g, op), left);
      MinimalKeepsValue(m, g, LevelOf(g, op) + 1, right);
    case Cond(test, yes, no) =>
      MinimalKeepsValue(m, g, 1, test);
      MinimalKeepsValue(m, g, 0, yes);
      MinimalKeepsValue(m, g, 0, no);
    case Select(test, yes, no) =>
      MinimalKeepsValue(m, g, 0, test);
      MinimalKeepsValue(m, g, 0, yes);
      MinimalKeepsValue(m, g, 0, no);
    case Paren(_) =>
  }

  /** An expression printed with the fewest parentheses evaluates to its own value. */
  lemma EvaluatesMinimal(m: Meaning, e: Expr)
    requires Bare(INT, e)
    ensures Evaluate(m, Print(Minimal(INT, 0, e), [])) == Value(m, e)
  {
    GrammarsOk();
    MinimalFits(INT, 0, e);
    ParseIsExact(INT, Print(Minimal(INT, 0, e), []), Minimal(INT, 0, e));
    MinimalKeepsValue(m, INT, 0, e);
  }

  lemma {:induction false} StripKeepsValue(m: Meaning, e: Expr)
    ensures Value(m, Strip(e)) == Value(m, e)
    decreases e
  {
    match e
    case Leaf(_) =>
    case Un(_, arg) => StripKeepsValue(m, arg);
    case Bin(_, left, right) => StripKeepsValue(m, left); StripKeepsValue(m, right);
    case Cond(test, yes, no) => StripKeepsValue(m, test); StripKeepsValue(m, yes); StripKeepsValue(m, no);
    case Select(test, yes, no) => StripKeepsValue(m, test); StripKeepsValue(m, yes); StripKeepsValue(m, no);
    case Paren(inner) => StripKeepsValue(m, inner);
  }

  /** Spare parentheses make no difference: an expression printed again with the fewest has the same value. */
  lemma SpareParentheses(m: Meaning, toks: seq<Tok>)
    requires ParseAll(INT, toks).Some?
    ensures Evaluate(m, Print(Minimal(INT, 0, Strip(ParseAll(INT, toks).value)), [])) == Evaluate(m, toks)
  {
    var e := ParseAll(INT, toks).value;
    GrammarsOk();
    ParseIsExact(INT, toks, e);
    StripIsBare(INT, 0, e);
    EvaluatesMinimal(m, Strip(e));
    StripKeepsValue(m, e);
  }

  /** A value comes out if and only if some tree of the grammar has exactly these tokens and that value. */
  lemma EvaluateIsExact(m: Meaning, toks: seq<Tok>, v: int)
    ensures Evaluate(m, toks) == Some(v)
       <==> exists e :: Fits(INT, 0, e) && Print(e, []) == toks && Value(m, e) == Some(v)
  {
    GrammarsOk();
    if Evaluate(m, toks) == Some(v) {
      var e := ParseAll(INT, toks).value;
      ParseIsExact(INT, toks, e);
    }
    if exists e :: Fits(INT, 0, e) && Print(e, []) == toks && Value(m, e) == Some(v) {
      var e :| Fits(INT, 0, e) && Print(e, []) == toks && Value(m, e) == Some(v);
      ParseIsExact(INT, toks, e);
    }
  }

  // ------------------------------------------------------------ the two parsers agree

  /** Where a nonterminal of the integer grammar sits in the macro grammar. */
  function Embed(l: nat): nat
    requires l <= 7
  {
    [0, 3, 4, 5, 8, 9, 10, 11][l]
  }

  lemma {:induction false} IntFitsMacro(l: nat, e: Expr)
    requires l <= 7 && Fits(INT, l, e)
    ensures Fits(MACRO, Embed(l), e)
    decreases e, 7 - l
  {
    GrammarsOk();
    if l == 0 {
      IntFitsMacro(1, e);
      FitsDown(MACRO, 0, 3, e);
    } else if l < 7 {
      if e.Bin? && At(INT, l, e.sym) {
        IntFitsMacro(l, e.left);
        IntFitsMacro(l + 1, e.right);
        FitsDown(MACRO, Embed(l) + 1, Embed(l + 1), e.right);
      } else {
        IntFitsMacro(l + 1, e);
        FitsDown(MACRO, Embed(l), Embed(l + 1), e);
      }
    } else {
      match e
      case Leaf(_) =>
      case Un(_, arg) => IntFitsMacro(7, arg);
      case Paren(inner) => IntFitsMacro(0, inner);
    }
  }

  /** On the integer operators the translator builds the evaluator's tree. */
  lemma ParsersAgree(toks: seq<Tok>)
    requires ParseAll(INT, toks).Some?
    ensures ParseAll(MACRO, toks) == ParseAll(INT, toks)
  {
    GrammarsOk();
    var e := ParseAll(INT, toks).value;
    ParseIsExact(INT, toks, e);
    IntFitsMacro(0, e);
    ParseIsExact(MACRO, toks, e);
  }
}
