/** The translator of function-like macro bodies: its fully parenthesised output and its class. */
module MacroTranslate {
  import opened Seqs
  import opened Precedence
  import opened MacroExpr
  import opened MacroParsers

  datatype Typ = Int | Float | Bool | Str

  /** How a word is classified, before parameters and constants are looked at. */
  datatype Kind = IntLiteral | FloatLiteral | StringLiteral | Identifier | Unknown

  datatype Context = Context(
    kind: string -> Kind,
    params: set<string>,
    consts: map<string, int>,
    show: int -> string)           // the decimal text of a constant

  datatype Snippet = Snippet(text: seq<Tok>, typ: Typ)

  // -------------------------------------------------------------------- the translation

  function LeafSnippet(c: Context, text: string): Option<Snippet> {
    match c.kind(text)
    case IntLiteral => Some(Snippet([Word(text)], Int))
    case FloatLiteral => Some(Snippet([Word(text)], Float))
    case StringLiteral => Some(Snippet([Word(text)], Str))
    case Identifier =>
      if text in c.params then Some(Snippet([Word(text)], Int))
      else if text in c.consts then Some(Snippet([Word(c.show(c.consts[text]))], Int))
      else None
    case Unknown => None
  }

  function UnSnippet(op: Sym, x: Snippet): Snippet {
    Snippet([Op(LParen), Op(op), Op(LParen)] + x.text + [Op(RParen), Op(RParen)],
            if op == Tilde then Int else if op == Bang then Bool else x.typ)
  }

  function BinSnippet(op: Sym, x: Snippet, y: Snippet): Snippet {
    Snippet([Op(LParen)] + x.text + [Op(op)] + y.text + [Op(RParen)],
            if op in {EqEq, NotEq, Lt, Le, Gt, Ge, AndAnd, OrOr} then Bool
            else if x.typ == Float || y.typ == Float then Float else Int)
  }

  /** `select((test)) -> { true -> (yes), false -> (no) }` */
  function CondSnippet(test: Snippet, yes: Snippet, no: Snippet): Snippet {
    Snippet([Word("select"), Op(LParen), Op(LParen)] + test.text + [Op(RParen), Op(RParen), Word("->"), Word("{"), Word("true"), Word("->"), Op(LParen)]
            + yes.text + [Op(RParen), Word(","), Word("false"), Word("->"), Op(LParen)] + no.text + [Op(RParen), Word("}")],
            yes.typ)
  }

  /** The translation of a tree; parentheses of the source are dropped. */
  function Translate(c: Context, e: Expr): Option<Snippet>
    decreases e
  {
    match e
    case Leaf(text) => LeafSnippet(c, text)
    case Un(op, arg) => UnOf(op, Translate(c, arg))
    case Bin(op, left, right) => BinOf(op, Translate(c, left), Translate(c, right))
    case Cond(test, yes, no) => CondOf(Translate(c, test), Translate(c, yes), Translate(c, no))
    case Select(_, _, _) => None
    case Paren(inner) => Translate(c, inner)
  }

  function UnOf(op: Sym, x: Option<Snippet>): Option<Snippet> {
    if x.Some? then Some(UnSnippet(op, x.value)) else None
  }

  function BinOf(op: Sym, x: Option<Snippet>, y: Option<Snippet>): Option<Snippet> {
    if x.Some? && y.Some? then Some(BinSnippet(op, x.value, y.value)) else None
  }

  function CondOf(test: Option<Snippet>, yes: Option<Snippet>, no: Option<Snippet>): Option<Snippet> {
    if test.Some? && yes.Some? && no.Some? then Some(CondSnippet(test.value, yes.value, no.value)) else None
  }

  /** What the translator computes. */
  function TranslateAll(c: Context, toks: seq<Tok>): Option<Snippet> {
    match ParseAll(MACRO, toks) case Some(e) => Translate(c, e) case None => None
  }

  // ------------------------------------------------------------------- what it denotes

  /** The tree of the output: every operator in parentheses, `?:` as `select`, constants replaced by their text. */
  function Full(c: Context, e: Expr): Expr
    decreases e
  {
    match e
    case Leaf(text) =>
      if c.kind(text) == Identifier && text !in c.params && text in c.consts then Leaf(c.show(c.consts[text])) else e
    case Un(op, arg) => Paren(Un(op, Paren(Full(c, arg))))
    case Bin(op, left, right) => Paren(Bin(op, Full(c, left), Full(c, right)))
    case Cond(test, yes, no) => Select(Full(c, test), Full(c, yes), Full(c, no))
    case Select(_, _, _) => e
    case Paren(inner) => Full(c, inner)
  }

  lemma UnRegrouped(op: Sym, x: Snippet, k: seq<Tok>)
    ensures UnSnippet(op, x).text + k
         == [Op(LParen)] + ([Op(op)] + ([Op(LParen)] + (x.text + ([Op(RParen)] + ([Op(RParen)] + k)))))
  {
    assert [Op(LParen), Op(op), Op(LParen)] == [Op(LParen)] + ([Op(op)] + [Op(LParen)]);
    assert [Op(RParen), Op(RParen)] == [Op(RParen)] + [Op(RParen)];
  }

  lemma BinRegrouped(op: Sym, x: Snippet, y: Snippet, k: seq<Tok>)
    ensures BinSnippet(op, x, y).text + k == [Op(LParen)] + (x.text + ([Op(op)] + (y.text + ([Op(RParen)] + k))))
  {
  }

  lemma CondRegrouped(test: Snippet, yes: Snippet, no: Snippet, k: seq<Tok>)
    ensures CondSnippet(test, yes, no).text + k
         == [Word(SELECT)] + (BEFORE_TEST + (test.text + (BEFORE_YES + (yes.text + (BEFORE_NO + (no.text + (AFTER_NO + k)))))))
  {
    assert [Word("select"), Op(LParen), Op(LParen)] == [Word(SELECT)] + BEFORE_TEST;
  }

  lemma PrintNested(op: Sym, f: Expr, k: seq<Tok>)
    ensures Print(Paren(Un(op, Paren(f))), k)
         == [Op(LParen)] + ([Op(op)] + ([Op(LParen)] + Print(f, [Op(RParen)] + ([Op(RParen)] + k))))
  {
    var k' := [Op(RParen)] + k;
    assert Print(Un(op, Paren(f)), k') == [Op(op)] + Print(Paren(f), k');
    assert Print(Paren(f), k') == [Op(LParen)] + Print(f, [Op(RParen)] + k');
  }

  lemma {:induction false} OutputIsFull(c: Context, e: Expr, k: seq<Tok>)
    requires Translate(c, e).Some?
    ensures Translate(c, e).value.text + k == Print(Full(c, e), k)
    decreases e
  {
    match e
    case Leaf(_) =>
    case Un(op, arg) =>
      OutputIsFull(c, arg, [Op(RParen)] + ([Op(RParen)] + k));
      UnRegrouped(op, Translate(c, arg).value, k);
      PrintNested(op, Full(c, arg), k);
    case Bin(op, left, right) =>
      var x, y := Translate(c, left).value, Translate(c, right).value;
      OutputIsFull(c, right, [Op(RParen)] + k);
      OutputIsFull(c, left, [Op(op)] + (y.text + ([Op(RParen)] + k)));
      BinRegrouped(op, x, y, k);
    case Cond(test, yes, no) =>
      var t, y, n := Translate(c, test).value, Translate(c, yes).value, Translate(c, no).value;
      OutputIsFull(c, no, AFTER_NO + k);
      OutputIsFull(c, yes, BEFORE_NO + (n.text + (AFTER_NO + k)));
      OutputIsFull(c, test, BEFORE_YES + (y.text + (BEFORE_NO + (n.text + (AFTER_NO + k)))));
      CondRegrouped(t, y, n, k);
      PrintSelect(Full(c, e), k);
    case Paren(inner) => OutputIsFull(c, inner, k);
  }

  /** `g` has a level for every operator of `e`, and reads `select` if `e` has a `?:`. */
  predicate Reads(g: Grammar, e: Expr)
    decreases e
  {
    match e
    case Leaf(_) => true
    case Un(op, arg) => op in g.prefix && Reads(g, arg)
    case Bin(op, left, right) => LevelOf(g, op) < Tightest(g) && Reads(g, left) && Reads(g, right)
    case Cond(test, yes, no) => g.select && Reads(g, test) && Reads(g, yes) && Reads(g, no)
    case Select(_, _, _) => false
    case Paren(inner) => Reads(g, inner)
  }

  lemma {:induction false} FullFits(g: Grammar, c: Context, e: Expr)
    requires GrammarOk(g) && Reads(g, e)
    ensures Fits(g, Tightest(g), Full(c, e))
    decreases e
  {
    match e
    case Leaf(_) =>
    case Un(op, arg) =>
      FullFits(g, c, arg);
      FitsDown(g, 0, Tightest(g), Full(c, arg));
      FitsDown(g, 0, Tightest(g), Un(op, Paren(Full(c, arg))));
    case Bin(op, left, right) =>
      FullFits(g, c, left);
      FullFits(g, c, right);
      var l := LevelOf(g, op);
      FitsDown(g, l, Tightest(g), Full(c, left));
      FitsDown(g, l + 1, Tightest(g), Full(c, right));
      FitsDown(g, 0, l, Bin(op, Full(c, left), Full(c, right)));
    case Cond(test, yes, no) =>
      FullFits(g, c, test);
      FullFits(g, c, yes);
      FullFits(g, c, no);
      FitsDown(g, 0, Tightest(g), Full(c, test));
      FitsDown(g, 0, Tightest(g), Full(c, yes));
      FitsDown(g, 0, Tightest(g), Full(c, no));
    case Paren(inner) => FullFits(g, c, inner);
  }

  /** A meaning for the macro's own side and one for the output, which knows parameters but no constants. */
  ghost predicate Matching(c: Context, source: Meaning, target: Meaning) {
    && source.un == target.un && source.bin == target.bin && source.literal == target.literal
    && (forall t :: t in c.consts ==> source.literal(c.show(c.consts[t])) == Some(c.consts[t]))
    && (forall t :: t in c.params || t in c.consts ==> t in source.env)
    && (forall t :: t in c.consts && t !in c.params ==> source.env[t] == c.consts[t])
    && (forall t :: t in c.params ==> t in target.env && target.env[t] == source.env[t])
  }

  /** Words the translator passes through: literals are literals on both sides, names are not. */
  ghost predicate WordsAgree(c: Context, source: Meaning, target: Meaning) {
    && (forall t :: c.kind(t) == Identifier ==> source.literal(t) == None)
    && (forall t :: c.kind(t) != Identifier ==> t !in source.env && t !in target.env)
  }

  lemma {:induction false} FullKeepsValue(c: Context, source: Meaning, target: Meaning, e: Expr)
    requires Matching(c, source, target) && WordsAgree(c, source, target) && Translate(c, e).Some?
    ensures Value(target, Full(c, e)) == Value(source, e)
    decreases e
  {
    match e
    case Leaf(_) =>
    case Un(op, arg) =>
      FullKeepsValue(c, source, target, arg);
      assert Value(target, Paren(Full(c, arg))) == Value(source, arg);
      assert Value(target, Un(op, Paren(Full(c, arg)))) == Value(source, e);
    case Bin(_, left, right) =>
      FullKeepsValue(c, source, target, left);
      FullKeepsValue(c, source, target, right);
    case Cond(test, yes, no) =>
      FullKeepsValue(c, source, target, test);
      FullKeepsValue(c, source, target, yes);
      FullKeepsValue(c, source, target, no);
    case Paren(inner) => FullKeepsValue(c, source, target, inner);
  }

  /** The output of a translated body, read back with any precedence table that has its operators,
   is one tree with the macro body's value, its constants inlined. */
  lemma OutputKeepsMeaning(g: Grammar, c: Context, source: Meaning, target: Meaning, toks: seq<Tok>)
    requires GrammarOk(g) && Matching(c, source, target) && WordsAgree(c, source, target)
    requires TranslateAll(c, toks).Some?
    requires Reads(g, ParseAll(MACRO, toks).value)
    ensures ParseAll(g, TranslateAll(c, toks).value.text).Some?
    ensures Value(target, ParseAll(g, TranslateAll(c, toks).value.text).value) == Value(source, ParseAll(MACRO, toks).value)
  {
    var e := ParseAll(MACRO, toks).value;
    var text := TranslateAll(c, toks).value.text;
    OutputIsFull(c, e, []);
    assert text + [] == text;
    FullFits(g, c, e);
    FitsDown(g, 0, Tightest(g), Full(c, e));
    ParseIsExact(g, text, Full(c, e));
    FullKeepsValue(c, source, target, e);
  }

  /** On a body the integer evaluator accepts, the output denotes what the evaluator computes. */
  lemma OutputAgreesWithEvaluator(c: Context, source: Meaning, target: Meaning, toks: seq<Tok>, v: int)
    requires Matching(c, source, target) && WordsAgree(c, source, target)
    requires Evaluate(source, toks) == Some(v) && TranslateAll(c, toks).Some?
    ensures Evaluate(target, TranslateAll(c, toks).value.text) == Some(v)
  {
    GrammarsOk();
    ParsersAgree(toks);
    var e := ParseAll(INT, toks).value;
    ParseIsExact(INT, toks, e);
    FitsReads(0, e);
    OutputKeepsMeaning(INT, c, source, target, toks);
  }

  lemma {:induction false} FitsReads(l: nat, e: Expr)
    requires l <= Tightest(INT) && Fits(INT, l, e)
    ensures Reads(INT, e)
    decreases e, Tightest(INT) - l
  {
    if l == 0 {
      FitsReads(1, e);
    } else if l < Tightest(INT) {
      if e.Bin? && At(INT, l, e.sym) {
        FitsReads(l, e.left);
        FitsReads(l + 1, e.right);
      } else {
        FitsReads(l + 1, e);
      }
    } else {
      match e
      case Leaf(_) =>
      case Un(_, arg) => FitsReads(l, arg);
      case Paren(inner) => FitsReads(0, inner);
    }
  }

  // -------------------------------------------------------------------- the result type

  /** `has(v, t)` says that `v` is a value of type `t`, and the meaning follows C's rules for types:
   comparisons, `&&`, `||` and `!` give truth values, `~` an integer, and arithmetic is floating as
   soon as one operand is. */
  ghost predicate FollowsTypes(c: Context, m: Meaning, has: (int, Typ) -> bool) {
    && (forall t {:trigger m.literal(t)} :: m.literal(t).Some? ==>
          match c.kind(t)
          case IntLiteral => has(m.literal(t).value, Int)
          case FloatLiteral => has(m.literal(t).value, Float)
          case StringLiteral => has(m.literal(t).value, Str)
          case _ => false)
    && (forall t :: t in m.env ==> c.kind(t) == Identifier && has(m.env[t], Int))
    && (forall op, x, y :: op in {EqEq, NotEq, Lt, Le, Gt, Ge, AndAnd, OrOr} ==> has(m.bin(op, x, y), Bool))
    && (forall op, x, y :: op in {Bar, Caret, Amp, Shl, Shr, Plus, Minus, Star, Slash, Percent} ==>
          if has(x, Float) || has(y, Float) then has(m.bin(op, x, y), Float) else has(m.bin(op, x, y), Int))
    && (forall x :: has(m.un(Bang, x), Bool) && has(m.un(Tilde, x), Int))
    && (forall x, t :: has(x, t) ==> has(m.un(Minus, x), t))
    && (forall x, t, u {:trigger has(x, t), has(x, u)} :: has(x, t) && has(x, u) ==> t == u)
  }

  /** The branches of every `?:` in `e` have one type. */
  predicate Uniform(c: Context, e: Expr)
    decreases e
  {
    match e
    case Leaf(_) => true
    case Un(_, arg) => Uniform(c, arg)
    case Bin(_, left, right) => Uniform(c, left) && Uniform(c, right)
    case Cond(test, yes, no) =>
      && Uniform(c, test) && Uniform(c, yes) && Uniform(c, no)
      && (Translate(c, yes).Some? && Translate(c, no).Some? ==> Translate(c, yes).value.typ == Translate(c, no).value.typ)
    case Select(_, _, _) => true
    case Paren(inner) => Uniform(c, inner)
  }

  /** The type the translator computes is the type of the body's value. */
  lemma {:induction false} TypeIsSound(c: Context, m: Meaning, has: (int, Typ) -> bool, l: nat, e: Expr, v: int)
    requires FollowsTypes(c, m, has) && l <= Tightest(MACRO) && Fits(MACRO, l, e) && Uniform(c, e)
    requires Translate(c, e).Some? && Value(m, e) == Some(v)
    ensures has(v, Translate(c, e).value.typ)
    decreases e, Tightest(MACRO) - l
  {
    if l == 0 && e.Cond? {
      TypeIsSound(c, m, has, 1, e.test, Value(m, e.test).value);
      if Value(m, e.test) == Some(0) { TypeIsSound(c, m, has, 0, e.no, v); } else { TypeIsSound(c, m, has, 0, e.yes, v); }
    } else if l < Tightest(MACRO) {
      if l > 0 && e.Bin? && At(MACRO, l, e.sym) {
        var x, y := Value(m, e.left).value, Value(m, e.right).value;
        TypeIsSound(c, m, has, l, e.left, x);
        TypeIsSound(c, m, has, l + 1, e.right, y);
        BinTypeIsSound(c, m, has, l, e.sym, Translate(c, e.left).value, Translate(c, e.right).value, x, y);
      } else {
        TypeIsSound(c, m, has, l + 1, e, v);
      }
    } else {
      match e
      case Leaf(_) =>
      case Un(op, arg) => TypeIsSound(c, m, has, l, arg, Value(m, arg).value);
      case Paren(inner) => TypeIsSound(c, m, has, 0, inner, v);
    }
  }

  lemma BinTypeIsSound(c: Context, m: Meaning, has: (int, Typ) -> bool, l: nat, op: Sym, x: Snippet, y: Snippet, a: int, b: int)
    requires FollowsTypes(c, m, has) && At(MACRO, l, op) && has(a, x.typ) && has(b, y.typ)
    ensures has(m.bin(op, a, b), BinSnippet(op, x, y).typ)
  {
    MacroLevels(op, l);
  }

  /** A body the integer evaluator accepts has no conditional, so its type is always right. */
  lemma {:induction false} IntegersAreUniform(c: Context, l: nat, e: Expr)
    requires l <= Tightest(INT) && Fits(INT, l, e)
    ensures Uniform(c, e)
    decreases e, Tightest(INT) - l
  {
    if l == 0 {
      IntegersAreUniform(c, 1, e);
    } else if l < Tightest(INT) {
      if e.Bin? && At(INT, l, e.sym) {
        IntegersAreUniform(c, l, e.left);
        IntegersAreUniform(c, l + 1, e.right);
      } else {
        IntegersAreUniform(c, l + 1, e);
      }
    } else {
      match e
      case Leaf(_) =>
      case Un(_, arg) => IntegersAreUniform(c, l, arg);
      case Paren(inner) => IntegersAreUniform(c, 0, inner);
    }
  }

  /** With branches of two types the first one decides, and the other branch's values do not have it. */
  lemma FirstBranchDecides(c: Context, m: Meaning, has: (int, Typ) -> bool, p: string, i: string, f: string)
    requires FollowsTypes(c, m, has) && p in c.params && p in m.env && m.literal(p).None? && m.env[p] == 0
    requires c.kind(p) == Identifier && c.kind(i) == IntLiteral && c.kind(f) == FloatLiteral && m.literal(f).Some?
    ensures var e := Cond(Leaf(p), Leaf(i), Leaf(f));
      && Translate(c, e).Some? && Translate(c, e).value.typ == Int
      && Value(m, e).Some? && !has(Value(m, e).value, Int)
  {
    var e := Cond(Leaf(p), Leaf(i), Leaf(f));
    assert Value(m, Leaf(p)) == Some(0) && Value(m, Leaf(f)) == m.literal(f);
    assert Value(m, e) == m.literal(f);
    CondTranslated(c, Leaf(p), Leaf(i), Leaf(f));
    assert Translate(c, Leaf(p)).Some? && Translate(c, Leaf(f)).Some?;
    assert Translate(c, Leaf(i)) == Some(Snippet([Word(i)], Int));
    FloatIsNoInt(c, m, has, m.literal(f).value);
  }

  lemma FloatIsNoInt(c: Context, m: Meaning, has: (int, Typ) -> bool, v: int)
    requires FollowsTypes(c, m, has) && has(v, Float)
    ensures !has(v, Int)
  {
    if has(v, Int) { assert false; }
  }

  // ------------------------------------------------------------------------- the class

  /** Nonterminal `l` yields no translation from `s`. */
  predicate NoSnippet(c: Context, l: nat, s: seq<Tok>)
    requires l <= 11
  {
    Parse(MACRO, l, s).None? || Translate(c, Parse(MACRO, l, s).value.0).None?
  }

  lemma {:induction false} NoSnippetSticks(c: Context, l: nat, left: Expr, s: seq<Tok>)
    requires 1 <= l < 11 && Translate(c, left).None? && ParseMore(MACRO, l, left, s).Some?
    ensures Translate(c, ParseMore(MACRO, l, left, s).value.0).None?
    decreases |s|
  {
    if StartsAt(MACRO, l, s) {
      var (right, rest) := Parse(MACRO, l + 1, s[1..]).value;
      NoSnippetSticks(c, l, Bin(s[0].sym, left, right), rest);
    }
  }

  lemma FirstUntranslated(c: Context, l: nat, s: seq<Tok>)
    requires 1 <= l < 11 && NoSnippet(c, l + 1, s)
    ensures NoSnippet(c, l, s)
  {
    if Parse(MACRO, l, s).Some? {
      var (first, rest) := Parse(MACRO, l + 1, s).value;
      NoSnippetSticks(c, l, first, rest);
    }
  }

  lemma RightUntranslated(c: Context, l: nat, left: Expr, s: seq<Tok>)
    requires 1 <= l < 11 && StartsAt(MACRO, l, s) && NoSnippet(c, l + 1, s[1..])
    ensures ParseMore(MACRO, l, left, s).Some? ==> Translate(c, ParseMore(MACRO, l, left, s).value.0).None?
  {
    if ParseMore(MACRO, l, left, s).Some? {
      var (right, rest) := Parse(MACRO, l + 1, s[1..]).value;
      NoSnippetSticks(c, l, Bin(s[0].sym, left, right), rest);
    }
  }

  class MacroExprParser {
    const toks: seq<Tok>
    const c: Context
    var p: nat

    ghost predicate Valid()
      reads this
    {
      p <= |toks|
    }

    ghost function Rest(): seq<Tok>
      requires Valid()
      reads this
    {
      toks[p..]
    }

    constructor (toks: seq<Tok>, c: Context)
      ensures Valid() && this.toks == toks && this.c == c && Rest() == toks
    {
      this.toks, this.c, p := toks, c, 0;
    }

    predicate Peek(op: Sym)
      requires Valid()
      reads this
      ensures Peek(op) == Starts(Rest(), op)
    {
      p < |toks| && toks[p] == Op(op)
    }

    method Bump()
      requires Valid() && Rest() != []
      modifies this
      ensures Valid() && Rest() == old(Rest())[1..]
    {
      p := p + 1;
    }

    /** The whole body: a snippet exactly when all tokens form a translatable expression. */
    method Run() returns (r: Option<Snippet>)
      requires Valid() && p == 0
      modifies this
      ensures r == TranslateAll(c, toks)
    {
      assert toks[0..] == toks;
      var x, e := Ternary();
      r := if x.Some? && p == |toks| then x else None;
    }

    method Ternary() returns (x: Option<Snippet>, ghost e: Expr)
      requires Valid()
      modifies this
      ensures Valid()
      ensures x.Some? ==> Parse(MACRO, 0, old(Rest())) == Some((e, Rest())) && Translate(c, e) == x
      ensures x.None? ==> NoSnippet(c, 0, old(Rest()))
      decreases |Rest()|, 12
    {
      hide Parse, ParseCond, Translate;
      ghost var s := Rest();
      x, e := Level(1);
      WholeTurn(s);
      if x.None? {
        TestUntranslated(c, s);
        return;
      }
      if !Peek(Quest) { return; }
      Bump();
      ghost var s1, test := Rest(), e;
      var yes, ye := Ternary();
      CondTurn(c, test, s1);
      if yes.None? || !Peek(Colon) { return None, e; }
      Bump();
      ghost var s2 := Rest();
      var no, ne := Ternary();
      if no.None? { return None, e; }
      e := Cond(test, ye, ne);
      CondTranslated(c, test, ye, ne);
      x := Some(CondSnippet(x.value, yes.value, no.value));
    }

    /** A binary level: the translation of what `binary` is called with at each of them. */
    method Level(l: nat) returns (x: Option<Snippet>, ghost e: Expr)
      requires Valid() && 1 <= l <= 11
      modifies this
      ensures Valid()
      ensures x.Some? ==> Parse(MACRO, l, old(Rest())) == Some((e, Rest())) && Translate(c, e) == x
      ensures x.None? ==> NoSnippet(c, l, old(Rest()))
      decreases |Rest()|, 12 - l
    {
      if l == 11 {
        x, e := Unary();
        return;
      }
      hide Parse, ParseMore, Translate;
      ghost var s := Rest();
      x, e := Level(l + 1);
      if x.None? {
        FirstUntranslated(c, l, s);
        return;
      }
      FirstTurn(MACRO, l, s);
      while p < |toks| && toks[p].Op? && toks[p].sym in MACRO.levels[l - 1]
        invariant Valid() && |Rest()| < |s| && x.Some? && Translate(c, e) == x
        invariant Parse(MACRO, l, s) == ParseMore(MACRO, l, e, Rest())
        decreases |Rest()|
      {
        ghost var at := Rest();
        var op := toks[p].sym;
        Bump();
        var y, right := Level(l + 1);
        if y.None? {
          RightUntranslated(c, l, e, at);
          return None, e;
        }
        Turn(MACRO, l, e, at);
        BinTranslated(c, op, e, right);
        e := Bin(op, e, right);
        x := Some(BinSnippet(op, x.value, y.value));
      }
      LastTurn(MACRO, l, e, Rest());
    }

    method Unary() returns (x: Option<Snippet>, ghost e: Expr)
      requires Valid()
      modifies this
      ensures Valid()
      ensures x.Some? ==> Parse(MACRO, 11, old(Rest())) == Some((e, Rest())) && Translate(c, e) == x
      ensures x.None? ==> NoSnippet(c, 11, old(Rest()))
      decreases |Rest()|, 0
    {
      hide Parse;
      if Peek(Minus) || Peek(Plus) || Peek(Tilde) || Peek(Bang) {
        var op := toks[p].sym;
        PrefixTurn(MACRO, op, Rest());
        Bump();
        x, e := Unary();
        if x.Some? { x := Some(UnSnippet(op, x.value)); }
        e := Un(op, e);
      } else {
        x, e := Primary();
      }
    }

    method Primary() returns (x: Option<Snippet>, ghost e: Expr)
      requires Valid() && !Starts(Rest(), Minus) && !Starts(Rest(), Plus) && !Starts(Rest(), Tilde) && !Starts(Rest(), Bang)
      modifies this
      ensures Valid()
      ensures x.Some? ==> Parse(MACRO, 11, old(Rest())) == Some((e, Rest())) && Translate(c, e) == x
      ensures x.None? ==> NoSnippet(c, 11, old(Rest()))
      decreases |Rest()|, 0, 0
    {
      hide Parse;
      ghost var s := Rest();
      PrimaryTurn(MACRO, s);
      e := Leaf("");
      if Peek(LParen) {
        Bump();
        x, e := Ternary();
        if x.None? { return; }
        if !Peek(RParen) { return None, e; }
        Bump();
        e := Paren(e);
        return;
      }
      if p >= |toks| || toks[p].Op? { return None, e; }
      e := Leaf(toks[p].text);
      x := LeafSnippet(c, toks[p].text);
      Bump();
    }
  }

  lemma WholeTurn(s: seq<Tok>)
    ensures Parse(MACRO, 0, s)
         == match Parse(MACRO, 1, s)
            case None => None
            case Some(test) => if Starts(test.1, Quest) then ParseCond(MACRO, test.0, test.1[1..]) else Some(test)
  {
  }

  lemma TestUntranslated(c: Context, s: seq<Tok>)
    requires NoSnippet(c, 1, s)
    ensures NoSnippet(c, 0, s)
  {
  }

  lemma CondTurn(c: Context, test: Expr, s: seq<Tok>)
    ensures NoSnippet(c, 0, s) ==>
      ParseCond(MACRO, test, s).None? || Translate(c, ParseCond(MACRO, test, s).value.0).None?
    ensures Parse(MACRO, 0, s).Some? ==>
      var (yes, rest) := Parse(MACRO, 0, s).value;
      && (!Starts(rest, Colon) ==> ParseCond(MACRO, test, s).None?)
      && (Starts(rest, Colon) ==>
            && (NoSnippet(c, 0, rest[1..]) ==>
                  ParseCond(MACRO, test, s).None? || Translate(c, ParseCond(MACRO, test, s).value.0).None?)
            && (Parse(MACRO, 0, rest[1..]).Some? ==>
                  var (no, last) := Parse(MACRO, 0, rest[1..]).value;
                  ParseCond(MACRO, test, s) == Some((Cond(test, yes, no), last))))
  {
  }

  lemma CondTranslated(c: Context, test: Expr, yes: Expr, no: Expr)
    ensures Translate(c, Cond(test, yes, no)) == CondOf(Translate(c, test), Translate(c, yes), Translate(c, no))
  {
    hide CondOf, BinOf, UnOf, LeafSnippet;
  }

  lemma BinTranslated(c: Context, op: Sym, left: Expr, right: Expr)
    ensures Translate(c, Bin(op, left, right)) == BinOf(op, Translate(c, left), Translate(c, right))
  {
    hide CondOf, BinOf, UnOf, LeafSnippet;
  }
}
