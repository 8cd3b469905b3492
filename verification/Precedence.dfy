/**
 The expression grammar of C macro bodies as the two precedence-climbing parsers read it, the trees
 they build, and the proof that parsing and printing are inverse.
 */
module Precedence {
  import opened Seqs

  datatype Sym =
    | OrOr | AndAnd | Bar | Caret | Amp | EqEq | NotEq | Lt | Le | Gt | Ge | Shl | Shr
    | Plus | Minus | Star | Slash | Percent | Tilde | Bang | Quest | Colon | LParen | RParen

  /** A token: punctuation, or the text of a literal or an identifier. */
  datatype Tok = Op(sym: Sym) | Word(text: string)

  datatype Expr =
    | Leaf(text: string)
    | Un(sym: Sym, arg: Expr)
    | Bin(sym: Sym, left: Expr, right: Expr)
    | Cond(test: Expr, yes: Expr, no: Expr)
    | Select(test: Expr, yes: Expr, no: Expr)
    | Paren(inner: Expr)

  /** The binary operators by level, loosest first; the prefix operators; whether `?:` and `select` are read. */
  datatype Grammar = Grammar(levels: seq<set<Sym>>, prefix: set<Sym>, ternary: bool, select: bool)

  // The tokens of `select((test)) -> { true -> (yes), false -> (no) }` around its parts.
  const SELECT: string := "select"
  const BEFORE_TEST: seq<Tok> := [Op(LParen), Op(LParen)]
  const BEFORE_YES: seq<Tok> := [Op(RParen), Op(RParen), Word("->"), Word("{"), Word("true"), Word("->"), Op(LParen)]
  const BEFORE_NO: seq<Tok> := [Op(RParen), Word(","), Word("false"), Word("->"), Op(LParen)]
  const AFTER_NO: seq<Tok> := [Op(RParen), Word("}")]

  /** No operator has two levels, and none is a bracket or part of `?:`. */
  predicate GrammarOk(g: Grammar) {
    && (forall i, j :: 0 <= i < j < |g.levels| ==> g.levels[i] !! g.levels[j])
    && (forall i :: 0 <= i < |g.levels| ==> g.levels[i] !! {Quest, Colon, LParen, RParen})
    && g.prefix !! {Quest, Colon, LParen, RParen}
  }

  /** The nonterminals: 0 is a whole expression, 1 to `Tightest` - 1 the binary levels, then the unary one. */
  function Tightest(g: Grammar): nat { |g.levels| + 1 }

  predicate At(g: Grammar, l: nat, op: Sym) { 1 <= l < Tightest(g) && op in g.levels[l - 1] }

  // ------------------------------------------------------------------ trees and their text

  /** `e` can stand where nonterminal `l` is expected, as it is. */
  predicate Fits(g: Grammar, l: nat, e: Expr)
    requires l <= Tightest(g)
    decreases e, Tightest(g) - l
  {
    if l == 0 && g.ternary && e.Cond? then Fits(g, 1, e.test) && Fits(g, 0, e.yes) && Fits(g, 0, e.no)
    else if l == 0 then Fits(g, 1, e)
    else if l < Tightest(g) then
      if e.Bin? && At(g, l, e.sym) then Fits(g, l, e.left) && Fits(g, l + 1, e.right) else Fits(g, l + 1, e)
    else
      match e
      case Leaf(_) => true
      case Un(op, arg) => op in g.prefix && Fits(g, l, arg)
      case Paren(inner) => Fits(g, 0, inner)
      case Select(test, yes, no) => g.select && Fits(g, 0, test) && Fits(g, 0, yes) && Fits(g, 0, no)
      case _ => false
  }

  /** The tokens of `e`, followed by `k`. */
  function Print(e: Expr, k: seq<Tok>): seq<Tok>
    decreases e
  {
    match e
    case Leaf(text) => [Word(text)] + k
    case Un(op, arg) => [Op(op)] + Print(arg, k)
    case Bin(op, left, right) => Print(left, [Op(op)] + Print(right, k))
    case Cond(test, yes, no) => Print(test, [Op(Quest)] + Print(yes, [Op(Colon)] + Print(no, k)))
    case Paren(inner) => [Op(LParen)] + Print(inner, [Op(RParen)] + k)
    case Select(test, yes, no) =>
      [Word(SELECT)] + (BEFORE_TEST + Print(test, BEFORE_YES + Print(yes, BEFORE_NO + Print(no, AFTER_NO + k))))
  }

  // ------------------------------------------------------------------------- parsing

  predicate Starts(s: seq<Tok>, op: Sym) { s != [] && s[0] == Op(op) }

  predicate StartsAt(g: Grammar, l: nat, s: seq<Tok>) { s != [] && s[0].Op? && At(g, l, s[0].sym) }

  function Parse(g: Grammar, l: nat, s: seq<Tok>): (r: Option<(Expr, seq<Tok>)>)
    requires l <= Tightest(g)
    ensures r.Some? ==> |r.value.1| < |s|
    decreases |s|, Tightest(g) - l
  {
    if l == 0 then
      match Parse(g, 1, s)
      case None => None
      case Some(test) => if g.ternary && Starts(test.1, Quest) then ParseCond(g, test.0, test.1[1..]) else Some(test)
    else if l < Tightest(g) then
      match Parse(g, l + 1, s)
      case None => None
      case Some(first) => ParseMore(g, l, first.0, first.1)
    else if s == [] then None
    else match s[0]
      case Word(text) =>
        if g.select && text == SELECT && Starts(s[1..], LParen) then ParseSelect(g, s[1..]) else Some((Leaf(text), s[1..]))
      case Op(op) =>
        if op in g.prefix then
          match Parse(g, l, s[1..])
          case None => None
          case Some(arg) => Some((Un(op, arg.0), arg.1))
        else if op == LParen then
          match Parse(g, 0, s[1..])
          case None => None
          case Some(inner) => if Starts(inner.1, RParen) then Some((Paren(inner.0), inner.1[1..])) else None
        else None
  }

  /** The loop of a binary level, with the operand read so far. */
  function ParseMore(g: Grammar, l: nat, left: Expr, s: seq<Tok>): (r: Option<(Expr, seq<Tok>)>)
    requires 1 <= l < Tightest(g)
    ensures r.Some? ==> |r.value.1| <= |s|
    decreases |s|, Tightest(g) - l
  {
    if !StartsAt(g, l, s) then Some((left, s))
    else match Parse(g, l + 1, s[1..])
      case None => None
      case Some(right) => ParseMore(g, l, Bin(s[0].sym, left, right.0), right.1)
  }

  /** Both branches of `?:`, behind the question mark. */
  function ParseCond(g: Grammar, test: Expr, s: seq<Tok>): (r: Option<(Expr, seq<Tok>)>)
    ensures r.Some? ==> |r.value.1| < |s|
    decreases |s|, Tightest(g) + 1
  {
    match Parse(g, 0, s)
    case None => None
    case Some(yes) =>
      if !Starts(yes.1, Colon) then None
      else match Parse(g, 0, yes.1[1..])
        case None => None
        case Some(no) => Some((Cond(test, yes.0, no.0), no.1))
  }

  /** The three parts of a `select`, behind the word. */
  function ParseSelect(g: Grammar, s: seq<Tok>): (r: Option<(Expr, seq<Tok>)>)
    ensures r.Some? ==> |r.value.1| < |s|
    decreases |s|, Tightest(g) + 1
  {
    if !(BEFORE_TEST <= s) then None
    else match Parse(g, 0, s[|BEFORE_TEST|..])
      case None => None
      case Some(test) =>
        if !(BEFORE_YES <= test.1) then None
        else match Parse(g, 0, test.1[|BEFORE_YES|..])
          case None => None
          case Some(yes) =>
            if !(BEFORE_NO <= yes.1) then None
            else match Parse(g, 0, yes.1[|BEFORE_NO|..])
              case None => None
              case Some(no) =>
                if AFTER_NO <= no.1 then Some((Select(test.0, yes.0, no.0), no.1[|AFTER_NO|..])) else None
  }

  function ParseAll(g: Grammar, s: seq<Tok>): Option<Expr> {
    match Parse(g, 0, s)
    case Some(p) => if p.1 == [] then Some(p.0) else None
    case None => None
  }

  // -------------------------------------------------------------- printing, then parsing

  /** Nothing in front of `k` would be taken by nonterminal `l` or one inside it. */
  ghost predicate Ends(g: Grammar, l: nat, k: seq<Tok>) {
    && (forall j {:trigger StartsAt(g, j, k)} :: l <= j ==> !StartsAt(g, j, k))
    && (l == 0 && g.ternary ==> !Starts(k, Quest))
    && (g.select ==> !Starts(k, LParen))
  }

  /** A loop that meets nothing of its level stops. */
  lemma EndsStops(g: Grammar, l: nat, e: Expr, k: seq<Tok>)
    requires 1 <= l < Tightest(g) && Ends(g, l, k)
    ensures ParseMore(g, l, e, k) == Some((e, k))
  {
    assert !StartsAt(g, l, k);
  }

  lemma OperatorEnds(g: Grammar, l: nat, op: Sym, k: seq<Tok>)
    requires GrammarOk(g) && (At(g, l, op) || op in {Quest, Colon, RParen})
    ensures forall j :: l < j ==> !StartsAt(g, j, [Op(op)] + k)
    ensures op in {Quest, Colon, RParen} ==> forall j :: !StartsAt(g, j, [Op(op)] + k)
  {
  }

  lemma {:induction false} PrintParses(g: Grammar, l: nat, e: Expr, k: seq<Tok>)
    requires GrammarOk(g) && l <= Tightest(g) && Fits(g, l, e) && Ends(g, l, k)
    ensures Parse(g, l, Print(e, k)) == Some((e, k))
    decreases e, Tightest(g) - l, 1
  {
    if l == 0 {
      if g.ternary && e.Cond? {
        CondParses(g, e, k);
      } else {
        PrintParses(g, 1, e, k);
      }
    } else if l < Tightest(g) {
      LevelParses(g, l, e, k);
      EndsStops(g, l, e, k);
    } else {
      match e
      case Leaf(_) =>
      case Un(op, arg) => PrintParses(g, l, arg, k);
      case Paren(inner) =>
        var k' := [Op(RParen)] + k;
        OperatorEnds(g, 0, RParen, k);
        PrintParses(g, 0, inner, k');
        assert k'[1..] == k;
      case Select(_, _, _) => SelectParses(g, e, k);
    }
  }

  /** Reading an operand of a binary level leaves its loop with that operand, in front of what follows. */
  lemma {:induction false} LevelParses(g: Grammar, l: nat, e: Expr, k: seq<Tok>)
    requires GrammarOk(g) && 1 <= l < Tightest(g) && Fits(g, l, e) && Ends(g, l + 1, k)
    ensures Parse(g, l, Print(e, k)) == ParseMore(g, l, e, k)
    decreases e, Tightest(g) - l, 0
  {
    if e.Bin? && At(g, l, e.sym) {
      var k' := [Op(e.sym)] + Print(e.right, k);
      OperatorEnds(g, l, e.sym, Print(e.right, k));
      LevelParses(g, l, e.left, k');
      assert k'[1..] == Print(e.right, k);
      PrintParses(g, l + 1, e.right, k);
      assert StartsAt(g, l, k');
    } else {
      PrintParses(g, l + 1, e, k);
    }
  }

  lemma {:induction false} CondParses(g: Grammar, e: Expr, k: seq<Tok>)
    requires GrammarOk(g) && g.ternary && e.Cond? && Fits(g, 0, e) && Ends(g, 0, k)
    ensures Parse(g, 0, Print(e, k)) == Some((e, k))
    decreases e, 0, 0
  {
    var k2 := [Op(Colon)] + Print(e.no, k);
    var k1 := [Op(Quest)] + Print(e.yes, k2);
    OperatorEnds(g, 0, Quest, Print(e.yes, k2));
    PrintParses(g, 1, e.test, k1);
    OperatorEnds(g, 0, Colon, Print(e.no, k));
    PrintParses(g, 0, e.yes, k2);
    PrintParses(g, 0, e.no, k);
    assert k1[1..] == Print(e.yes, k2) && k2[1..] == Print(e.no, k);
  }

  /** Stripping a known head off a text. */
  lemma Stripped(head: seq<Tok>, k: seq<Tok>)
    ensures head <= head + k && (head + k)[|head|..] == k
  {
  }

  /** What starts with a closing parenthesis ends any expression. */
  lemma CloserEnds(g: Grammar, head: seq<Tok>, k: seq<Tok>)
    requires GrammarOk(g) && Starts(head, RParen)
    ensures Ends(g, 0, head + k)
  {
    assert head + k == [Op(RParen)] + (head[1..] + k);
    OperatorEnds(g, 0, RParen, head[1..] + k);
  }

  lemma {:induction false} SelectParses(g: Grammar, e: Expr, k: seq<Tok>)
    requires GrammarOk(g) && e.Select? && Fits(g, Tightest(g), e)
    ensures Parse(g, Tightest(g), Print(e, k)) == Some((e, k))
    decreases e, 0, 0
  {
    var k3 := AFTER_NO + k;
    var k2 := BEFORE_NO + Print(e.no, k3);
    var k1 := BEFORE_YES + Print(e.yes, k2);
    var s := BEFORE_TEST + Print(e.test, k1);
    CloserEnds(g, BEFORE_YES, Print(e.yes, k2));
    CloserEnds(g, BEFORE_NO, Print(e.no, k3));
    CloserEnds(g, AFTER_NO, k);
    PrintParses(g, 0, e.test, k1);
    PrintParses(g, 0, e.yes, k2);
    PrintParses(g, 0, e.no, k3);
    Stripped(BEFORE_TEST, Print(e.test, k1));
    Stripped(BEFORE_YES, Print(e.yes, k2));
    Stripped(BEFORE_NO, Print(e.no, k3));
    Stripped(AFTER_NO, k);
    hide Print, Fits;
    assert ParseSelect(g, s) == Some((e, k));
    SelectWord(g, s);
    assert Print(e, k) == [Word(SELECT)] + s by { PrintSelect(e, k); }
  }

  lemma PrintSelect(e: Expr, k: seq<Tok>)
    requires e.Select?
    ensures Print(e, k)
         == [Word(SELECT)] + (BEFORE_TEST + Print(e.test, BEFORE_YES + Print(e.yes, BEFORE_NO + Print(e.no, AFTER_NO + k))))
  {
  }

  lemma SelectWord(g: Grammar, s: seq<Tok>)
    requires g.select && Starts(s, LParen)
    ensures Parse(g, Tightest(g), [Word(SELECT)] + s) == ParseSelect(g, s)
  {
    hide ParseSelect;
    assert ([Word(SELECT)] + s)[1..] == s;
  }

  // -------------------------------------------------------------- parsing, then printing

  lemma {:induction false} ParsedFits(g: Grammar, l: nat, s: seq<Tok>)
    requires GrammarOk(g) && l <= Tightest(g) && Parse(g, l, s).Some?
    ensures var (e, rest) := Parse(g, l, s).value; Fits(g, l, e) && Print(e, rest) == s
    decreases |s|, Tightest(g) - l
  {
    if l == 0 {
      ParsedFits(g, 1, s);
      var (test, rest) := Parse(g, 1, s).value;
      if g.ternary && Starts(rest, Quest) {
        assert rest == [Op(Quest)] + rest[1..];
        CondFits(g, test, rest[1..]);
      } else {
        LooserFits(g, 0, test);
      }
    } else if l < Tightest(g) {
      ParsedFits(g, l + 1, s);
      var (first, rest) := Parse(g, l + 1, s).value;
      LooserFits(g, l, first);
      MoreFits(g, l, first, rest);
    } else {
      assert s == [s[0]] + s[1..];
      if s[0].Op? && s[0].sym in g.prefix {
        ParsedFits(g, l, s[1..]);
      } else if s[0].Op? {
        ParsedFits(g, 0, s[1..]);
        var (inner, rest) := Parse(g, 0, s[1..]).value;
        assert rest == [Op(RParen)] + rest[1..];
      } else if g.select && s[0].text == SELECT && Starts(s[1..], LParen) {
        SelectFits(g, s[1..]);
      }
    }
  }

  /** The loop of a binary level adds operands on the right. */
  lemma {:induction false} MoreFits(g: Grammar, l: nat, left: Expr, s: seq<Tok>)
    requires GrammarOk(g) && 1 <= l < Tightest(g) && Fits(g, l, left) && ParseMore(g, l, left, s).Some?
    ensures var (e, rest) := ParseMore(g, l, left, s).value; Fits(g, l, e) && Print(e, rest) == Print(left, s)
    decreases |s|, Tightest(g) - l
  {
    if StartsAt(g, l, s) {
      ParsedFits(g, l + 1, s[1..]);
      var (right, rest) := Parse(g, l + 1, s[1..]).value;
      assert s == [s[0]] + s[1..];
      MoreFits(g, l, Bin(s[0].sym, left, right), rest);
    }
  }

  lemma {:induction false} CondFits(g: Grammar, test: Expr, s: seq<Tok>)
    requires GrammarOk(g) && g.ternary && Fits(g, 1, test) && ParseCond(g, test, s).Some?
    ensures var (e, rest) := ParseCond(g, test, s).value;
      Fits(g, 0, e) && Print(e, rest) == Print(test, [Op(Quest)] + s)
    decreases |s|, Tightest(g) + 1
  {
    ParsedFits(g, 0, s);
    var (yes, rest) := Parse(g, 0, s).value;
    assert rest == [Op(Colon)] + rest[1..];
    ParsedFits(g, 0, rest[1..]);
  }

  lemma {:induction false} SelectFits(g: Grammar, s: seq<Tok>)
    requires GrammarOk(g) && g.select && ParseSelect(g, s).Some?
    ensures var (e, rest) := ParseSelect(g, s).value;
      e.Select? && Fits(g, Tightest(g), e) && Print(e, rest) == [Word(SELECT)] + s
    decreases |s|, Tightest(g) + 1
  {
    var s1 := s[|BEFORE_TEST|..];
    ParsedFits(g, 0, s1);
    var (test, r1) := Parse(g, 0, s1).value;
    ParsedFits(g, 0, r1[|BEFORE_YES|..]);
    var (yes, r2) := Parse(g, 0, r1[|BEFORE_YES|..]).value;
    ParsedFits(g, 0, r2[|BEFORE_NO|..]);
    var (no, r3) := Parse(g, 0, r2[|BEFORE_NO|..]).value;
    Unstripped(BEFORE_TEST, s);
    Unstripped(BEFORE_YES, r1);
    Unstripped(BEFORE_NO, r2);
    Unstripped(AFTER_NO, r3);
    PrintSelect(Select(test, yes, no), r3[|AFTER_NO|..]);
    hide Print;
  }

  lemma Unstripped(head: seq<Tok>, s: seq<Tok>)
    requires head <= s
    ensures s == head + s[|head|..]
  {
  }

  /** A tree built by an operator of level `l` fits no tighter nonterminal. */
  lemma {:induction false} TooLoose(g: Grammar, l: nat, m: nat, e: Expr)
    requires GrammarOk(g) && l < m <= Tightest(g)
    requires (l == 0 && e.Cond?) || (e.Bin? && At(g, l, e.sym))
    ensures !Fits(g, m, e)
    decreases Tightest(g) - m
  {
    if m < Tightest(g) { TooLoose(g, l, m + 1, e); }
  }

  /** What fits a tighter nonterminal fits a looser one. */
  lemma LooserFits(g: Grammar, l: nat, e: Expr)
    requires GrammarOk(g) && l < Tightest(g) && Fits(g, l + 1, e)
    ensures Fits(g, l, e)
  {
    if (l == 0 && e.Cond?) || (e.Bin? && At(g, l, e.sym)) { TooLoose(g, l, l + 1, e); }
  }

  /** The parser is exact: a token list parses to a tree if and only if that tree fits and prints so. */
  lemma ParseIsExact(g: Grammar, s: seq<Tok>, e: Expr)
    requires GrammarOk(g)
    ensures ParseAll(g, s) == Some(e) <==> Fits(g, 0, e) && Print(e, []) == s
  {
    if ParseAll(g, s) == Some(e) {
      ParsedFits(g, 0, s);
    }
    if Fits(g, 0, e) && Print(e, []) == s {
      PrintParses(g, 0, e, []);
    }
  }

  // ----------------------------------------------------------------- parentheses

  /** The level of `e`'s outermost operator. */
  function Rank(g: Grammar, e: Expr): nat {
    match e
    case Cond(_, _, _) => 0
    case Bin(op, _, _) => LevelOf(g, op)
    case _ => Tightest(g)
  }

  function LevelOf(g: Grammar, op: Sym): (l: nat)
    ensures l <= Tightest(g)
    ensures 0 < l < Tightest(g) ==> At(g, l, op)
    ensures (exists j :: At(g, j, op)) ==> 0 < l < Tightest(g)
  {
    LevelFrom(g, op, 1)
  }

  function LevelFrom(g: Grammar, op: Sym, from: nat): (l: nat)
    requires 1 <= from <= Tightest(g)
    ensures from <= l <= Tightest(g)
    ensures l < Tightest(g) ==> At(g, l, op)
    ensures forall j :: from <= j < l ==> !At(g, j, op)
    decreases Tightest(g) - from
  {
    if from == Tightest(g) || At(g, from, op) then from else LevelFrom(g, op, from + 1)
  }

  /** `e` is built from the grammar's operators and has no parentheses of its own. */
  predicate Bare(g: Grammar, e: Expr)
    decreases e
  {
    match e
    case Leaf(_) => true
    case Un(op, arg) => op in g.prefix && Bare(g, arg)
    case Bin(op, left, right) => LevelOf(g, op) < Tightest(g) && Bare(g, left) && Bare(g, right)
    case Cond(test, yes, no) => g.ternary && Bare(g, test) && Bare(g, yes) && Bare(g, no)
    case Select(test, yes, no) => g.select && Bare(g, test) && Bare(g, yes) && Bare(g, no)
    case Paren(_) => false
  }

  /** `e` with parentheses around exactly the operands whose operator binds too loosely. */
  function Minimal(g: Grammar, l: nat, e: Expr): Expr
    decreases e
  {
    var body :=
      match e
      case Leaf(_) => e
      case Un(op, arg) => Un(op, Minimal(g, Tightest(g), arg))
      case Bin(op, left, right) => Bin(op, Minimal(g, LevelOf(g, op), left), Minimal(g, LevelOf(g, op) + 1, right))
      case Cond(test, yes, no) => Cond(Minimal(g, 1, test), Minimal(g, 0, yes), Minimal(g, 0, no))
      case Select(test, yes, no) => Select(Minimal(g, 0, test), Minimal(g, 0, yes), Minimal(g, 0, no))
      case Paren(inner) => e;
    if Rank(g, e) < l then Paren(body) else body
  }

  /** `Fits` only depends on the nonterminal being at most the rank. */
  lemma {:induction false} FitsDown(g: Grammar, l: nat, m: nat, e: Expr)
    requires GrammarOk(g) && l <= m <= Tightest(g) && Fits(g, m, e)
    ensures Fits(g, l, e)
    decreases m
  {
    if l < m {
      LooserFits(g, m - 1, e);
      FitsDown(g, l, m - 1, e);
    }
  }

  lemma {:induction false} MinimalFits(g: Grammar, l: nat, e: Expr)
    requires GrammarOk(g) && l <= Tightest(g) && Bare(g, e)
    ensures Fits(g, l, Minimal(g, l, e))
    decreases e
  {
    var n := Tightest(g);
    var body := Minimal(g, Rank(g, e), e);
    assert Fits(g, Rank(g, e), body) by {
      match e
      case Leaf(_) =>
      case Un(op, arg) => MinimalFits(g, n, arg);
      case Bin(op, left, right) =>
        MinimalFits(g, LevelOf(g, op), left);
        MinimalFits(g, LevelOf(g, op) + 1, right);
      case Cond(test, yes, no) =>
        MinimalFits(g, 1, test);
        MinimalFits(g, 0, yes);
        MinimalFits(g, 0, no);
      case Select(test, yes, no) =>
        MinimalFits(g, 0, test);
        MinimalFits(g, 0, yes);
        MinimalFits(g, 0, no);
    }
    if Rank(g, e) < l {
      FitsDown(g, 0, Rank(g, e), body);
      assert Minimal(g, l, e) == Paren(body);
      FitsDown(g, l, n, Paren(body));
    } else {
      assert Minimal(g, l, e) == body;
      FitsDown(g, l, Rank(g, e), body);
    }
  }

  /** No pair of parentheses is spare: without it the operand would not fit. */
  lemma MinimalIsTight(g: Grammar, l: nat, e: Expr)
    requires GrammarOk(g) && l <= Tightest(g) && Bare(g, e) && Minimal(g, l, e).Paren?
    ensures !Fits(g, l, Minimal(g, l, e).inner)
  {
    TooLoose(g, Rank(g, e), l, Minimal(g, l, e).inner);
  }

  /** `e` without its parentheses. */
  function Strip(e: Expr): Expr
    decreases e
  {
    match e
    case Leaf(_) => e
    case Un(op, arg) => Un(op, Strip(arg))
    case Bin(op, left, right) => Bin(op, Strip(left), Strip(right))
    case Cond(test, yes, no) => Cond(Strip(test), Strip(yes), Strip(no))
    case Select(test, yes, no) => Select(Strip(test), Strip(yes), Strip(no))
    case Paren(inner) => Strip(inner)
  }

  /** What was parsed, stripped, can be printed with the fewest parentheses again. */
  lemma {:induction false} StripIsBare(g: Grammar, l: nat, e: Expr)
    requires l <= Tightest(g) && Fits(g, l, e)
    ensures Bare(g, Strip(e))
    decreases e, Tightest(g) - l
  {
    if l == 0 && g.ternary && e.Cond? {
      StripIsBare(g, 1, e.test);
      StripIsBare(g, 0, e.yes);
      StripIsBare(g, 0, e.no);
    } else if l == 0 {
      StripIsBare(g, 1, e);
    } else if l < Tightest(g) {
      if e.Bin? && At(g, l, e.sym) {
        StripIsBare(g, l, e.left);
        StripIsBare(g, l + 1, e.right);
      } else {
        StripIsBare(g, l + 1, e);
      }
    } else {
      match e
      case Leaf(_) =>
      case Un(_, arg) => StripIsBare(g, l, arg);
      case Paren(inner) => StripIsBare(g, 0, inner);
      case Select(test, yes, no) =>
        StripIsBare(g, 0, test);
        StripIsBare(g, 0, yes);
        StripIsBare(g, 0, no);
    }
  }
}
