/** The two parsers as they are written: a mutable position, and a loop at each binary level. */
module MacroParsers {
  import opened Seqs
  import opened Precedence
  import opened MacroExpr
  import opened MacroDerivation

  // ------------------------------------------------------------------ the integer evaluator

  /** The tokens of `s` up to the rest of it. */
  ghost function Consumed(s: seq<Tok>, rest: seq<Tok>): seq<Tok> {
    if |rest| <= |s| then s[..|s| - |rest|] else []
  }

  /** Nonterminal `l` yields no value from `s`. */
  predicate NoValue(m: Meaning, l: nat, s: seq<Tok>)
    requires l <= 7
  {
    Parse(INT, l, s).None? || Value(m, Parse(INT, l, s).value.0).None?
  }

  /** A left operand without a value leaves the level without one. */
  lemma {:induction false} NoValueSticks(m: Meaning, l: nat, left: Expr, s: seq<Tok>)
    requires 1 <= l < 7 && Value(m, left).None? && ParseMore(INT, l, left, s).Some?
    ensures Value(m, ParseMore(INT, l, left, s).value.0).None?
    decreases |s|
  {
    if StartsAt(INT, l, s) {
      var (right, rest) := Parse(INT, l + 1, s[1..]).value;
      NoValueSticks(m, l, Bin(s[0].sym, left, right), rest);
    }
  }

  lemma FirstFails(m: Meaning, l: nat, s: seq<Tok>)
    requires 1 <= l < 7 && NoValue(m, l + 1, s)
    ensures NoValue(m, l, s)
  {
    if Parse(INT, l, s).Some? {
      var (first, rest) := Parse(INT, l + 1, s).value;
      NoValueSticks(m, l, first, rest);
    }
  }

  /** The loop of a level at an operator whose right operand has no value, or yields none with it. */
  lemma RightFails(m: Meaning, l: nat, left: Expr, s: seq<Tok>)
    requires 1 <= l < 7 && StartsAt(INT, l, s)
    requires NoValue(m, l + 1, s[1..])
          || Value(m, Bin(s[0].sym, left, Parse(INT, l + 1, s[1..]).value.0)).None?
    ensures ParseMore(INT, l, left, s).Some? ==> Value(m, ParseMore(INT, l, left, s).value.0).None?
  {
    if ParseMore(INT, l, left, s).Some? {
      var (right, rest) := Parse(INT, l + 1, s[1..]).value;
      NoValueSticks(m, l, Bin(s[0].sym, left, right), rest);
    }
  }

  lemma Turn(g: Grammar, l: nat, left: Expr, s: seq<Tok>)
    requires 1 <= l < Tightest(g) && StartsAt(g, l, s) && Parse(g, l + 1, s[1..]).Some?
    ensures var (right, rest) := Parse(g, l + 1, s[1..]).value;
      ParseMore(g, l, left, s) == ParseMore(g, l, Bin(s[0].sym, left, right), rest)
  {
  }

  lemma FirstTurn(g: Grammar, l: nat, s: seq<Tok>)
    requires 1 <= l < Tightest(g) && Parse(g, l + 1, s).Some?
    ensures var (first, rest) := Parse(g, l + 1, s).value; Parse(g, l, s) == ParseMore(g, l, first, rest)
  {
  }

  lemma LastTurn(g: Grammar, l: nat, e: Expr, s: seq<Tok>)
    requires 1 <= l < Tightest(g) && !StartsAt(g, l, s)
    ensures ParseMore(g, l, e, s) == Some((e, s))
  {
  }

  lemma PrefixTurn(g: Grammar, op: Sym, s: seq<Tok>)
    requires op in g.prefix && Starts(s, op)
    ensures Parse(g, Tightest(g), s)
         == match Parse(g, Tightest(g), s[1..])
            case None => None
            case Some(arg) => Some((Un(op, arg.0), arg.1))
  {
  }

  lemma PrimaryTurn(g: Grammar, s: seq<Tok>)
    requires !g.select && (s == [] || s[0].Word? || s[0].sym !in g.prefix)
    ensures Parse(g, Tightest(g), s)
         == if s == [] then None
            else if s[0].Word? then Some((Leaf(s[0].text), s[1..]))
            else if s[0].sym != LParen then None
            else match Parse(g, 0, s[1..])
              case None => None
              case Some(p) => if Starts(p.1, RParen) then Some((Paren(p.0), p.1[1..])) else None
  {
  }

  /** Which tokens each level of the integer grammar looks for. */
  lemma LevelTokens(s: seq<Tok>)
    ensures StartsAt(INT, 1, s) <==> Starts(s, Bar)
    ensures StartsAt(INT, 2, s) <==> Starts(s, Caret)
    ensures StartsAt(INT, 3, s) <==> Starts(s, Amp)
    ensures StartsAt(INT, 4, s) <==> Starts(s, Shl) || Starts(s, Shr)
    ensures StartsAt(INT, 5, s) <==> Starts(s, Plus) || Starts(s, Minus)
    ensures StartsAt(INT, 6, s) <==> Starts(s, Star) || Starts(s, Slash) || Starts(s, Percent)
  {
  }

  class IntEval {
    const toks: seq<Tok>
    const m: Meaning
    var p: nat

    ghost predicate Valid()
      reads this
    {
      p <= |toks|
    }

    ghost function Rest(): seq<Tok>
      requires Valid()
      reads this
    {
      toks[p..]
    }

    constructor (toks: seq<Tok>, m: Meaning)
      ensures Valid() && this.toks == toks && this.m == m && Rest() == toks
    {
      this.toks, this.m, p := toks, m, 0;
    }

    /** Consume the next token if it is this symbol. */
    method Match(op: Sym) returns (yes: bool)
      requires Valid()
      modifies this
      ensures Valid() && yes == Starts(old(Rest()), op)
      ensures Rest() == if yes then old(Rest())[1..] else old(Rest())
    {
      yes := p < |toks| && toks[p] == Op(op);
      if yes { p := p + 1; }
    }

    /** The whole body: a value exactly when all tokens form an expression that has one. */
    method Run() returns (r: Option<int>)
      requires Valid() && p == 0
      modifies this
      ensures r == Evaluate(m, toks)
    {
      assert toks[0..] == toks;
      WholeIsBor(toks);
      var v, e := Bor();
      if v.None? { return None; }
      r := if p == |toks| then v else None;
    }

    /** `|` */
    method Bor() returns (v: Option<int>, ghost e: Expr)
      requires Valid()
      modifies this
      ensures Valid()
      ensures v.Some? ==> Parse(INT, 1, old(Rest())) == Some((e, Rest())) && Value(m, e) == v
      ensures v.Some? ==> Derives(m, 1, Consumed(old(Rest()), Rest()), v.value)
      ensures v.None? ==> NoValue(m, 1, old(Rest()))
      decreases |Rest()|, 7
    {
      hide Parse, ParseMore, Value, StartsAt, Derives;
      ghost var s := Rest();
      v, e := Bxor();
      if v.None? {
        FirstFails(m, 1, s);
        return;
      }
      FirstTurn(INT, 1, s);
      while true
        invariant Valid() && |Rest()| <= |s| && v.Some? && Value(m, e) == v
        invariant Parse(INT, 1, s) == ParseMore(INT, 1, e, Rest())
        decreases |Rest()|
      {
        ghost var at := Rest();
        LevelTokens(at);
        var isBar := Match(Bar);
        if isBar {
          v, e := Combine(1, Bar, v.value, e, at);
          if v.None? { return; }
          continue;
        }
        LastTurn(INT, 1, e, at);
        ParsedDerives(m, 1, s);
        return;
      }
    }

    /** `^` */
    method Bxor() returns (v: Option<int>, ghost e: Expr)
      requires Valid()
      modifies this
      ensures Valid()
      ensures v.Some? ==> Parse(INT, 2, old(Rest())) == Some((e, Rest())) && Value(m, e) == v
      ensures v.Some? ==> Derives(m, 2, Consumed(old(Rest()), Rest()), v.value)
      ensures v.None? ==> NoValue(m, 2, old(Rest()))
      decreases |Rest()|, 6
    {
      hide Parse, ParseMore, Value, StartsAt, Derives;
      ghost var s := Rest();
      v, e := Band();
      if v.None? {
        FirstFails(m, 2, s);
        return;
      }
      FirstTurn(INT, 2, s);
      while true
        invariant Valid() && |Rest()| <= |s| && v.Some? && Value(m, e) == v
        invariant Parse(INT, 2, s) == ParseMore(INT, 2, e, Rest())
        decreases |Rest()|
      {
        ghost var at := Rest();
        LevelTokens(at);
        var isCaret := Match(Caret);
        if isCaret {
          v, e := Combine(2, Caret, v.value, e, at);
          if v.None? { return; }
          continue;
        }
        LastTurn(INT, 2, e, at);
        ParsedDerives(m, 2, s);
        return;
      }
    }

    /** `&` */
    method Band() returns (v: Option<int>, ghost e: Expr)
      requires Valid()
      modifies this
      ensures Valid()
      ensures v.Some? ==> Parse(INT, 3, old(Rest())) == Some((e, Rest())) && Value(m, e) == v
      ensures v.Some? ==> Derives(m, 3, Consumed(old(Rest()), Rest()), v.value)
      ensures v.None? ==> NoValue(m, 3, old(Rest()))
      decreases |Rest()|, 5
    {
      hide Parse, ParseMore, Value, StartsAt, Derives;
      ghost var s := Rest();
      v, e := Shift();
      if v.None? {
        FirstFails(m, 3, s);
        return;
      }
      FirstTurn(INT, 3, s);
      while true
        invariant Valid() && |Rest()| <= |s| && v.Some? && Value(m, e) == v
        invariant Parse(INT, 3, s) == ParseMore(INT, 3, e, Rest())
        decreases |Rest()|
      {
        ghost var at := Rest();
        LevelTokens(at);
        var isAmp := Match(Amp);
        if isAmp {
          v, e := Combine(3, Amp, v.value, e, at);
          if v.None? { return; }
          continue;
        }
        LastTurn(INT, 3, e, at);
        ParsedDerives(m, 3, s);
        return;
      }
    }

    /** `<<` and `>>` */
    method Shift() returns (v: Option<int>, ghost e: Expr)
      requires Valid()
      modifies this
      ensures Valid()
      ensures v.Some? ==> Parse(INT, 4, old(Rest())) == Some((e, Rest())) && Value(m, e) == v
      ensures v.Some? ==> Derives(m, 4, Consumed(old(Rest()), Rest()), v.value)
      ensures v.None? ==> NoValue(m, 4, old(Rest()))
      decreases |Rest()|, 4
    {
      hide Parse, ParseMore, Value, StartsAt, Derives;
      ghost var s := Rest();
      v, e := Add();
      if v.None? {
        FirstFails(m, 4, s);
        return;
      }
      FirstTurn(INT, 4, s);
      while true
        invariant Valid() && |Rest()| <= |s| && v.Some? && Value(m, e) == v
        invariant Parse(INT, 4, s) == ParseMore(INT, 4, e, Rest())
        decreases |Rest()|
      {
        ghost var at := Rest();
        LevelTokens(at);
        var isShl := Match(Shl);
        if isShl {
          v, e := Combine(4, Shl, v.value, e, at);
          if v.None? { return; }
          continue;
        }
        var isShr := Match(Shr);
        if isShr {
          v, e := Combine(4, Shr, v.value, e, at);
          if v.None? { return; }
          continue;
        }
        LastTurn(INT, 4, e, at);
        ParsedDerives(m, 4, s);
        return;
      }
    }

    /** `+` and `-` */
    method Add() returns (v: Option<int>, ghost e: Expr)
      requires Valid()
      modifies this
      ensures Valid()
      ensures v.Some? ==> Parse(INT, 5, old(Rest())) == Some((e, Rest())) && Value(m, e) == v
      ensures v.Some? ==> Derives(m, 5, Consumed(old(Rest()), Rest()), v.value)
      ensures v.None? ==> NoValue(m, 5, old(Rest()))
      decreases |Rest()|, 3
    {
      hide Parse, ParseMore, Value, StartsAt, Derives;
      ghost var s := Rest();
      v, e := Mul();
      if v.None? {
        FirstFails(m, 5, s);
        return;
      }
      FirstTurn(INT, 5, s);
      while true
        invariant Valid() && |Rest()| <= |s| && v.Some? && Value(m, e) == v
        invariant Parse(INT, 5, s) == ParseMore(INT, 5, e, Rest())
        decreases |Rest()|
      {
        ghost var at := Rest();
        LevelTokens(at);
        var isPlus := Match(Plus);
        if isPlus {
          v, e := Combine(5, Plus, v.value, e, at);
          if v.None? { return; }
          continue;
        }
        var isMinus := Match(Minus);
        if isMinus {
          v, e := Combine(5, Minus, v.value, e, at);
          if v.None? { return; }
          continue;
        }
        LastTurn(INT, 5, e, at);
        ParsedDerives(m, 5, s);
        return;
      }
    }

    /** `*`, `/` and `%`; a zero divisor fails */
    method Mul() returns (v: Option<int>, ghost e: Expr)
      requires Valid()
      modifies this
      ensures Valid()
      ensures v.Some? ==> Parse(INT, 6, old(Rest())) == Some((e, Rest())) && Value(m, e) == v
      ensures v.Some? ==> Derives(m, 6, Consumed(old(Rest()), Rest()), v.value)
      ensures v.None? ==> NoValue(m, 6, old(Rest()))
      decreases |Rest()|, 2
    {
      hide Parse, ParseMore, Value, StartsAt, Derives;
      ghost var s := Rest();
      v, e := Unary();
      if v.None? {
        FirstFails(m, 6, s);
        return;
      }
      FirstTurn(INT, 6, s);
      while true
        invariant Valid() && |Rest()| <= |s| && v.Some? && Value(m, e) == v
        invariant Parse(INT, 6, s) == ParseMore(INT, 6, e, Rest())
        decreases |Rest()|
      {
        ghost var at := Rest();
        LevelTokens(at);
        var isStar := Match(Star);
        if isStar {
          v, e := Combine(6, Star, v.value, e, at);
          if v.None? { return; }
          continue;
        }
        var isSlash := Match(Slash);
        if isSlash {
          v, e := Combine(6, Slash, v.value, e, at);
          if v.None? { return; }
          continue;
        }
        var isPercent := Match(Percent);
        if isPercent {
          v, e := Combine(6, Percent, v.value, e, at);
          if v.None? { return; }
          continue;
        }
        LastTurn(INT, 6, e, at);
        ParsedDerives(m, 6, s);
        return;
      }
    }

    /** The nonterminal inside level `l`. */
    method Operand(l: nat) returns (v: Option<int>, ghost e: Expr)
      requires Valid() && 1 <= l <= 6
      modifies this
      ensures Valid()
      ensures v.Some? ==> Parse(INT, l + 1, old(Rest())) == Some((e, Rest())) && Value(m, e) == v
      ensures v.None? ==> NoValue(m, l + 1, old(Rest()))
      decreases |Rest()|, 8
    {
      hide Parse, Value, NoValue;
      if l == 1 { v, e := Bxor(); }
      else if l == 2 { v, e := Band(); }
      else if l == 3 { v, e := Shift(); }
      else if l == 4 { v, e := Add(); }
      else if l == 5 { v, e := Mul(); }
      else { v, e := Unary(); }
    }

    /** The right operand of an operator of level `l`, just consumed at `at`, and the combined value. */
    method Combine(l: nat, op: Sym, x: int, ghost left: Expr, ghost at: seq<Tok>) returns (v: Option<int>, ghost e: Expr)
      requires Valid() && 1 <= l <= 6 && Starts(at, op) && StartsAt(INT, l, at) && Rest() == at[1..]
      requires Value(m, left) == Some(x)
      modifies this
      ensures Valid()
      ensures v.Some? ==> |Rest()| < |at| && Value(m, e) == v
      ensures v.Some? ==> ParseMore(INT, l, left, at) == ParseMore(INT, l, e, Rest())
      ensures v.None? ==> ParseMore(INT, l, left, at).None? || Value(m, ParseMore(INT, l, left, at).value.0).None?
      decreases |Rest()|, 9
    {
      hide Parse, ParseMore, StartsAt;
      v, e := Operand(l);
      if v.Some? {
        Turn(INT, l, left, at);
        e := Bin(op, left, e);
        v := BinValue(m, op, x, v.value);
      }
      if v.None? { RightFails(m, l, left, at); }
    }

    /** `-`, `+` and `~`. */
    method Unary() returns (v: Option<int>, ghost e: Expr)
      requires Valid()
      modifies this
      ensures Valid()
      ensures v.Some? ==> Parse(INT, 7, old(Rest())) == Some((e, Rest())) && Value(m, e) == v
      ensures v.Some? ==> Derives(m, 7, Consumed(old(Rest()), Rest()), v.value)
      ensures v.None? ==> NoValue(m, 7, old(Rest()))
      decreases |Rest()|, 1
    {
      hide Parse, Derives;
      ghost var s := Rest();
      var minus := Match(Minus);
      if minus {
        PrefixTurn(INT, Minus, s);
        v, e := Unary();
        if v.Some? { v := Some(m.un(Minus, v.value)); }
        e := Un(Minus, e);
        if v.Some? { ParsedDerives(m, 7, s); }
        return;
      }
      var plus := Match(Plus);
      if plus {
        PrefixTurn(INT, Plus, s);
        v, e := Unary();
        e := Un(Plus, e);
        if v.Some? { ParsedDerives(m, 7, s); }
        return;
      }
      var tilde := Match(Tilde);
      if tilde {
        PrefixTurn(INT, Tilde, s);
        v, e := Unary();
        if v.Some? { v := Some(m.un(Tilde, v.value)); }
        e := Un(Tilde, e);
        if v.Some? { ParsedDerives(m, 7, s); }
        return;
      }
      v, e := Primary();
    }

    /** A parenthesised expression, a literal, or a known name. */
    method Primary() returns (v: Option<int>, ghost e: Expr)
      requires Valid() && !Starts(Rest(), Minus) && !Starts(Rest(), Plus) && !Starts(Rest(), Tilde)
      modifies this
      ensures Valid()
      ensures v.Some? ==> Parse(INT, 7, old(Rest())) == Some((e, Rest())) && Value(m, e) == v
      ensures v.Some? ==> Derives(m, 7, Consumed(old(Rest()), Rest()), v.value)
      ensures v.None? ==> NoValue(m, 7, old(Rest()))
      decreases |Rest()|, 0
    {
      hide Parse, Derives;
      ghost var s := Rest();
      PrimaryTurn(INT, s);
      e := Leaf("");
      if p >= |toks| { return None, e; }
      assert s[0] == toks[p];
      var open := Match(LParen);
      if open {
        WholeIsBor(Rest());
        v, e := Bor();
        if v.None? { return; }
        e := Paren(e);
        var close := Match(RParen);
        if !close { v := None; }
        if v.Some? { ParsedDerives(m, 7, s); }
        return;
      }
      if toks[p].Word? {
        e := Leaf(toks[p].text);
        v := LeafValue(m, toks[p].text);
        p := p + 1;
        if v.Some? { ParsedDerives(m, 7, s); }
      } else {
        v := None;
      }
    }
  }

  /** The integer grammar has no `?:`, so a whole expression is one of its loosest level. */
  lemma WholeIsBor(s: seq<Tok>)
    ensures Parse(INT, 0, s) == Parse(INT, 1, s)
  {
  }
}
