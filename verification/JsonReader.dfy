/** The reader as it is written: methods that move a cursor over the text in loops. */
module JsonReader {
  import opened Seqs
  import opened JsonText
  import opened Json

  /** The character at the head of a string's inside, and the length of its spelling. */
  function Decoded(s: string): (r: (char, nat))
    requires s != []
    ensures 1 <= r.1 <= |s|
  {
    if s[0] == '\\' && Head(s[1..]) != NUL then Unescape(s) else (s[0], 1)
  }

  lemma NextCharStep(s: string, before: string)
    requires Head(s) != NUL && s[0] != '"'
    ensures var (c, n) := Decoded(s);
      && before + [c] + ReadChars(s[n..]).0 == before + ReadChars(s).0
      && ReadChars(s[n..]).1 == ReadChars(s).1
  {
    hide Unescape;
    var (c, n) := Decoded(s);
    var (cs, rest) := ReadChars(s[n..]);
    assert ReadChars(s) == ([c] + cs, rest);
    hide ReadChars;
    assert before + ([c] + cs) == before + [c] + cs;
  }

  class Cursor {
    const text: string
    var p: nat

    ghost predicate Valid()
      reads this
    {
      p <= |text|
    }

    /** The text under the cursor. */
    ghost function Rest(): string
      requires Valid()
      reads this
    {
      text[p..]
    }

    constructor (text: string)
      ensures Valid() && Rest() == text
    {
      this.text, p := text, 0;
    }

    /** The character under the cursor, the terminator at the end. */
    function Peek(): (c: char)
      requires Valid()
      reads this
      ensures c == Head(Rest())
    {
      if p < |text| then text[p] else NUL
    }

    method Advance(n: nat)
      requires Valid() && n <= |Rest()|
      modifies this
      ensures Valid() && Rest() == old(Rest())[n..]
    {
      p := p + n;
    }

    method AcceptChar(c: char)
      requires Valid()
      modifies this
      ensures Valid() && Rest() == Accept(old(Rest()), c)
    {
      if p < |text| && text[p] == c { Advance(1); }
    }

    method SkipSpace()
      requires Valid()
      modifies this
      ensures Valid() && Rest() == SkipWs(old(Rest())) && SkipWs(Rest()) == Rest()
    {
      while IsSpace(Peek())
        invariant Valid() && SkipWs(Rest()) == SkipWs(old(Rest()))
        decreases |text| - p
      {
        Advance(1);
      }
      SkipWsStops(old(Rest()));
    }

    /** `strncmp` with a word that has no NUL. */
    method StartsWith(word: string) returns (yes: bool)
      requires Valid()
      ensures yes <==> word <= Rest()
    {
      yes := p + |word| <= |text| && text[p..p + |word|] == word;
      assert p + |word| <= |text| ==> text[p..p + |word|] == Rest()[..|word|];
    }

    /** `strtoll`: white space, a sign, digits; the cursor stays put when there is no digit. */
    method ParseInt() returns (n: int)
      requires Valid()
      modifies this
      ensures Valid() && (n, Rest()) == ReadInt(old(Rest()))
    {
      var start := p;
      ghost var s := Rest();
      while IsSpace(Peek()) || Peek() as int == 11 || Peek() as int == 12
        invariant Valid() && SkipCSpace(Rest()) == SkipCSpace(s)
        decreases |text| - p
      {
        Advance(1);
      }
      var negative := Peek() == '-';
      if Peek() == '-' || Peek() == '+' { Advance(1); }
      if !IsDigit(Peek()) {
        p := start;
        return 0;
      }
      var magnitude := ParseDigits();
      n := Clamp(if negative then -magnitude else magnitude);
    }

    method ParseDigits() returns (n: int)
      requires Valid()
      modifies this
      ensures Valid() && n >= 0 && (n, Rest()) == ReadDigits(old(Rest()), 0)
    {
      n := 0;
      while IsDigit(Peek())
        invariant Valid() && n >= 0 && ReadDigits(Rest(), n) == ReadDigits(old(Rest()), 0)
        decreases |text| - p
      {
        n := 10 * n + (Peek() as int - '0' as int);
        Advance(1);
      }
    }

    /** The next character of a string literal and the length of its spelling. */
    function NextChar(): (r: (char, nat))
      requires Valid() && Peek() != NUL
      reads this
      ensures r == Decoded(Rest())
    {
      if text[p] == '\\' && p + 1 < |text| && text[p + 1] != NUL then Unescape(text[p..]) else (text[p], 1)
    }

    /** A quoted string, its escapes undone into a buffer. */
    method ReadQuoted() returns (r: Option<string>)
      requires Valid()
      modifies this
      ensures Valid()
      ensures match ReadString(old(Rest()))
              case None => r.None? && Rest() == SkipWs(old(Rest()))
              case Some(q) => r == Some(q.0) && Rest() == q.1 && |Rest()| < |old(Rest())|
    {
      SkipSpace();
      if Peek() != '"' { return None; }
      Advance(1);
      ghost var s := Rest();
      var buf: string := [];
      assert buf + ReadChars(s).0 == ReadChars(s).0;
      while Peek() != NUL && Peek() != '"'
        invariant Valid()
        invariant (buf + ReadChars(Rest()).0, ReadChars(Rest()).1) == ReadChars(s)
        decreases |text| - p
      {
        var (c, n) := NextChar();
        NextCharStep(Rest(), buf);
        buf := buf + [c];
        Advance(n);
      }
      assert buf + [] == buf;
      AcceptChar('"');
      r := Some(buf);
    }

    /** Read a value of type `t` over the slot's old value. */
    method FillValue(env: Env, t: Type, was: Value) returns (v: Value)
      requires Valid()
      modifies this
      ensures Valid() && (v, Rest()) == Fill(env, t, old(Rest()), was)
      decreases |Rest()|, 3
    {
      hide FillObject, FillEnum;
      SkipSpace();
      match t
      case TInt =>
        var n := ParseInt();
        v := VInt(n);
      case TBool => v := FillBool(was);
      case TString =>
        var s := ReadQuoted();
        v := if s.Some? then VString(UpToNul(s.value)) else VString([]);
      case TVec(elem) =>
        if Peek() != '[' { return VVec([]); }
        Advance(1);
        SkipSpace();
        var vs := FillArray(env, elem);
        AcceptChar(']');
        v := VVec(vs);
      case TNamed(name) =>
        match Resolve(env, name) {
          case Struct(fs) =>
            var vs := FillSlots(env, fs);
            v := VStruct(vs);
          case Enum(ws) => v := FillTagged(env, ws, was);
          case Unregistered => v := was;
        }
    }

    method FillBool(was: Value) returns (v: Value)
      requires Valid()
      modifies this
      ensures Valid()
      ensures var s := old(Rest());
        (v, Rest()) == if "true" <= s then (VBool(true), s[4..]) else if "false" <= s then (VBool(false), s[5..]) else (was, s)
    {
      var yes := StartsWith("true");
      if yes {
        Advance(4);
        return VBool(true);
      }
      var no := StartsWith("false");
      if no {
        Advance(5);
        return VBool(false);
      }
      v := was;
    }

    method FillArray(env: Env, elem: Type) returns (vs: seq<Value>)
      requires Valid()
      modifies this
      ensures Valid() && (vs, Rest()) == FillElems(env, elem, old(Rest()))
      decreases |Rest()|, 4
    {
      hide Fill, FillElems, SkipWs;
      ghost var goal := FillElems(env, elem, Rest());
      vs := [];
      assert vs + goal.0 == goal.0;
      while Peek() != NUL && Peek() != ']'
        invariant Valid() && |Rest()| <= |old(Rest())|
        invariant vs + FillElems(env, elem, Rest()).0 == goal.0 && FillElems(env, elem, Rest()).1 == goal.1
        decreases |Rest()|
      {
        ElemsStep(env, elem, Rest(), vs);
        var v := FillValue(env, elem, Unset);
        vs := vs + [v];
        SkipSpace();
        if Peek() != ',' { return; }
        Advance(1);
        SkipSpace();
      }
      ElemsEnd(env, elem, Rest(), vs);
    }

    /** An object, into fresh slots. */
    method FillSlots(env: Env, fs: seq<Field>) returns (vs: seq<Value>)
      requires Valid()
      modifies this
      ensures Valid() && (vs, Rest()) == FillObject(env, fs, old(Rest()))
      decreases |Rest()|, 2
    {
      hide FillFields;
      SkipSpace();
      vs := Blank(|fs|);
      if Peek() != '{' { return; }
      Advance(1);
      SkipSpace();
      vs := FillNamed(env, fs, vs);
    }

    method FillNamed(env: Env, fs: seq<Field>, slots: seq<Value>) returns (vs: seq<Value>)
      requires Valid() && |slots| == |fs|
      modifies this
      ensures Valid() && (vs, Rest()) == FillFields(env, fs, old(Rest()), slots)
      decreases |Rest()|, 1
    {
      hide Fill, ReadString, UpToNul, FieldIndex;
      vs := slots;
      while Peek() != NUL && Peek() != '}'
        invariant Valid() && |Rest()| <= |old(Rest())| && |vs| == |fs|
        invariant FillFields(env, fs, Rest(), vs) == FillFields(env, fs, old(Rest()), slots)
        decreases |Rest()|
      {
        SkipSpace();
        if Peek() == '}' { return; }
        var name := ReadQuoted();
        if name.None? { return; }
        SkipSpace();
        if Peek() != ':' { return; }
        Advance(1);
        var i := FieldIndex(fs, UpToNul(name.value));
        if i.Some? {
          var v := FillValue(env, fs[i.value].typ, vs[i.value]);
          vs := vs[i.value := v];
        }
        SkipSpace();
        if Peek() == ',' {
          Advance(1);
        } else {
          AcceptChar('}');
          return;
        }
      }
    }

    method FillTagged(env: Env, ws: seq<Variant>, was: Value) returns (v: Value)
      requires Valid()
      modifies this
      ensures Valid() && (v, Rest()) == FillEnum(env, ws, old(Rest()), was)
      decreases |Rest()|, 2
    {
      hide FillPayload, ReadString, UpToNul, ByName;
      SkipSpace();
      if Peek() != '{' { return was; }
      Advance(1);
      SkipSpace();
      var name := ReadQuoted();
      if name.None? { return was; }
      SkipSpace();
      AcceptChar(':');
      SkipSpace();
      match ByName(ws, UpToNul(name.value)) {
        case None => v := was;
        case Some(w) =>
          var vs := FillVariant(env, w.payload);
          v := VEnum(w.tag, vs);
      }
      SkipSpace();
      AcceptChar('}');
    }

    method FillVariant(env: Env, ts: seq<Type>) returns (vs: seq<Value>)
      requires Valid()
      modifies this
      ensures Valid() && (vs, Rest()) == FillPayload(env, ts, old(Rest()))
      decreases |Rest()|, 6
    {
      hide Fill, FillTuple;
      if |ts| == 0 {
        var isNull := StartsWith("null");
        if isNull { Advance(4); }
        return [];
      }
      if |ts| == 1 {
        var v := FillValue(env, ts[0], Unset);
        return [v];
      }
      SkipSpace();
      if Peek() != '[' { return Blank(|ts|); }
      Advance(1);
      SkipSpace();
      vs := FillPositions(env, ts);
      AcceptChar(']');
    }

    method FillPositions(env: Env, ts: seq<Type>) returns (vs: seq<Value>)
      requires Valid()
      modifies this
      ensures Valid() && (vs, Rest()) == FillTuple(env, ts, old(Rest()))
      decreases |Rest()|, 5
    {
      hide Fill, FillTuple, SkipWs;
      ghost var goal := FillTuple(env, ts, Rest());
      vs := [];
      var i := 0;
      assert ts[0..] == ts && vs + goal.0 == goal.0;
      while i < |ts|
        invariant Valid() && |Rest()| <= |old(Rest())| && 0 <= i <= |ts|
        invariant vs + FillTuple(env, ts[i..], Rest()).0 == goal.0 && FillTuple(env, ts[i..], Rest()).1 == goal.1
      {
        TupleStep(env, ts, i, Rest(), vs);
        var v := FillValue(env, ts[i], Unset);
        vs := vs + [v];
        SkipSpace();
        i := i + 1;
        if Peek() != ',' {
          vs := vs + Blank(|ts| - i);
          return;
        }
        Advance(1);
        SkipSpace();
      }
      TupleEnd(env, ts, Rest(), vs);
    }
  }

  // -------------------------------------------------- one turn of the two array loops

  lemma ElemsStep(env: Env, elem: Type, s: string, before: seq<Value>)
    requires Head(s) != NUL && s[0] != ']'
    ensures
      var (v, rest) := Fill(env, elem, s, Unset);
      var left := SkipWs(rest);
      var all := FillElems(env, elem, s);
      if Head(left) == ',' then
        var more := FillElems(env, elem, SkipWs(left[1..]));
        before + all.0 == before + [v] + more.0 && all.1 == more.1
      else before + all.0 == before + [v] && all.1 == left
  {
    hide Fill, SkipWs;
    var (v, rest) := Fill(env, elem, s, Unset);
    var left := SkipWs(rest);
    ElemsTurn(env, elem, s);
    if Head(left) == ',' {
      hide FillElems;
      Regroup(before, v, FillElems(env, elem, SkipWs(left[1..])).0);
    }
  }

  /** One unfolding of the array loop. */
  lemma ElemsTurn(env: Env, elem: Type, s: string)
    requires Head(s) != NUL && s[0] != ']'
    ensures
      var (v, rest) := Fill(env, elem, s, Unset);
      var left := SkipWs(rest);
      FillElems(env, elem, s)
      == if Head(left) == ',' then
           var more := FillElems(env, elem, SkipWs(left[1..]));
           ([v] + more.0, more.1)
         else ([v], left)
  {
    hide Fill, SkipWs;
  }

  lemma Regroup(before: seq<Value>, v: Value, more: seq<Value>)
    ensures before + ([v] + more) == before + [v] + more
  {
  }

  lemma ElemsEnd(env: Env, elem: Type, s: string, before: seq<Value>)
    requires Head(s) == NUL || s[0] == ']'
    ensures before + FillElems(env, elem, s).0 == before && FillElems(env, elem, s).1 == s
  {
    assert before + [] == before;
  }

  lemma TupleStep(env: Env, ts: seq<Type>, i: nat, s: string, before: seq<Value>)
    requires i < |ts|
    ensures
      var (v, rest) := Fill(env, ts[i], s, Unset);
      var left := SkipWs(rest);
      var all := FillTuple(env, ts[i..], s);
      if Head(left) == ',' then
        var more := FillTuple(env, ts[i + 1..], SkipWs(left[1..]));
        before + all.0 == before + [v] + more.0 && all.1 == more.1
      else before + all.0 == before + [v] + Blank(|ts| - i - 1) && all.1 == left
  {
    hide Fill, SkipWs;
    assert ts[i..][1..] == ts[i + 1..];
  }

  lemma TupleEnd(env: Env, ts: seq<Type>, s: string, before: seq<Value>)
    ensures before + FillTuple(env, ts[|ts|..], s).0 == before && FillTuple(env, ts[|ts|..], s).1 == s
  {
    assert before + [] == before;
  }
}
