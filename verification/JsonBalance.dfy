/**
 Why a struct without fields, or an undeclared tag, is never read back: the reader leaves a brace,
 or a `null`, behind, and no later step can make up for it.
 */
module JsonBalance {
  import opened JsonText
  import opened Json
  import opened JsonRoundTrip

  // -------------------------------------------- reading never closes more than it opened

  lemma AcceptDepth(s: string, c: char)
    requires c != '"' && c != '{'
    ensures Depth(Accept(s, c)) == Depth(s) + if c == '}' && Head(s) == '}' && s != [] then 1 else 0
  {
  }

  lemma WordDepth(word: string, s: string)
    requires word <= s && (forall i :: 0 <= i < |word| ==> word[i] !in "\"{}")
    ensures Depth(s[|word|..]) == Depth(s)
  {
    if word != [] {
      assert s[0] == word[0];
      assert word[1..] <= s[1..];
      assert s[1..][|word| - 1..] == s[|word|..];
      WordDepth(word[1..], s[1..]);
    }
  }

  lemma {:induction false} FillDepth(env: Env, t: Type, s: string, was: Value)
    ensures Depth(Fill(env, t, s, was).1) <= Depth(s)
    decreases |s|, 3
  {
    SkipWsDepth(s);
    var s := SkipWs(s);
    match t
    case TInt => ReadIntDepth(s);
    case TBool =>
      if "true" <= s { WordDepth("true", s); }
      else if "false" <= s { WordDepth("false", s); }
    case TString => ReadStringDepth(s);
    case TVec(elem) =>
      if Head(s) == '[' {
        SkipWsDepth(s[1..]);
        FillElemsDepth(env, elem, SkipWs(s[1..]));
        AcceptDepth(FillElems(env, elem, SkipWs(s[1..])).1, ']');
      }
    case TNamed(name) =>
      match Resolve(env, name) {
        case Struct(fs) => FillObjectDepth(env, fs, s);
        case Enum(ws) => FillEnumDepth(env, ws, s, was);
        case Unregistered =>
      }
  }

  lemma {:induction false} FillElemsDepth(env: Env, elem: Type, s: string)
    ensures Depth(FillElems(env, elem, s).1) <= Depth(s)
    decreases |s|, 4
  {
    hide Fill;
    if Head(s) != NUL && s[0] != ']' {
      FillDepth(env, elem, s, Unset);
      var rest := Fill(env, elem, s, Unset).1;
      SkipWsDepth(rest);
      rest := SkipWs(rest);
      if Head(rest) == ',' {
        SkipWsDepth(rest[1..]);
        FillElemsDepth(env, elem, SkipWs(rest[1..]));
      }
    }
  }

  lemma {:induction false} FillObjectDepth(env: Env, fs: seq<Field>, s: string)
    ensures Depth(FillObject(env, fs, s).1) <= Depth(s)
    decreases |s|, 2
  {
    hide FillFields;
    SkipWsDepth(s);
    var s := SkipWs(s);
    if Head(s) == '{' {
      SkipWsDepth(s[1..]);
      FillFieldsDepth(env, fs, SkipWs(s[1..]), Blank(|fs|));
    }
  }

  lemma {:induction false} FillFieldsDepth(env: Env, fs: seq<Field>, s: string, vs: seq<Value>)
    requires |vs| == |fs|
    ensures Depth(FillFields(env, fs, s, vs).1) <= Depth(s) + 1
    decreases |s|, 1
  {
    hide FillField, ReadString, UpToNul;
    if Head(s) != NUL && s[0] != '}' {
      SkipWsDepth(s);
      var s := SkipWs(s);
      ReadStringDepth(s);
      if Head(s) != '}' && ReadString(s).Some? {
        var (name, rest) := ReadString(s).value;
        SkipWsDepth(rest);
        rest := SkipWs(rest);
        if Head(rest) == ':' {
          FillFieldDepth(env, fs, UpToNul(name), rest[1..], vs);
          var (vs', left) := FillField(env, fs, UpToNul(name), rest[1..], vs);
          SkipWsDepth(left);
          left := SkipWs(left);
          AcceptDepth(left, '}');
          if Head(left) == ',' {
            FillFieldsDepth(env, fs, left[1..], vs');
          }
        }
      }
    }
  }

  lemma FillFieldDepth(env: Env, fs: seq<Field>, name: string, s: string, vs: seq<Value>)
    requires |vs| == |fs|
    ensures Depth(FillField(env, fs, name, s, vs).1) <= Depth(s)
    decreases |s|, 4
  {
    hide Fill;
    match FieldIndex(fs, name)
    case None =>
    case Some(i) => FillDepth(env, fs[i].typ, s, vs[i]);
  }

  lemma {:induction false} FillEnumDepth(env: Env, ws: seq<Variant>, s: string, was: Value)
    ensures Depth(FillEnum(env, ws, s, was).1) <= Depth(s)
    decreases |s|, 2
  {
    hide FillPayload, ReadString, UpToNul, ByName;
    SkipWsDepth(s);
    var s := SkipWs(s);
    if Head(s) == '{' {
      SkipWsDepth(s[1..]);
      var s := SkipWs(s[1..]);
      ReadStringDepth(s);
      if ReadString(s).Some? {
        var (name, rest) := ReadString(s).value;
        SkipWsDepth(rest);
        AcceptDepth(SkipWs(rest), ':');
        SkipWsDepth(Accept(SkipWs(rest), ':'));
        rest := SkipWs(Accept(SkipWs(rest), ':'));
        match ByName(ws, UpToNul(name))
        case None =>
          SkipWsDepth(rest);
          AcceptDepth(SkipWs(rest), '}');
        case Some(w) =>
          FillPayloadDepth(env, w.payload, rest);
          rest := FillPayload(env, w.payload, rest).1;
          SkipWsDepth(rest);
          AcceptDepth(SkipWs(rest), '}');
      }
    }
  }

  lemma {:induction false} FillPayloadDepth(env: Env, ts: seq<Type>, s: string)
    ensures Depth(FillPayload(env, ts, s).1) <= Depth(s)
    decreases |s|, 6
  {
    hide Fill, FillTuple;
    if |ts| == 0 {
      if "null" <= s { WordDepth("null", s); }
    } else if |ts| == 1 {
      FillDepth(env, ts[0], s, Unset);
    } else {
      SkipWsDepth(s);
      var s := SkipWs(s);
      if Head(s) == '[' {
        SkipWsDepth(s[1..]);
        FillTupleDepth(env, ts, SkipWs(s[1..]));
        AcceptDepth(FillTuple(env, ts, SkipWs(s[1..])).1, ']');
      }
    }
  }

  lemma {:induction false} FillTupleDepth(env: Env, ts: seq<Type>, s: string)
    ensures Depth(FillTuple(env, ts, s).1) <= Depth(s)
    decreases |s|, 5, |ts|
  {
    hide Fill;
    if ts != [] {
      FillDepth(env, ts[0], s, Unset);
      var rest := Fill(env, ts[0], s, Unset).1;
      SkipWsDepth(rest);
      rest := SkipWs(rest);
      if Head(rest) == ',' {
        SkipWsDepth(rest[1..]);
        FillTupleDepth(env, ts[1..], SkipWs(rest[1..]));
      }
    }
  }

  // ------------------------------------------------------------- printed text is balanced

  lemma CommaDepth(k: string)
    ensures Depth(", " + k) == Depth(k) && Depth(": " + k) == Depth(k)
  {
    assert (", " + k)[2..] == k && (": " + k)[2..] == k;
    WordDepth(", ", ", " + k);
    WordDepth(": ", ": " + k);
  }

  lemma {:induction false} PrintDepth(env: Env, t: Type, v: Value, k: string)
    requires EnvOk(env) && Typed(env, t, v)
    ensures Depth(Print(env, t, v, k)) == Depth(k)
    decreases v, 1
  {
    match t
    case TInt => SignedDepth(v.n, k);
    case TBool =>
      var word := if v.b then "true" else "false";
      assert (word + k)[|word|..] == k;
      WordDepth(word, word + k);
    case TString => QuotedDepth(v.s, k);
    case TVec(elem) =>
      PrintElemsDepth(env, elem, v.elems, [']'] + k);
      PlainDepth('[', PrintElems(env, elem, v.elems, [']'] + k));
      PlainDepth(']', k);
    case TNamed(name) =>
      ResolveOk(env, name);
      match Resolve(env, name) {
        case Struct(fs) =>
          PrintFieldsDepth(env, fs, v.fields, ['}'] + k);
          BraceDepth(PrintFields(env, fs, v.fields, ['}'] + k), k);
        case Enum(ws) => PrintEnumDepth(env, ws, v, k);
        case Unregistered =>
      }
  }

  lemma BraceDepth(body: string, k: string)
    ensures Depth(['}'] + k) == Depth(k) - 1
    ensures Depth(['{'] + body) == Depth(body) + 1
  {
    assert (['}'] + k)[1..] == k;
    assert (['{'] + body)[1..] == body;
  }

  lemma {:induction false} PrintElemsDepth(env: Env, elem: Type, vs: seq<Value>, k: string)
    requires EnvOk(env) && (forall i :: 0 <= i < |vs| ==> Typed(env, elem, vs[i]))
    ensures Depth(PrintElems(env, elem, vs, k)) == Depth(k)
    decreases vs, 0
  {
    hide Print, Typed, EnvOk;
    if |vs| == 1 {
      PrintDepth(env, elem, vs[0], k);
    } else if vs != [] {
      var tail := PrintElems(env, elem, vs[1..], k);
      PrintElemsDepth(env, elem, vs[1..], k);
      CommaDepth(tail);
      PrintDepth(env, elem, vs[0], ", " + tail);
    }
  }

  lemma {:induction false} PrintFieldsDepth(env: Env, fs: seq<Field>, vs: seq<Value>, k: string)
    requires EnvOk(env) && |fs| == |vs| && (forall i :: 0 <= i < |fs| ==> Typed(env, fs[i].typ, vs[i]))
    ensures Depth(PrintFields(env, fs, vs, k)) == Depth(k)
    decreases vs, 0
  {
    hide Print, Typed, EnvOk, Quoted;
    if vs != [] {
      var next := if |vs| == 1 then k else ", " + PrintFields(env, fs[1..], vs[1..], k);
      if |vs| > 1 {
        PrintFieldsDepth(env, fs[1..], vs[1..], k);
        CommaDepth(PrintFields(env, fs[1..], vs[1..], k));
      }
      PrintDepth(env, fs[0].typ, vs[0], next);
      var text := Print(env, fs[0].typ, vs[0], next);
      CommaDepth(text);
      QuotedDepth(fs[0].name, ": " + text);
    }
  }

  lemma {:induction false} PrintEnumDepth(env: Env, ws: seq<Variant>, v: Value, k: string)
    requires EnvOk(env) && VariantsOk(ws) && v.VEnum?
    requires ByTag(ws, v.tag).Some? ==> AllTyped(env, ByTag(ws, v.tag).value.payload, v.payload)
    ensures ByTag(ws, v.tag).None? ==> Depth("null" + k) == Depth(k)
    ensures ByTag(ws, v.tag).Some? ==>
      var w := ByTag(ws, v.tag).value;
      Depth(['{', '"'] + (w.name + (['"'] + (": " + PrintPayload(env, w.payload, v.payload, ['}'] + k))))) == Depth(k)
    decreases v, 0
  {
    match ByTag(ws, v.tag)
    case None =>
      assert ("null" + k)[4..] == k;
      WordDepth("null", "null" + k);
    case Some(w) =>
      VariantFound(ws, v.tag);
      PrintPayloadDepth(env, w.payload, v.payload, ['}'] + k);
      var body := PrintPayload(env, w.payload, v.payload, ['}'] + k);
      EnumHeadDepth(w.name, body);
      BraceDepth([], k);
  }

  lemma QuoteDepth(inner: string)
    ensures Depth(['"'] + inner) == Depth(ReadChars(inner).1)
  {
    hide ReadChars;
    assert (['"'] + inner)[1..] == inner;
  }

  lemma EnumHeadDepth(name: string, body: string)
    requires PlainName(name)
    ensures Depth(['{', '"'] + (name + (['"'] + (": " + body)))) == Depth(body) + 1
  {
    hide ReadChars;
    var inner := name + (['"'] + (": " + body));
    PlainNameUndone(name, ": " + body);
    CommaDepth(body);
    QuoteDepth(inner);
    assert ['{', '"'] + inner == ['{'] + (['"'] + inner);
    BraceDepth(['"'] + inner, []);
  }

  lemma {:induction false} PrintPayloadDepth(env: Env, ts: seq<Type>, vs: seq<Value>, k: string)
    requires EnvOk(env) && AllTyped(env, ts, vs)
    ensures Depth(PrintPayload(env, ts, vs, k)) == Depth(k)
    decreases vs, 1
  {
    hide Print, Typed, EnvOk;
    if |vs| == 0 {
      assert ("null" + k)[4..] == k;
      WordDepth("null", "null" + k);
    } else if |vs| == 1 {
      PrintDepth(env, ts[0], vs[0], k);
    } else {
      PrintTupleDepth(env, ts, vs, [']'] + k);
      PlainDepth('[', PrintTuple(env, ts, vs, [']'] + k));
      PlainDepth(']', k);
    }
  }

  lemma {:induction false} PrintTupleDepth(env: Env, ts: seq<Type>, vs: seq<Value>, k: string)
    requires EnvOk(env) && AllTyped(env, ts, vs)
    ensures Depth(PrintTuple(env, ts, vs, k)) == Depth(k)
    decreases vs, 0
  {
    hide Print, Typed, EnvOk;
    if |vs| == 1 {
      PrintDepth(env, ts[0], vs[0], k);
    } else if vs != [] {
      var tail := PrintTuple(env, ts[1..], vs[1..], k);
      PrintTupleDepth(env, ts[1..], vs[1..], k);
      CommaDepth(tail);
      PrintDepth(env, ts[0], vs[0], ", " + tail);
    }
  }
}
