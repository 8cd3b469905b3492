/** Exactly which values the typed reader gives back. */
module JsonExact {
  import opened JsonText
  import opened Json
  import opened JsonAppend
  import opened JsonRoundTrip
  import opened JsonBalance

  /** The reader stopped somewhere that is not `k`: inside an unclosed brace, or in front of a `null`. */
  predicate Astray(rest: string, k: string) {
    Depth(rest) < Depth(k) || (Head(rest) == 'n' && |rest| > |k|)
  }

  /** Skipping white space and a character other than a brace keeps the reader astray. */
  lemma StaysAstray(rest: string, k: string, c: char)
    requires Astray(rest, k) && c != '"' && c != '{' && c != '}' && c != 'n'
    ensures Astray(SkipWs(rest), k) && Astray(Accept(SkipWs(rest), c), k)
    ensures Head(SkipWs(rest)) == ',' ==> Depth(rest) < Depth(k) && Depth(SkipWs(rest)[1..]) < Depth(k)
  {
    SkipWsDepth(rest);
    AcceptDepth(SkipWs(rest), c);
  }

  /** A value that is not readable leads the reader astray, whatever follows it. */
  lemma {:induction false} Unread(env: Env, t: Type, v: Value, k: string, was: Value)
    requires EnvOk(env) && Typed(env, t, v) && !Readable(env, t, v) && Delimited(k)
    ensures Astray(Fill(env, t, Print(env, t, v, k), was).1, k)
    decreases v, 2
  {
    PrintSolid(env, t, v, k);
    match t
    case TVec(elem) =>
      var body := PrintElems(env, elem, v.elems, [']'] + k);
      assert Print(env, t, v, k)[1..] == body;
      UnreadElems(env, elem, v.elems, k);
    case TNamed(name) =>
      ResolveOk(env, name);
      match Resolve(env, name) {
        case Struct(fs) => UnreadStruct(env, fs, v.fields, k);
        case Enum(ws) => UnreadEnum(env, ws, v, k, was);
        case Unregistered =>
      }
    case _ =>
  }

  /** Past a closing bracket or brace. */
  lemma PastBracket(rest: string, k: string)
    requires Astray(rest, [']'] + k)
    ensures Astray(rest, k) && Astray(Accept(rest, ']'), k)
  {
    PlainDepth(']', k);
    AcceptDepth(rest, ']');
  }

  lemma {:induction false} UnreadElems(env: Env, elem: Type, vs: seq<Value>, k: string)
    requires EnvOk(env) && (forall i :: 0 <= i < |vs| ==> Typed(env, elem, vs[i]))
    requires exists i :: 0 <= i < |vs| && !Readable(env, elem, vs[i])
    ensures var text := PrintElems(env, elem, vs, [']'] + k);
      !IsSpace(Head(text)) && Astray(Accept(FillElems(env, elem, text).1, ']'), k)
    decreases vs, 1
  {
    UnreadElemsLoop(env, elem, vs, [']'] + k);
    PastBracket(FillElems(env, elem, PrintElems(env, elem, vs, [']'] + k)).1, k);
  }

  lemma {:induction false} UnreadElemsLoop(env: Env, elem: Type, vs: seq<Value>, k: string)
    requires EnvOk(env) && (forall i :: 0 <= i < |vs| ==> Typed(env, elem, vs[i]))
    requires exists i :: 0 <= i < |vs| && !Readable(env, elem, vs[i])
    requires Head(k) == ']'
    ensures var text := PrintElems(env, elem, vs, k);
      Solid(text) && Astray(FillElems(env, elem, text).1, k)
    decreases vs, 0
  {
    hide Fill, Print, Typed, Readable, EnvOk, Depth;
    var tail := if |vs| == 1 then [] else PrintElems(env, elem, vs[1..], k);
    var next := if |vs| == 1 then k else ", " + tail;
    PrintSolid(env, elem, vs[0], next);
    if |vs| > 1 {
      CommaDepth(tail);
      PrintElemsDepth(env, elem, vs[1..], k);
      PrintElemsAppend(env, elem, vs[1..], k);
    }
    if Readable(env, elem, vs[0]) {
      FillPrinted(env, elem, vs[0], next, Unset);
      var i :| 0 <= i < |vs| && !Readable(env, elem, vs[i]);
      assert vs[1..][i - 1] == vs[i];
      UnreadElemsLoop(env, elem, vs[1..], k);
      assert |vs| > 1;
      CommaTail(tail);
      OneSpace(tail);
    } else {
      Unread(env, elem, vs[0], next, Unset);
      var rest := Fill(env, elem, PrintElems(env, elem, vs, k), Unset).1;
      StaysAstray(rest, next, ',');
      if Head(SkipWs(rest)) == ',' {
        SkipWsDepth(SkipWs(rest)[1..]);
        FillElemsDepth(env, elem, SkipWs(SkipWs(rest)[1..]));
      }
    }
  }

  lemma {:induction false} UnreadTupleLoop(env: Env, ts: seq<Type>, vs: seq<Value>, k: string)
    requires EnvOk(env) && AllTyped(env, ts, vs) && !ReadableAll(env, ts, vs)
    requires Head(k) == ']'
    ensures var text := PrintTuple(env, ts, vs, k);
      Solid(text) && Astray(FillTuple(env, ts, text).1, k)
    decreases vs, 0
  {
    hide Fill, Print, Typed, Readable, EnvOk, Depth;
    var tail := if |vs| == 1 then [] else PrintTuple(env, ts[1..], vs[1..], k);
    var next := if |vs| == 1 then k else ", " + tail;
    PrintSolid(env, ts[0], vs[0], next);
    if |vs| > 1 {
      CommaDepth(tail);
      PrintTupleDepth(env, ts[1..], vs[1..], k);
      PrintTupleAppend(env, ts[1..], vs[1..], k);
    }
    if Readable(env, ts[0], vs[0]) {
      FillPrinted(env, ts[0], vs[0], next, Unset);
      var i :| 0 <= i < |vs| && !Readable(env, ts[i], vs[i]);
      assert vs[1..][i - 1] == vs[i] && ts[1..][i - 1] == ts[i];
      UnreadTupleLoop(env, ts[1..], vs[1..], k);
      assert |vs| > 1;
      CommaTail(tail);
      OneSpace(tail);
    } else {
      Unread(env, ts[0], vs[0], next, Unset);
      var rest := Fill(env, ts[0], PrintTuple(env, ts, vs, k), Unset).1;
      StaysAstray(rest, next, ',');
      if Head(SkipWs(rest)) == ',' {
        SkipWsDepth(SkipWs(rest)[1..]);
        FillTupleDepth(env, ts[1..], SkipWs(SkipWs(rest)[1..]));
      }
    }
  }

  lemma {:induction false} UnreadPayload(env: Env, ts: seq<Type>, vs: seq<Value>, k: string)
    requires EnvOk(env) && AllTyped(env, ts, vs) && !ReadableAll(env, ts, vs) && Delimited(k)
    ensures Solid(PrintPayload(env, ts, vs, k))
    ensures Astray(FillPayload(env, ts, PrintPayload(env, ts, vs, k)).1, k)
    decreases vs, 1
  {
    hide Fill, Print, Typed, Readable, EnvOk, Depth, FillTuple, PrintTuple;
    if |vs| == 1 {
      PrintSolid(env, ts[0], vs[0], k);
      Unread(env, ts[0], vs[0], k, Unset);
    } else {
      var body := PrintTuple(env, ts, vs, [']'] + k);
      assert (['['] + body)[1..] == body;
      UnreadTupleLoop(env, ts, vs, [']'] + k);
      PastBracket(FillTuple(env, ts, body).1, k);
    }
  }

  lemma {:induction false} UnreadEnum(env: Env, ws: seq<Variant>, v: Value, k: string, was: Value)
    requires EnvOk(env) && VariantsOk(ws) && v.VEnum? && Delimited(k)
    requires ByTag(ws, v.tag).Some? ==>
      && AllTyped(env, ByTag(ws, v.tag).value.payload, v.payload)
      && !ReadableAll(env, ByTag(ws, v.tag).value.payload, v.payload)
    ensures ByTag(ws, v.tag).None? ==> Astray(FillEnum(env, ws, "null" + k, was).1, k)
    ensures ByTag(ws, v.tag).Some? ==>
      var w := ByTag(ws, v.tag).value;
      Astray(FillEnum(env, ws, EnumText(w.name, PrintPayload(env, w.payload, v.payload, ['}'] + k)), was).1, k)
    decreases v, 1
  {
    if ByTag(ws, v.tag).Some? {
      hide Fill, Print, Typed, Readable, EnvOk, FillPayload, PrintPayload, FillEnum, EnumText, Astray;
      var w := ByTag(ws, v.tag).value;
      var body := PrintPayload(env, w.payload, v.payload, ['}'] + k);
      UnreadPayload(env, w.payload, v.payload, ['}'] + k);
      EnumTurn(env, ws, v.tag, body, was);
      PastBrace(FillPayload(env, w.payload, body).1, k);
    }
  }

  lemma PastBrace(rest: string, k: string)
    requires Astray(rest, ['}'] + k)
    ensures Astray(Accept(SkipWs(rest), '}'), k)
    ensures Depth(rest) < Depth(['}'] + k) ==> Depth(rest) + 1 < Depth(k)
    ensures Depth(rest) >= Depth(['}'] + k) ==> Head(rest) == 'n' && |rest| > |k|
  {
    BraceDepth([], k);
    SkipWsDepth(rest);
    AcceptDepth(SkipWs(rest), '}');
  }

  lemma {:induction false} UnreadStruct(env: Env, fs: seq<Field>, vs: seq<Value>, k: string)
    requires EnvOk(env) && FieldsOk(fs) && AllTyped(env, Types(fs), vs)
    requires fs == [] || !ReadableAll(env, Types(fs), vs)
    ensures Astray(FillObject(env, fs, ['{'] + PrintFields(env, fs, vs, ['}'] + k)).1, k)
    decreases vs, 2
  {
    var body := PrintFields(env, fs, vs, ['}'] + k);
    assert (['{'] + body)[1..] == body;
    if fs == [] {
      BraceDepth([], k);
    } else {
      assert fs[0..] == fs && vs[0..] == vs;
      var i :| 0 <= i < |vs| && !Readable(env, Types(fs)[i], vs[i]);
      UnreadFields(env, fs, vs, k, 0, Blank(|fs|), body, i);
    }
  }

  /** The object loop in front of field `i`, when field `bad` is the one that cannot be read. */
  lemma {:induction false} UnreadFields(env: Env, fs: seq<Field>, vs: seq<Value>, k: string, i: nat, acc: seq<Value>,
                                        s: string, bad: nat)
    requires EnvOk(env) && FieldsOk(fs) && AllTyped(env, Types(fs), vs)
    requires i <= bad < |fs| && |acc| == |fs| && !Readable(env, fs[bad].typ, vs[bad])
    requires Head(s) != NUL && Head(s) != '}' && SkipWs(s) == PrintFields(env, fs[i..], vs[i..], ['}'] + k)
    ensures Astray(FillFields(env, fs, s, acc).1, k)
    decreases vs, 1, |fs| - i
  {
    var k' := ['}'] + k;
    assert Delimited(k') && !IsSpace(Head(k'));
    hide Fill, FillFields, FillField, Print, PrintFields, Typed, Readable, EnvOk, FieldsOk, Truncate, Quoted, ReadString,
      SkipWs, Depth, Astray, AfterField, IsSpace, Delimited;
    if Readable(env, fs[i].typ, vs[i]) {
      PrintedFieldTurn(env, fs, vs, k', i, acc, s);
      NextField(env, fs, vs, k', i);
      UnreadFields(env, fs, vs, k, i + 1, acc[i := Truncate(vs[i])], AfterField(env, fs, vs, k', i)[1..], bad);
    } else {
      UnreadField(env, fs, vs, k, i, acc, s);
    }
  }

  /** The turn of the object loop that meets the unreadable field. */
  lemma {:induction false} UnreadField(env: Env, fs: seq<Field>, vs: seq<Value>, k: string, i: nat, acc: seq<Value>, s: string)
    requires EnvOk(env) && FieldsOk(fs) && AllTyped(env, Types(fs), vs)
    requires i < |fs| && |acc| == |fs| && !Readable(env, fs[i].typ, vs[i])
    requires Head(s) != NUL && Head(s) != '}' && SkipWs(s) == PrintFields(env, fs[i..], vs[i..], ['}'] + k)
    ensures Astray(FillFields(env, fs, s, acc).1, k)
    decreases vs, 0, 0
  {
    hide Fill, FillFields, FillField, Print, PrintFields, Typed, Readable, EnvOk, Quoted, ReadString, SkipWs, Depth;
    var k' := ['}'] + k;
    var next := AfterField(env, fs, vs, k', i);
    var text := Print(env, fs[i].typ, vs[i], next);
    PrintFieldsAt(env, fs, vs, k', i);
    QuotedRead(fs[i].name, ": " + text);
    UnreadSlot(env, fs, i, vs[i], next, acc);
    var (acc', rest) := FillField(env, fs, fs[i].name, " " + text, acc);
    FieldTurn(env, fs, s, acc, fs[i].name, text, acc', rest);
    AfterFieldBalanced(env, fs, vs, k', i);
    assert Astray(rest, k');
    PastBrace(rest, k);
    SkipWsDepth(rest);
    if Head(SkipWs(rest)) == ',' {
      StaysAstray(rest, k', ',');
      BraceDepth([], k);
      FillFieldsDepth(env, fs, SkipWs(rest)[1..], acc');
    }
  }

  lemma {:induction false} UnreadSlot(env: Env, fs: seq<Field>, i: nat, v: Value, next: string, acc: seq<Value>)
    requires EnvOk(env) && FieldsOk(fs) && i < |fs| && |acc| == |fs| && Delimited(next)
    requires Typed(env, fs[i].typ, v) && !Readable(env, fs[i].typ, v)
    ensures Astray(FillField(env, fs, fs[i].name, " " + Print(env, fs[i].typ, v, next), acc).1, next)
    decreases v, 3
  {
    hide Fill, Print, Typed, Readable, EnvOk, Astray;
    FieldIndexFound(fs, i);
    PrintSolid(env, fs[i].typ, v, next);
    Unread(env, fs[i].typ, v, next, acc[i]);
    SkippedFill(env, fs[i].typ, Print(env, fs[i].typ, v, next), acc[i]);
  }

  lemma AfterFieldBalanced(env: Env, fs: seq<Field>, vs: seq<Value>, k: string, i: nat)
    requires EnvOk(env) && AllTyped(env, Types(fs), vs) && i < |fs|
    ensures Depth(AfterField(env, fs, vs, k, i)) == Depth(k)
    ensures |AfterField(env, fs, vs, k, i)| >= |k|
  {
    hide Print, Typed, EnvOk, Depth;
    if i < |fs| - 1 {
      PrintFieldsDepth(env, fs[i + 1..], vs[i + 1..], k);
      CommaDepth(PrintFields(env, fs[i + 1..], vs[i + 1..], k));
      PrintFieldsAppend(env, fs[i + 1..], vs[i + 1..], k);
    }
  }

  // ------------------------------------------------------------------------ the theorems

  function Text(env: Env, t: Type, v: Value): string
    requires Typed(env, t, v)
  {
    Print(env, t, v, [])
  }

  /** The reader gives back the value and leaves exactly the suffix if and only if no string in the
   value holds a NUL, no struct in it is without fields and every tag in it is declared. */
  lemma RoundTrip(env: Env, t: Type, v: Value, suffix: string, was: Value)
    requires EnvOk(env) && Typed(env, t, v) && Delimited(suffix)
    ensures Fill(env, t, Text(env, t, v) + suffix, was) == (v, suffix) <==> Readable(env, t, v) && NulFreeValue(v)
  {
    PrintAppend(env, t, v, suffix);
    if Readable(env, t, v) {
      FillPrinted(env, t, v, suffix, was);
      TruncateExact(v);
    } else {
      Unread(env, t, v, suffix, was);
      assert Fill(env, t, Text(env, t, v) + suffix, was).1 != suffix;
    }
  }

  /** The failing family seen from the fields: behind a field whose struct has no fields, every
   field of a printed object stays unset. */
  lemma EmptyStructDropsTheRest(env: Env, fs: seq<Field>, vs: seq<Value>, k: string, i: nat)
    requires EnvOk(env) && FieldsOk(fs) && AllTyped(env, Types(fs), vs) && i < |fs|
    requires forall j :: 0 <= j < i ==> Readable(env, fs[j].typ, vs[j])
    requires fs[i].typ.TNamed? && Resolve(env, fs[i].typ.name) == Struct([])
    ensures forall j :: i < j < |fs| ==>
      FillObject(env, fs, ['{'] + PrintFields(env, fs, vs, ['}'] + k)).0[j] == Unset
  {
    hide Typed, Readable, Print;
    var body := PrintFields(env, fs, vs, ['}'] + k);
    assert (['{'] + body)[1..] == body;
    assert fs[0..] == fs && vs[0..] == vs;
    DroppedFields(env, fs, vs, k, 0, Blank(|fs|), body, i);
  }

  lemma {:induction false} DroppedFields(env: Env, fs: seq<Field>, vs: seq<Value>, k: string, i: nat, acc: seq<Value>,
                                         s: string, bad: nat)
    requires EnvOk(env) && FieldsOk(fs) && AllTyped(env, Types(fs), vs)
    requires i <= bad < |fs| && |acc| == |fs|
    requires forall j :: i <= j < bad ==> Readable(env, fs[j].typ, vs[j])
    requires fs[bad].typ.TNamed? && Resolve(env, fs[bad].typ.name) == Struct([])
    requires Head(s) != NUL && Head(s) != '}' && SkipWs(s) == PrintFields(env, fs[i..], vs[i..], ['}'] + k)
    ensures forall j :: bad < j < |fs| ==> FillFields(env, fs, s, acc).0[j] == acc[j]
    decreases bad - i
  {
    hide Fill, FillFields, FillField, Print, PrintFields, Typed, Readable, EnvOk, Truncate, Quoted, ReadString, SkipWs;
    var k' := ['}'] + k;
    if i < bad {
      PrintedFieldTurn(env, fs, vs, k', i, acc, s);
      NextField(env, fs, vs, k', i);
      DroppedFields(env, fs, vs, k, i + 1, acc[i := Truncate(vs[i])], AfterField(env, fs, vs, k', i)[1..], bad);
    } else {
      var next := AfterField(env, fs, vs, k', i);
      var text := Print(env, fs[i].typ, vs[i], next);
      PrintFieldsAt(env, fs, vs, k', i);
      QuotedRead(fs[i].name, ": " + text);
      EmptyStructSlot(env, fs, i, vs[i], next, acc);
      FieldTurn(env, fs, s, acc, fs[i].name, text, acc[i := VStruct([])], ['}'] + next);
      NoSpace(['}'] + next);
    }
  }

  lemma EmptyStructSlot(env: Env, fs: seq<Field>, i: nat, v: Value, next: string, acc: seq<Value>)
    requires FieldsOk(fs) && i < |fs| && |acc| == |fs| && Typed(env, fs[i].typ, v)
    requires fs[i].typ.TNamed? && Resolve(env, fs[i].typ.name) == Struct([])
    ensures FillField(env, fs, fs[i].name, " " + Print(env, fs[i].typ, v, next), acc)
         == (acc[i := VStruct([])], ['}'] + next)
  {
    FieldIndexFound(fs, i);
    var text := ['{'] + (['}'] + next);
    assert Print(env, fs[i].typ, v, next) == text;
    assert text[1..] == ['}'] + next;
    SkippedFill(env, fs[i].typ, text, acc[i]);
    assert FillObject(env, [], text) == ([], ['}'] + next);
  }

  /** An enum slot may hold a tag its declaration does not have. It is printed as `null`, and reading that
   consumes nothing and leaves the slot as it was. */
  lemma UndeclaredTagIsNull(env: Env, name: string, ws: seq<Variant>, tag: int, payload: seq<Value>, k: string, was: Value)
    requires Resolve(env, name) == Enum(ws) && ByTag(ws, tag).None?
    ensures Typed(env, TNamed(name), VEnum(tag, payload))
    ensures Print(env, TNamed(name), VEnum(tag, payload), k) == "null" + k
    ensures Fill(env, TNamed(name), "null" + k, was) == (was, "null" + k)
  {
    NoSpace("null" + k);
  }

  /** A name the struct does not declare: its value is not skipped, and the rest of the object is lost. */
  lemma UnknownFieldStops(env: Env, fs: seq<Field>, name: string, text: string, vs: seq<Value>)
    requires NulFree(name) && FieldIndex(fs, name).None? && |vs| == |fs| && Solid(text)
    ensures FillFields(env, fs, Quoted(name, ": " + text), vs) == (vs, text)
  {
    hide Quoted;
    QuotedRead(name, ": " + text);
    assert Head(Quoted(name, ": " + text)) == '"';
    FieldTurn(env, fs, Quoted(name, ": " + text), vs, name, text, vs, " " + text);
    OneSpace(text);
  }
}
