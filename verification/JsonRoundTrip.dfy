/** The typed reader undoes the typed printer, exactly when it can. */
module JsonRoundTrip {
  import opened Seqs
  import opened JsonText
  import opened Json

  // ---------------------------------------------------------- which values survive

  /** No undeclared tag and no struct without fields anywhere in `v`. */
  predicate Readable(env: Env, t: Type, v: Value)
    requires Typed(env, t, v)
    decreases v, 1
  {
    match t
    case TInt => true
    case TBool => true
    case TString => true
    case TVec(elem) => ReadableAll(env, seq(|v.elems|, _ => elem), v.elems)
    case TNamed(name) =>
      match Resolve(env, name)
      case Struct(fs) => fs != [] && ReadableAll(env, Types(fs), v.fields)
      case Enum(ws) =>
        match ByTag(ws, v.tag)
        case Some(w) => ReadableAll(env, w.payload, v.payload)
        case None => false
  }

  predicate ReadableAll(env: Env, ts: seq<Type>, vs: seq<Value>)
    requires AllTyped(env, ts, vs)
    decreases vs, 0
  {
    forall i :: 0 <= i < |vs| ==> Readable(env, ts[i], vs[i])
  }

  /** `v` with every string cut at its first NUL. */
  function Truncate(v: Value): Value
    decreases v
  {
    match v
    case VString(s) => VString(UpToNul(s))
    case VVec(vs) => VVec(TruncateAll(vs))
    case VStruct(vs) => VStruct(TruncateAll(vs))
    case VEnum(tag, vs) => VEnum(tag, TruncateAll(vs))
    case _ => v
  }

  function TruncateAll(vs: seq<Value>): (r: seq<Value>)
    ensures |r| == |vs| && (forall i :: 0 <= i < |vs| ==> r[i] == Truncate(vs[i]))
    decreases vs
  {
    if vs == [] then [] else [Truncate(vs[0])] + TruncateAll(vs[1..])
  }

  /** No string in `v` holds a NUL. */
  predicate NulFreeValue(v: Value)
    decreases v
  {
    match v
    case VString(s) => NulFree(s)
    case VVec(vs) => forall i :: 0 <= i < |vs| ==> NulFreeValue(vs[i])
    case VStruct(vs) => forall i :: 0 <= i < |vs| ==> NulFreeValue(vs[i])
    case VEnum(_, vs) => forall i :: 0 <= i < |vs| ==> NulFreeValue(vs[i])
    case _ => true
  }

  lemma {:induction false} TruncateExact(v: Value)
    ensures Truncate(v) == v <==> NulFreeValue(v)
    decreases v
  {
    match v
    case VString(s) => UpToNulExact(s);
    case VVec(vs) => TruncateAllExact(vs);
    case VStruct(vs) => TruncateAllExact(vs);
    case VEnum(_, vs) => TruncateAllExact(vs);
    case _ =>
  }

  lemma TruncateAllExact(vs: seq<Value>)
    ensures TruncateAll(vs) == vs <==> (forall i :: 0 <= i < |vs| ==> NulFreeValue(vs[i]))
    decreases vs
  {
    forall i | 0 <= i < |vs| ensures Truncate(vs[i]) == vs[i] <==> NulFreeValue(vs[i]) { TruncateExact(vs[i]); }
    if forall i :: 0 <= i < |vs| ==> NulFreeValue(vs[i]) {
      assert TruncateAll(vs) == vs;
    } else {
      var i :| 0 <= i < |vs| && !NulFreeValue(vs[i]);
      assert TruncateAll(vs)[i] != vs[i];
    }
  }

  // --------------------------------------------------------------- heads of printed text

  /** Printed values start with a character no loop of the reader stops or skips at. */
  predicate Solid(s: string) {
    var c := Head(s);
    s != [] && c != NUL && !IsSpace(c) && c != ',' && c != ']' && c != '}'
  }

  lemma PrintSolid(env: Env, t: Type, v: Value, k: string)
    requires Typed(env, t, v)
    ensures Solid(Print(env, t, v, k))
  {
    if t.TInt? {
      DecimalUndone(if v.n < 0 then -v.n else v.n, k);
    }
  }

  lemma {:induction false} FieldIndexFound(fs: seq<Field>, i: nat)
    requires i < |fs| && FieldsOk(fs)
    ensures FieldIndex(fs, fs[i].name) == Some(i)
  {
    if i > 0 {
      assert fs[1..][i - 1] == fs[i];
      FieldIndexFound(fs[1..], i - 1);
    }
  }

  lemma {:induction false} VariantFound(ws: seq<Variant>, tag: int)
    requires VariantsOk(ws) && ByTag(ws, tag).Some?
    ensures ByName(ws, ByTag(ws, tag).value.name) == ByTag(ws, tag)
    ensures PlainName(ByTag(ws, tag).value.name)
  {
    if ws[0].tag != tag {
      VariantFound(ws[1..], tag);
    }
  }

  lemma {:induction false} StructLayoutOk(ds: seq<StructDecl>, name: string)
    requires FindStruct(ds, name).Some?
    ensures FindStruct(ds, name).value in ds
  {
    if ds[0].name != name { StructLayoutOk(ds[1..], name); }
  }

  lemma {:induction false} EnumLayoutOk(ds: seq<EnumDecl>, name: string)
    requires FindEnum(ds, name).Some?
    ensures FindEnum(ds, name).value in ds
  {
    if ds[0].name != name { EnumLayoutOk(ds[1..], name); }
  }

  lemma ResolveOk(env: Env, name: string)
    requires EnvOk(env)
    ensures match Resolve(env, name)
            case Struct(fs) => FieldsOk(fs)
            case Enum(ws) => VariantsOk(ws)
            case Unregistered => true
  {
    if FindStruct(env.structs, name).Some? {
      StructLayoutOk(env.structs, name);
    } else if FindEnum(env.enums, name).Some? {
      EnumLayoutOk(env.enums, name);
    }
  }

  // ------------------------------------------------------------------ reading undoes printing

  lemma PlainNameNulFree(s: string)
    requires PlainName(s)
    ensures NulFree(s) && UpToNul(s) == s
  {
    UpToNulExact(s);
  }

  /** Reading a printed value gives it back, up to strings cut at a NUL, and leaves what followed. */
  lemma {:induction false} FillPrinted(env: Env, t: Type, v: Value, k: string, was: Value)
    requires EnvOk(env) && Typed(env, t, v) && Readable(env, t, v) && Delimited(k)
    ensures Fill(env, t, Print(env, t, v, k), was) == (Truncate(v), k)
    decreases v, 2
  {
    PrintSolid(env, t, v, k);
    match t
    case TInt => SignedUndone(v.n, k);
    case TBool =>
      assert v.b ==> ("true" + k)[4..] == k;
      assert !v.b ==> ("false" + k)[5..] == k;
    case TString =>
      EscapedUndone(v.s, k);
      assert Quoted(v.s, k)[1..] == Escaped(v.s, ['"'] + k);
    case TVec(elem) =>
      var body := PrintElems(env, elem, v.elems, [']'] + k);
      assert Print(env, t, v, k)[1..] == body;
      FillPrintedElems(env, elem, v.elems, k);
      assert ([']'] + k)[1..] == k;
    case TNamed(name) =>
      ResolveOk(env, name);
      match Resolve(env, name) {
        case Struct(fs) => FillPrintedStruct(env, fs, v.fields, k);
        case Enum(ws) => FillPrintedEnum(env, ws, v, k, was);
        case Unregistered =>
      }
  }

  lemma {:induction false} FillPrintedElems(env: Env, elem: Type, vs: seq<Value>, k: string)
    requires EnvOk(env) && (forall i :: 0 <= i < |vs| ==> Typed(env, elem, vs[i]) && Readable(env, elem, vs[i]))
    ensures FillElems(env, elem, PrintElems(env, elem, vs, [']'] + k)) == (TruncateAll(vs), [']'] + k)
    ensures !IsSpace(Head(PrintElems(env, elem, vs, [']'] + k)))
    decreases vs, 0
  {
    hide Fill, Print, Typed, Readable, EnvOk, Truncate;
    if vs != [] {
      assert |vs| == 1 ==> TruncateAll(vs) == [Truncate(vs[0])];
      var tail := PrintElems(env, elem, vs[1..], [']'] + k);
      var next := if |vs| == 1 then [']'] + k else ", " + tail;
      PrintSolid(env, elem, vs[0], next);
      FillPrinted(env, elem, vs[0], next, Unset);
      if |vs| > 1 {
        FillPrintedElems(env, elem, vs[1..], k);
        CommaTail(tail);
        OneSpace(tail);
      }
    }
  }

  lemma {:induction false} FillPrintedStruct(env: Env, fs: seq<Field>, vs: seq<Value>, k: string)
    requires EnvOk(env) && FieldsOk(fs) && AllTyped(env, Types(fs), vs) && ReadableAll(env, Types(fs), vs) && fs != []
    ensures FillObject(env, fs, ['{'] + PrintFields(env, fs, vs, ['}'] + k)) == (TruncateAll(vs), k)
    decreases vs, 2
  {
    var body := PrintFields(env, fs, vs, ['}'] + k);
    assert (['{'] + body)[1..] == body;
    assert fs[0..] == fs && vs[0..] == vs;
    FillPrintedFields(env, fs, vs, k, 0, Blank(|fs|), body);
  }

  /** One turn of the object loop, given what its name and its value read as. */
  lemma FieldTurn(env: Env, fs: seq<Field>, s: string, acc: seq<Value>, name: string, text: string,
                  acc': seq<Value>, next: string)
    requires |acc| == |fs| && Head(s) != NUL && Head(s) != '}' && Head(SkipWs(s)) != '}'
    requires NulFree(name) && ReadString(SkipWs(s)) == Some((name, ": " + text))
    requires FillField(env, fs, name, " " + text, acc) == (acc', next)
    ensures |acc'| == |fs|
    ensures FillFields(env, fs, s, acc)
         == if Head(SkipWs(next)) == ',' then FillFields(env, fs, SkipWs(next)[1..], acc')
            else (acc', Accept(SkipWs(next), '}'))
  {
    hide FillField, ReadString, ReadChars, UpToNul, FieldIndex;
    UpToNulExact(name);
    assert (": " + text)[1..] == " " + text;
  }

  /** The value of a printed field goes into its slot. */
  lemma {:induction false} FillPrintedField(env: Env, fs: seq<Field>, i: nat, v: Value, next: string, acc: seq<Value>)
    requires EnvOk(env) && FieldsOk(fs) && i < |fs| && |acc| == |fs| && Delimited(next)
    requires Typed(env, fs[i].typ, v) && Readable(env, fs[i].typ, v)
    ensures FillField(env, fs, fs[i].name, " " + Print(env, fs[i].typ, v, next), acc) == (acc[i := Truncate(v)], next)
    decreases v, 3
  {
    var text := Print(env, fs[i].typ, v, next);
    FieldIndexFound(fs, i);
    PrintSolid(env, fs[i].typ, v, next);
    FillPrinted(env, fs[i].typ, v, next, acc[i]);
    assert (" " + text)[1..] == text;
    assert SkipWs(" " + text) == SkipWs(text) == text;
    SkippedFill(env, fs[i].typ, text, acc[i]);
  }

  /** Leading white space makes no difference. */
  lemma SkippedFill(env: Env, t: Type, s: string, was: Value)
    requires !IsSpace(Head(s))
    ensures Fill(env, t, " " + s, was) == Fill(env, t, s, was)
  {
    assert (" " + s)[1..] == s;
    assert SkipWs(" " + s) == SkipWs(s) == s;
  }

  /** The object loop in front of field `i`, the fields before it filled. */
  lemma {:induction false} FillPrintedFields(env: Env, fs: seq<Field>, vs: seq<Value>, k: string, i: nat, acc: seq<Value>, s: string)
    requires EnvOk(env) && FieldsOk(fs) && AllTyped(env, Types(fs), vs) && ReadableAll(env, Types(fs), vs)
    requires i < |fs| && |acc| == |fs| && acc[..i] == TruncateAll(vs)[..i]
    requires Head(s) != NUL && Head(s) != '}' && SkipWs(s) == PrintFields(env, fs[i..], vs[i..], ['}'] + k)
    ensures FillFields(env, fs, s, acc) == (TruncateAll(vs), k)
    decreases vs, 1, |fs| - i
  {
    hide Fill, FillFields, FillField, Print, PrintFields, Typed, Readable, EnvOk, Truncate, Quoted, ReadString, SkipWs;
    var k' := ['}'] + k;
    var next := AfterField(env, fs, vs, k', i);
    var acc' := acc[i := Truncate(vs[i])];
    PrintedFieldTurn(env, fs, vs, k', i, acc, s);
    PrefixExtends(acc, TruncateAll(vs), i);
    if i == |fs| - 1 {
      assert k'[1..] == k;
    } else {
      NextField(env, fs, vs, k', i);
      FillPrintedFields(env, fs, vs, k, i + 1, acc', next[1..]);
    }
  }

  /** One turn of the object loop over a printed field. */
  lemma {:induction false} PrintedFieldTurn(env: Env, fs: seq<Field>, vs: seq<Value>, k: string, i: nat, acc: seq<Value>, s: string)
    requires EnvOk(env) && FieldsOk(fs) && AllTyped(env, Types(fs), vs)
    requires i < |fs| && |acc| == |fs| && Delimited(k) && !IsSpace(Head(k)) && Readable(env, fs[i].typ, vs[i])
    requires Head(s) != NUL && Head(s) != '}' && SkipWs(s) == PrintFields(env, fs[i..], vs[i..], k)
    ensures
      var next := AfterField(env, fs, vs, k, i);
      var acc' := acc[i := Truncate(vs[i])];
      FillFields(env, fs, s, acc)
      == if Head(next) == ',' then FillFields(env, fs, next[1..], acc') else (acc', Accept(next, '}'))
    decreases vs, 0, 0
  {
    hide Fill, FillFields, FillField, Print, PrintFields, Typed, Readable, EnvOk, Truncate, Quoted, ReadString, SkipWs;
    var next := AfterField(env, fs, vs, k, i);
    var text := Print(env, fs[i].typ, vs[i], next);
    PrintFieldsAt(env, fs, vs, k, i);
    QuotedRead(fs[i].name, ": " + text);
    FillPrintedField(env, fs, i, vs[i], next, acc);
    FieldTurn(env, fs, s, acc, fs[i].name, text, acc[i := Truncate(vs[i])], next);
    NoSpace(next);
  }

  /** What follows the value of field `i` in a printed struct. */
  function AfterField(env: Env, fs: seq<Field>, vs: seq<Value>, k: string, i: nat): string
    requires AllTyped(env, Types(fs), vs) && i < |fs|
  {
    if i == |fs| - 1 then k else ", " + PrintFields(env, fs[i + 1..], vs[i + 1..], k)
  }

  lemma PrintFieldsAt(env: Env, fs: seq<Field>, vs: seq<Value>, k: string, i: nat)
    requires AllTyped(env, Types(fs), vs) && i < |fs|
    ensures PrintFields(env, fs[i..], vs[i..], k)
         == Quoted(fs[i].name, ": " + Print(env, fs[i].typ, vs[i], AfterField(env, fs, vs, k, i)))
  {
    hide Print, Typed;
    assert fs[i..][1..] == fs[i + 1..] && vs[i..][1..] == vs[i + 1..];
  }

  /** Between two fields the loop goes on at a space, in front of the next field. */
  lemma NextField(env: Env, fs: seq<Field>, vs: seq<Value>, k: string, i: nat)
    requires AllTyped(env, Types(fs), vs) && i + 1 < |fs|
    ensures var next := AfterField(env, fs, vs, k, i);
      && next != [] && next[0] == ',' && Head(next[1..]) == ' '
      && SkipWs(next[1..]) == PrintFields(env, fs[i + 1..], vs[i + 1..], k)
  {
    hide Print, Typed, Quoted, PrintFields;
    var tail := PrintFields(env, fs[i + 1..], vs[i + 1..], k);
    PrintFieldsAt(env, fs, vs, k, i + 1);
    QuotedRead(fs[i + 1].name, ": " + Print(env, fs[i + 1].typ, vs[i + 1], AfterField(env, fs, vs, k, i + 1)));
    OneSpace(tail);
    assert (", " + tail)[1..] == " " + tail;
  }

  lemma CommaTail(tail: string)
    ensures (", " + tail)[0] == ',' && (", " + tail)[1..] == " " + tail
  {
  }

  lemma NoSpace(s: string)
    requires !IsSpace(Head(s))
    ensures SkipWs(s) == s
  {
  }

  lemma OneSpace(s: string)
    requires !IsSpace(Head(s))
    ensures SkipWs(" " + s) == s
  {
    assert (" " + s)[1..] == s;
  }

  lemma QuotedRead(s: string, k: string)
    ensures ReadString(Quoted(s, k)) == Some((s, k))
    ensures Head(Quoted(s, k)) == '"'
  {
    EscapedUndone(s, k);
    assert Quoted(s, k)[1..] == Escaped(s, ['"'] + k);
  }

  /** The text of a declared variant in front of its payload's text. */
  function EnumText(name: string, body: string): string { ['{', '"'] + (name + (['"'] + (": " + body))) }

  /** An enum is read as the variant it names, with whatever its payload's text reads as. */
  lemma EnumTurn(env: Env, ws: seq<Variant>, tag: int, body: string, was: Value)
    requires VariantsOk(ws) && ByTag(ws, tag).Some? && !IsSpace(Head(body))
    ensures
      var w := ByTag(ws, tag).value;
      var (vs, rest) := FillPayload(env, w.payload, body);
      FillEnum(env, ws, EnumText(w.name, body), was) == (VEnum(tag, vs), Accept(SkipWs(rest), '}'))
  {
    hide FillPayload, ReadChars;
    var w := ByTag(ws, tag).value;
    VariantFound(ws, tag);
    PlainNameNulFree(w.name);
    var inner := w.name + (['"'] + (": " + body));
    PlainNameUndone(w.name, ": " + body);
    assert (['{', '"'] + inner)[1..] == ['"'] + inner;
    assert (['"'] + inner)[1..] == inner;
    assert ReadString(['"'] + inner) == Some((w.name, ": " + body));
    assert (": " + body)[1..] == " " + body;
    OneSpace(body);
  }

  lemma {:induction false} FillPrintedEnum(env: Env, ws: seq<Variant>, v: Value, k: string, was: Value)
    requires EnvOk(env) && VariantsOk(ws) && v.VEnum? && ByTag(ws, v.tag).Some?
    requires AllTyped(env, ByTag(ws, v.tag).value.payload, v.payload)
    requires ReadableAll(env, ByTag(ws, v.tag).value.payload, v.payload)
    ensures
      var w := ByTag(ws, v.tag).value;
      FillEnum(env, ws, EnumText(w.name, PrintPayload(env, w.payload, v.payload, ['}'] + k)), was)
      == (VEnum(v.tag, TruncateAll(v.payload)), k)
    decreases v, 1
  {
    hide Fill, Print, Typed, Readable, EnvOk, Truncate, FillPayload, PrintPayload, FillEnum, EnumText;
    var w := ByTag(ws, v.tag).value;
    FillPrintedPayload(env, w.payload, v.payload, k);
    EnumTurn(env, ws, v.tag, PrintPayload(env, w.payload, v.payload, ['}'] + k), was);
    assert (['}'] + k)[1..] == k;
  }

  lemma {:induction false} FillPrintedPayload(env: Env, ts: seq<Type>, vs: seq<Value>, k: string)
    requires EnvOk(env) && AllTyped(env, ts, vs) && ReadableAll(env, ts, vs)
    ensures FillPayload(env, ts, PrintPayload(env, ts, vs, ['}'] + k)) == (TruncateAll(vs), ['}'] + k)
    ensures Solid(PrintPayload(env, ts, vs, ['}'] + k))
    decreases vs, 1
  {
    hide Fill, Print, Typed, Readable, EnvOk, Truncate, FillTuple, PrintTuple;
    if |vs| == 0 {
      assert ("null" + (['}'] + k))[4..] == ['}'] + k;
    } else if |vs| == 1 {
      assert TruncateAll(vs) == [Truncate(vs[0])];
      PrintSolid(env, ts[0], vs[0], ['}'] + k);
      FillPrinted(env, ts[0], vs[0], ['}'] + k, Unset);
    } else {
      var body := PrintTuple(env, ts, vs, [']'] + (['}'] + k));
      assert (['['] + body)[1..] == body;
      FillPrintedTuple(env, ts, vs, ['}'] + k);
      assert ([']'] + (['}'] + k))[1..] == ['}'] + k;
    }
  }

  lemma {:induction false} FillPrintedTuple(env: Env, ts: seq<Type>, vs: seq<Value>, k: string)
    requires EnvOk(env) && AllTyped(env, ts, vs) && ReadableAll(env, ts, vs)
    ensures FillTuple(env, ts, PrintTuple(env, ts, vs, [']'] + k)) == (TruncateAll(vs), [']'] + k)
    ensures !IsSpace(Head(PrintTuple(env, ts, vs, [']'] + k)))
    decreases vs, 0
  {
    hide Fill, Print, Typed, Readable, EnvOk, Truncate;
    if vs != [] {
      assert |vs| == 1 ==> TruncateAll(vs) == [Truncate(vs[0])];
      var tail := PrintTuple(env, ts[1..], vs[1..], [']'] + k);
      var next := if |vs| == 1 then [']'] + k else ", " + tail;
      PrintSolid(env, ts[0], vs[0], next);
      FillPrinted(env, ts[0], vs[0], next, Unset);
      if |vs| > 1 {
        FillPrintedTuple(env, ts[1..], vs[1..], k);
        CommaTail(tail);
        OneSpace(tail);
      }
    }
  }
}
