/**
 JSON texts as any producer may write them: white space between all tokens, any escapes, fields in any
 order or repeated, numbers with leading zeros or a sign. Section 2 of RFC 8259 has the tokens. The typed
 reader makes the same value of every such text.
 */
module JsonLayout {
  import opened Seqs
  import opened JsonText
  import opened Json
  import opened JsonRoundTrip
  import opened JsonLiteral

  // ----------------------------------------------------------------------------- tokens

  /** Only spaces, tabs and line ends. */
  predicate White(s: string) { forall i :: 0 <= i < |s| ==> s[i] in " \t\n\r" }

  /** White space, the text `c`, and then `rest`. */
  ghost predicate Token(s: string, c: string, rest: string)
    ensures Token(s, c, rest) ==> |c| + |rest| <= |s|
  {
    exists n :: 0 <= n <= |s| && White(s[..n]) && s[n..] == c + rest
  }

  /** A string literal that stands for `text`. */
  ghost predicate StringToken(s: string, text: string, rest: string)
    ensures StringToken(s, text, rest) ==> |rest| < |s|
  {
    exists body :: Inside(body) && Stands(body) == text && Token(s, ['"'] + body + ['"'], rest)
  }

  /** A string literal for `name` and a colon. */
  ghost predicate NameToken(s: string, name: string, rest: string)
    ensures NameToken(s, name, rest) ==> |rest| < |s|
  {
    exists r :: StringToken(s, name, r) && Token(r, ":", rest)
  }

  predicate Digits(ds: string) { ds != [] && forall i :: 0 <= i < |ds| ==> '0' <= ds[i] <= '9' }

  /** The value of a digit sequence, read from its last digit. */
  function Positional(ds: string): nat
    requires ds == [] || Digits(ds)
  {
    if ds == [] then 0
    else 10 * Positional(ds[..|ds| - 1]) + (ds[|ds| - 1] as int - '0' as int)
  }

  /** Digits behind an optional sign. */
  ghost predicate Numeral(text: string, x: int) {
    || (Digits(text) && x == Positional(text))
    || (text != [] && Digits(text[1..])
        && ((text[0] == '+' && x == Positional(text[1..])) || (text[0] == '-' && x == 0 - Positional(text[1..]))))
  }

  /** The number `x`, which no digit follows. */
  ghost predicate NumberToken(s: string, x: int, rest: string)
    ensures NumberToken(s, x, rest) ==> |rest| < |s|
  {
    !('0' <= Head(rest) <= '9') && exists text :: Numeral(text, x) && Token(s, text, rest)
  }

  // ------------------------------------------------------------------------- renderings

  /** `s` is a rendering of `v` as a value of type `t`, followed by `k`. */
  ghost predicate Renders(env: Env, t: Type, v: Value, s: string, k: string)
    ensures Renders(env, t, v, s, k) ==> |k| < |s|
    decreases |s|, 1
  {
    match t
    case TInt => v.VInt? && IsInt64(v.n) && NumberToken(s, v.n, k)
    case TBool => v.VBool? && Token(s, if v.b then "true" else "false", k)
    case TString => v.VString? && StringToken(s, v.s, k)
    case TVec(elem) => v.VVec? && exists r :: Token(s, "[", r) && RendersElems(env, elem, v.elems, r, k)
    case TNamed(name) =>
      match Resolve(env, name)
      case Struct(fs) =>
        v.VStruct? && exists r, es ::
          && Token(s, "{", r) && RendersFields(env, fs, es, r, k)
          && |v.fields| == |fs| && forall j :: 0 <= j < |fs| ==> Last(es, j) == Some(v.fields[j])
      case Enum(ws) => v.VEnum? && ByTag(ws, v.tag).Some? && exists r ::
          Token(s, "{", r) && RendersVariant(env, ByTag(ws, v.tag).value, v.payload, r, k)
      case Unregistered => false
  }

  /** The elements of an array and its closing bracket. */
  ghost predicate RendersElems(env: Env, elem: Type, vs: seq<Value>, s: string, k: string)
    ensures RendersElems(env, elem, vs, s, k) ==> |k| < |s|
    decreases |s|, 2
  {
    if vs == [] then Token(s, "]", k)
    else exists r ::
      && Renders(env, elem, vs[0], s, r)
      && if |vs| == 1 then Token(r, "]", k)
         else exists r' :: Token(r, ",", r') && RendersElems(env, elem, vs[1..], r', k)
  }

  /** A field that stands in an object: its place in the layout and its value. */
  datatype Entry = Entry(place: nat, value: Value)

  /** The entries of an object, in the order they stand in, and its closing brace. */
  ghost predicate RendersFields(env: Env, fs: seq<Field>, es: seq<Entry>, s: string, k: string)
    ensures RendersFields(env, fs, es, s, k) ==> |k| < |s|
    decreases |s|, 2
  {
    && es != [] && es[0].place < |fs|
    && exists r ::
      && RendersEntry(env, fs[es[0].place], es[0].value, s, r)
      && if |es| == 1 then Token(r, "}", k)
         else exists r' :: Token(r, ",", r') && RendersFields(env, fs, es[1..], r', k)
  }

  ghost predicate RendersEntry(env: Env, f: Field, v: Value, s: string, k: string)
    ensures RendersEntry(env, f, v, s, k) ==> |k| < |s|
    decreases |s|, 0
  {
    exists r :: NameToken(s, f.name, r) && Renders(env, f.typ, v, r, k)
  }

  /** The value given for place `j`: of several entries the last one counts. */
  function Last(es: seq<Entry>, j: nat): Option<Value> {
    if es == [] then None
    else if es[|es| - 1].place == j then Some(es[|es| - 1].value)
    else Last(es[..|es| - 1], j)
  }

  /** The name of a variant, its payload and the closing brace. */
  ghost predicate RendersVariant(env: Env, w: Variant, vs: seq<Value>, s: string, k: string)
    ensures RendersVariant(env, w, vs, s, k) ==> |k| < |s|
    decreases |s|, 2
  {
    exists r, r' :: NameToken(s, w.name, r) && RendersPayload(env, w.payload, vs, r, r') && Token(r', "}", k)
  }

  /** No payload is `null`, one is its value, several are an array. */
  ghost predicate RendersPayload(env: Env, ts: seq<Type>, vs: seq<Value>, s: string, k: string)
    ensures RendersPayload(env, ts, vs, s, k) ==> |k| < |s|
    decreases |s|, 3
  {
    && |ts| == |vs|
    && if |vs| == 0 then Token(s, "null", k)
       else if |vs| == 1 then Renders(env, ts[0], vs[0], s, k)
       else exists r :: Token(s, "[", r) && RendersTuple(env, ts, vs, r, k)
  }

  ghost predicate RendersTuple(env: Env, ts: seq<Type>, vs: seq<Value>, s: string, k: string)
    ensures RendersTuple(env, ts, vs, s, k) ==> |k| < |s|
    decreases |s|, 2
  {
    && |ts| == |vs| > 0
    && exists r ::
      && Renders(env, ts[0], vs[0], s, r)
      && if |vs| == 1 then Token(r, "]", k)
         else exists r' :: Token(r, ",", r') && RendersTuple(env, ts[1..], vs[1..], r', k)
  }

  // ---------------------------------------------------------------------- reading tokens

  lemma {:induction false} WhiteSkips(s: string, n: nat)
    requires n <= |s| && White(s[..n]) && !IsSpace(Head(s[n..]))
    ensures SkipWs(s) == s[n..]
    decreases n
  {
    if n > 0 {
      assert s[..n][0] == s[0];
      assert s[1..][n - 1..] == s[n..];
      assert s[1..][..n - 1] == s[..n][1..];
      WhiteSkips(s[1..], n - 1);
    }
  }

  lemma TokenSkips(s: string, c: string, rest: string)
    requires Token(s, c, rest) && c != [] && !IsSpace(c[0])
    ensures SkipWs(s) == c + rest && SkipWs(SkipWs(s)) == SkipWs(s)
    ensures c[0] != NUL ==> Head(s) == c[0] || IsSpace(Head(s))
  {
    var n :| 0 <= n <= |s| && White(s[..n]) && s[n..] == c + rest;
    WhiteSkips(s, n);
    SkipWsStops(s);
  }

  lemma StringTokenReads(s: string, text: string, rest: string)
    requires StringToken(s, text, rest)
    ensures ReadString(s) == Some((text, rest)) == ReadString(SkipWs(s)) && Head(SkipWs(s)) == '"'
  {
    hide Stands, Inside, ReadChars, Token, SkipWs;
    var body :| Inside(body) && Stands(body) == text && Token(s, ['"'] + body + ['"'], rest);
    TokenSkips(s, ['"'] + body + ['"'], rest);
    LiteralRead(body, rest);
    BodyBehindQuote(body, rest);
  }

  lemma BodyBehindQuote(body: string, rest: string)
    ensures (['"'] + body + ['"'] + rest)[1..] == body + (['"'] + rest)
    ensures Head(['"'] + body + ['"'] + rest) == '"'
  {
  }

  /** The digits of a number, whatever follows. */
  lemma {:induction false} DigitsRead(ds: string, k: string)
    requires ds == [] || Digits(ds)
    ensures ReadDigits(ds + k, 0) == ReadDigits(k, Positional(ds))
    decreases |ds|
  {
    if ds == [] {
      assert ds + k == k;
    } else {
      var n := |ds| - 1;
      assert ds + k == ds[..n] + ([ds[n]] + k);
      DigitsRead(ds[..n], [ds[n]] + k);
      assert ([ds[n]] + k)[1..] == k;
    }
  }

  lemma DigitsEnd(ds: string, k: string)
    requires Digits(ds) && !IsDigit(Head(k))
    ensures ReadDigits(ds + k, 0) == (Positional(ds), k) && IsDigit(Head(ds + k)) && !IsSpace(Head(ds + k))
  {
    hide Positional;
    DigitsRead(ds, k);
    assert Head(ds + k) == ds[0];
  }

  /** `strtoll` in front of digits, with or without a sign. */
  lemma IntRead(s: string, digits: string, n: nat, k: string)
    requires digits == (if Head(s) == '-' || Head(s) == '+' then s[1..] else s)
    requires ReadDigits(digits, 0) == (n, k) && IsDigit(Head(digits))
    ensures ReadInt(s) == (Clamp(if Head(s) == '-' then 0 - n else n), k)
  {
    hide Clamp, ReadDigits;
    assert SkipCSpace(s) == s;
  }

  /** `strtoll` on any numeral: its value, or the nearest 64-bit integer. */
  lemma NumeralRead(text: string, x: int, k: string)
    requires Numeral(text, x) && !IsDigit(Head(k))
    ensures text != [] && (IsDigit(text[0]) || text[0] == '+' || text[0] == '-')
    ensures ReadInt(text + k) == (Nearest(x), k)
  {
    hide ReadInt, Positional, ReadDigits;
    var signed := !Digits(text);
    var ds := if signed then text[1..] else text;
    DigitsEnd(ds, k);
    assert signed ==> (text + k)[1..] == ds + k;
    assert Head(text + k) == text[0];
    IntRead(text + k, ds + k, Positional(ds), k);
  }

  /** The 64-bit integer closest to `x`. */
  function Nearest(x: int): int {
    if x > 0x7fff_ffff_ffff_ffff then 0x7fff_ffff_ffff_ffff
    else if x < -0x8000_0000_0000_0000 then -0x8000_0000_0000_0000
    else x
  }

  /** The white space of C may stand in front of it. */
  lemma {:induction false} SpacedNumeralRead(ws: string, text: string, x: int, k: string)
    requires Numeral(text, x) && !IsDigit(Head(k))
    requires forall i :: 0 <= i < |ws| ==> ws[i] as int == 32 || 9 <= ws[i] as int <= 13
    ensures ReadInt(ws + (text + k)) == (Nearest(x), k)
    decreases |ws|
  {
    NumeralRead(text, x, k);
    hide Numeral, ReadDigits, Clamp;
    if ws == [] {
      assert ws + (text + k) == text + k;
    } else {
      SpacedNumeralRead(ws[1..], text, x, k);
      var s := ws + (text + k);
      assert s[1..] == ws[1..] + (text + k) && Head(s) == ws[0];
      OneSpaceInt(s, x, k);
    }
  }

  lemma OneSpaceInt(s: string, x: int, k: string)
    requires s != [] && (s[0] as int == 32 || 9 <= s[0] as int <= 13)
    requires ReadInt(s[1..]) == (Nearest(x), k) && |k| < |s[1..]|
    ensures ReadInt(s) == (Nearest(x), k)
  {
    hide ReadDigits, Clamp, Nearest;
    assert SkipCSpace(s) == SkipCSpace(s[1..]);
  }

  /** Without a digit nothing is read. */
  lemma NoNumeralRead(s: string)
    requires !IsSpace(Head(s)) && Head(s) as int != 11 && Head(s) as int != 12
    requires !IsDigit(Head(s)) && !((Head(s) == '-' || Head(s) == '+') && IsDigit(Head(s[1..])))
    ensures ReadInt(s) == (0, s)
  {
  }

  lemma NumberTokenReads(s: string, x: int, rest: string)
    requires NumberToken(s, x, rest) && IsInt64(x)
    ensures ReadInt(SkipWs(s)) == (x, rest) && Solid(SkipWs(s)) && SkipWs(SkipWs(s)) == SkipWs(s)
  {
    hide ReadInt, Token, Numeral, SkipWs, Nearest, Solid;
    var text :| Numeral(text, x) && Token(s, text, rest);
    NumeralRead(text, x, rest);
    TokenSkips(s, text, rest);
    NearestInside(x);
    NumeralIsSolid(text, rest);
  }

  lemma NearestInside(x: int)
    requires IsInt64(x)
    ensures Nearest(x) == x
  {
  }

  lemma NumeralIsSolid(text: string, rest: string)
    requires text != [] && (IsDigit(text[0]) || text[0] == '+' || text[0] == '-')
    ensures Solid(text + rest)
  {
  }

  // --------------------------------------------------------------------- reading renderings

  lemma FillSkips(env: Env, t: Type, s: string, was: Value)
    ensures Fill(env, t, SkipWs(s), was) == Fill(env, t, s, was)
  {
    SkipWsStops(s);
  }

  /** Whatever the layout, the reader makes the value of a rendering, and leaves what follows it. */
  lemma {:induction false} FillRendered(env: Env, t: Type, v: Value, s: string, k: string, was: Value)
    requires EnvOk(env) && Renders(env, t, v, s, k)
    ensures Fill(env, t, s, was) == (Truncate(v), k) && Solid(SkipWs(s))
    decreases |s|, 1
  {
    match t
    case TInt => NumberTokenReads(s, v.n, k);
    case TBool => RenderedBool(env, v.b, s, k, was);
    case TString => StringTokenReads(s, v.s, k);
    case TVec(elem) => RenderedVec(env, elem, v, s, k, was);
    case TNamed(name) =>
      ResolveOk(env, name);
      match Resolve(env, name) {
        case Struct(fs) => RenderedStruct(env, name, fs, v, s, k, was);
        case Enum(ws) => RenderedEnum(env, name, ws, v, s, k, was);
      }
  }

  lemma RenderedBool(env: Env, b: bool, s: string, k: string, was: Value)
    requires Token(s, if b then "true" else "false", k)
    ensures Fill(env, TBool, s, was) == (VBool(b), k) && Solid(SkipWs(s))
  {
    TokenSkips(s, if b then "true" else "false", k);
    if b {
      assert ("true" + k)[4..] == k;
    } else {
      assert ("false" + k)[5..] == k;
    }
  }

  lemma {:induction false} RenderedVec(env: Env, elem: Type, v: Value, s: string, k: string, was: Value)
    requires EnvOk(env) && v.VVec? && Renders(env, TVec(elem), v, s, k)
    ensures Fill(env, TVec(elem), s, was) == (Truncate(v), k) && Solid(SkipWs(s))
    decreases |s|, 0
  {
    var r :| Token(s, "[", r) && RendersElems(env, elem, v.elems, r, k);
    TokenSkips(s, "[", r);
    assert ("[" + r)[1..] == r;
    RenderedElems(env, elem, v.elems, r, k);
    assert ("]" + k)[1..] == k;
  }

  /** The array loop. */
  lemma {:induction false} RenderedElems(env: Env, elem: Type, vs: seq<Value>, s: string, k: string)
    requires EnvOk(env) && RendersElems(env, elem, vs, s, k)
    ensures FillElems(env, elem, SkipWs(s)) == (TruncateAll(vs), "]" + k)
    decreases |s|, 2
  {
    hide Fill, Renders, Token, Truncate;
    if vs == [] {
      TokenSkips(s, "]", k);
    } else {
      var r :| Renders(env, elem, vs[0], s, r) && if |vs| == 1 then Token(r, "]", k)
         else exists r' :: Token(r, ",", r') && RendersElems(env, elem, vs[1..], r', k);
      FillRendered(env, elem, vs[0], s, r, Unset);
      FillSkips(env, elem, s, Unset);
      if |vs| == 1 {
        TokenSkips(r, "]", k);
        assert TruncateAll(vs) == [Truncate(vs[0])];
      } else {
        var r' :| Token(r, ",", r') && RendersElems(env, elem, vs[1..], r', k);
        TokenSkips(r, ",", r');
        assert ("," + r')[1..] == r';
        RenderedElems(env, elem, vs[1..], r', k);
      }
    }
  }

  lemma {:induction false} RenderedStruct(env: Env, name: string, fs: seq<Field>, v: Value, s: string, k: string, was: Value)
    requires EnvOk(env) && FieldsOk(fs) && Resolve(env, name) == Struct(fs) && Renders(env, TNamed(name), v, s, k)
    ensures Fill(env, TNamed(name), s, was) == (Truncate(v), k) && Solid(SkipWs(s))
    decreases |s|, 0
  {
    hide Token, RendersFields, FillObject, Truncate, Last;
    var r, es :| Token(s, "{", r) && RendersFields(env, fs, es, r, k)
          && |v.fields| == |fs| && forall j :: 0 <= j < |fs| ==> Last(es, j) == Some(v.fields[j]);
    hide Renders;
    TokenSkips(s, "{", r);
    RenderedObject(env, fs, es, s, r, k);
    ObjectSkips(env, fs, s);
    assert FillObject(env, fs, s).0 == TruncateAll(v.fields);
    TruncateStruct(v);
  }

  lemma ObjectSkips(env: Env, fs: seq<Field>, s: string)
    ensures FillObject(env, fs, SkipWs(s)) == FillObject(env, fs, s)
  {
    hide FillFields;
    SkipWsStops(s);
  }

  lemma TruncateStruct(v: Value)
    requires v.VStruct?
    ensures Truncate(v) == VStruct(TruncateAll(v.fields))
  {
  }

  /** Slot `j` of an object read at layout `fs` gets the last entry for it, and stays unset without one. */
  lemma {:induction false} RenderedObject(env: Env, fs: seq<Field>, es: seq<Entry>, s: string, r: string, k: string)
    requires EnvOk(env) && FieldsOk(fs) && Token(s, "{", r) && RendersFields(env, fs, es, r, k)
    ensures var (slots, rest) := FillObject(env, fs, s);
      && rest == k
      && forall j :: 0 <= j < |fs| ==> slots[j] == if Last(es, j).Some? then Truncate(Last(es, j).value) else Unset
    decreases |s|, 0, 0
  {
    TokenSkips(s, "{", r);
    assert ("{" + r)[1..] == r;
    SkipWsStops(r);
    hide Truncate, Fill, FillFields;
    RenderedFields(env, fs, es, r, k, SkipWs(r), Blank(|fs|));
    forall j | 0 <= j < |fs| { IntoIsLast(fs, es, Blank(|fs|), j); }
  }

  /** The slots after the entries, front to back. */
  function Into(fs: seq<Field>, es: seq<Entry>, acc: seq<Value>): (r: seq<Value>)
    requires |acc| == |fs|
    ensures |r| == |fs|
  {
    if es == [] then acc
    else Into(fs, es[1..], if es[0].place < |fs| then acc[es[0].place := Truncate(es[0].value)] else acc)
  }

  lemma {:induction false} IntoIsLast(fs: seq<Field>, es: seq<Entry>, acc: seq<Value>, j: nat)
    requires |acc| == |fs| && j < |fs|
    ensures Into(fs, es, acc)[j] == if Last(es, j).Some? then Truncate(Last(es, j).value) else acc[j]
    decreases |es|
  {
    hide Truncate;
    if es != [] {
      IntoIsLast(fs, es[1..], if es[0].place < |fs| then acc[es[0].place := Truncate(es[0].value)] else acc, j);
      LastOfTail(es, j);
    }
  }

  lemma {:induction false} LastOfTail(es: seq<Entry>, j: nat)
    requires es != []
    ensures Last(es, j) == if Last(es[1..], j).Some? then Last(es[1..], j)
                           else if es[0].place == j then Some(es[0].value) else None
    decreases |es|
  {
    var n := |es| - 1;
    if n > 0 {
      assert es[1..][..n - 1] == es[..n][1..];
      if es[n].place != j { LastOfTail(es[..n], j); }
    } else {
      assert es[..0] == [] && es[1..] == [];
    }
  }

  /** The object loop, started at `s'`, which is `s` with or without its leading white space. */
  lemma {:induction false} RenderedFields(env: Env, fs: seq<Field>, es: seq<Entry>, s: string, k: string, s': string, acc: seq<Value>)
    requires EnvOk(env) && FieldsOk(fs) && RendersFields(env, fs, es, s, k) && SkipWs(s') == SkipWs(s) && |acc| == |fs|
    ensures FillFields(env, fs, s', acc) == (Into(fs, es, acc), k)
    decreases |s|, 2
  {
    hide Fill, FillFields, FillField, Token, Truncate, FieldsOk, EnvOk, SkipWs, ReadString;
    var i, v := es[0].place, es[0].value;
    var r :| RendersEntry(env, fs[i], v, s, r) && if |es| == 1 then Token(r, "}", k)
         else exists r' :: Token(r, ",", r') && RendersFields(env, fs, es[1..], r', k);
    RenderedEntry(env, fs, i, v, s, r, s', acc);
    var acc' := acc[i := Truncate(v)];
    if |es| == 1 {
      TokenSkips(r, "}", k);
      assert ("}" + k)[1..] == k;
      assert Into(fs, es[1..], acc') == acc';
    } else {
      var r' :| Token(r, ",", r') && RendersFields(env, fs, es[1..], r', k);
      TokenSkips(r, ",", r');
      assert ("," + r')[1..] == r';
      RenderedFields(env, fs, es[1..], r', k, r', acc');
    }
  }

  /** One turn of the object loop. */
  lemma {:induction false} RenderedEntry(env: Env, fs: seq<Field>, i: nat, v: Value, s: string, next: string, s': string, acc: seq<Value>)
    requires EnvOk(env) && FieldsOk(fs) && i < |fs| && |acc| == |fs|
    requires RendersEntry(env, fs[i], v, s, next) && SkipWs(s') == SkipWs(s)
    ensures FillFields(env, fs, s', acc)
         == var acc' := acc[i := Truncate(v)];
            if Head(SkipWs(next)) == ',' then FillFields(env, fs, SkipWs(next)[1..], acc') else (acc', Accept(SkipWs(next), '}'))
    decreases |s|, 0
  {
    hide Fill, FillFields, FillField, Token, StringToken, Truncate, EnvOk, Renders;
    var r :| NameToken(s, fs[i].name, r) && Renders(env, fs[i].typ, v, r, next);
    var p :| StringToken(s, fs[i].name, p) && Token(p, ":", r);
    StringTokenReads(s, fs[i].name, p);
    TokenSkips(p, ":", r);
    FillRendered(env, fs[i].typ, v, r, next, acc[i]);
    assert NulFree(fs[i].name);
    RenderedSlot(env, fs, i, v, r, next, acc);
    hide FieldsOk;
    EntryTurn(env, fs, s', acc, fs[i].name, p, r, acc[i := Truncate(v)], next);
  }

  lemma RenderedSlot(env: Env, fs: seq<Field>, i: nat, v: Value, r: string, next: string, acc: seq<Value>)
    requires FieldsOk(fs) && i < |fs| && |acc| == |fs| && Fill(env, fs[i].typ, r, acc[i]) == (Truncate(v), next)
    ensures FillField(env, fs, fs[i].name, r, acc) == (acc[i := Truncate(v)], next)
  {
    hide Fill, Truncate;
    FieldIndexFound(fs, i);
  }

  lemma EntryTurn(env: Env, fs: seq<Field>, s: string, acc: seq<Value>, name: string, p: string, r: string,
                  acc': seq<Value>, next: string)
    requires |acc| == |fs| && Head(SkipWs(s)) == '"' && NulFree(name) && ReadString(SkipWs(s)) == Some((name, p))
    requires SkipWs(p) == ":" + r && FillField(env, fs, name, r, acc) == (acc', next)
    ensures |acc'| == |fs|
    ensures FillFields(env, fs, s, acc)
         == if Head(SkipWs(next)) == ',' then FillFields(env, fs, SkipWs(next)[1..], acc')
            else (acc', Accept(SkipWs(next), '}'))
  {
    hide FillField, ReadString, ReadChars, UpToNul, FieldIndex;
    UpToNulExact(name);
    assert (":" + r)[1..] == r;
  }

  lemma {:induction false} RenderedEnum(env: Env, name: string, ws: seq<Variant>, v: Value, s: string, k: string, was: Value)
    requires EnvOk(env) && VariantsOk(ws) && Resolve(env, name) == Enum(ws) && Renders(env, TNamed(name), v, s, k)
    ensures Fill(env, TNamed(name), s, was) == (Truncate(v), k) && Solid(SkipWs(s))
    decreases |s|, 0
  {
    var r :| Token(s, "{", r) && RendersVariant(env, ByTag(ws, v.tag).value, v.payload, r, k);
    hide RendersVariant, Token, Truncate, FillEnum;
    TokenSkips(s, "{", r);
    RenderedVariant(env, ws, v.tag, v.payload, "{" + r, r, k, was);
    TruncateEnum(v);
  }

  lemma {:induction false} RenderedVariant(env: Env, ws: seq<Variant>, tag: int, vs: seq<Value>, s: string, r: string, k: string, was: Value)
    requires EnvOk(env) && VariantsOk(ws) && ByTag(ws, tag).Some? && s == "{" + r
    requires RendersVariant(env, ByTag(ws, tag).value, vs, r, k)
    ensures FillEnum(env, ws, s, was) == (VEnum(tag, TruncateAll(vs)), k)
    decreases |r|, 4
  {
    var w := ByTag(ws, tag).value;
    var r1, r2 :| NameToken(r, w.name, r1) && RendersPayload(env, w.payload, vs, r1, r2) && Token(r2, "}", k);
    hide RendersPayload, Token, StringToken, Truncate, FillPayload, FillEnum;
    var p :| StringToken(r, w.name, p) && Token(p, ":", r1);
    StringTokenReads(r, w.name, p);
    TokenSkips(p, ":", r1);
    RenderedPayload(env, w.payload, vs, r1, r2);
    TokenSkips(r2, "}", k);
    NoSpace(s);
    VariantTurn(env, ws, tag, s, r, p, r1, was);
    assert ("}" + k)[1..] == k;
  }

  /** Under a variant name the enum does not declare nothing is read: the slot keeps what it held, and the
   reader stops in front of the payload, or behind the brace if there is none. */
  lemma UnknownVariant(env: Env, ws: seq<Variant>, name: string, s: string, r: string, r': string, k: string, was: Value)
    requires Token(s, "{", r) && NameToken(r, name, r') && NulFree(name) && ByName(ws, name).None?
    ensures Token(r', "}", k) ==> FillEnum(env, ws, s, was) == (was, k)
    ensures Solid(SkipWs(r')) ==> FillEnum(env, ws, s, was) == (was, SkipWs(r'))
  {
    hide Token, StringToken, ReadString;
    TokenSkips(s, "{", r);
    var p :| StringToken(r, name, p) && Token(p, ":", r');
    StringTokenReads(r, name, p);
    TokenSkips(p, ":", r');
    UpToNulExact(name);
    SkipWsStops(r');
    assert ("{" + r)[1..] == r && (":" + r')[1..] == r';
    if Token(r', "}", k) {
      TokenSkips(r', "}", k);
      assert ("}" + k)[1..] == k;
    }
  }

  lemma TruncateEnum(v: Value)
    requires v.VEnum?
    ensures Truncate(v) == VEnum(v.tag, TruncateAll(v.payload))
  {
  }

  lemma VariantTurn(env: Env, ws: seq<Variant>, tag: int, s: string, r: string, p: string, r1: string, was: Value)
    requires VariantsOk(ws) && ByTag(ws, tag).Some? && s == "{" + r && SkipWs(s) == s
    requires ReadString(SkipWs(r)) == Some((ByTag(ws, tag).value.name, p)) && SkipWs(p) == ":" + r1
    ensures var w := ByTag(ws, tag).value; var (vs, rest) := FillPayload(env, w.payload, SkipWs(r1));
      FillEnum(env, ws, s, was) == (VEnum(tag, vs), Accept(SkipWs(rest), '}'))
  {
    hide FillEnum, FillPayload, ReadString, UpToNul, ByTag, ByName, SkipWs;
    VariantFound(ws, tag);
    PlainNameNulFree(ByTag(ws, tag).value.name);
    EnumReads(env, ws, ByTag(ws, tag).value, s, r, p, r1, was);
  }

  lemma EnumReads(env: Env, ws: seq<Variant>, w: Variant, s: string, r: string, p: string, r1: string, was: Value)
    requires ByName(ws, w.name) == Some(w) && UpToNul(w.name) == w.name && s == "{" + r && SkipWs(s) == s
    requires ReadString(SkipWs(r)) == Some((w.name, p)) && SkipWs(p) == ":" + r1
    ensures var (vs, rest) := FillPayload(env, w.payload, SkipWs(r1));
      FillEnum(env, ws, s, was) == (VEnum(w.tag, vs), Accept(SkipWs(rest), '}'))
  {
    hide FillPayload, ReadString, UpToNul, ByName, SkipWs;
    assert s[1..] == r && (":" + r1)[1..] == r1;
    assert Accept(SkipWs(p), ':') == r1;
  }

  lemma {:induction false} RenderedPayload(env: Env, ts: seq<Type>, vs: seq<Value>, s: string, k: string)
    requires EnvOk(env) && RendersPayload(env, ts, vs, s, k)
    ensures FillPayload(env, ts, SkipWs(s)) == (TruncateAll(vs), k)
    decreases |s|, 3
  {
    hide Fill, Renders, Token, Truncate, FillTuple;
    if |vs| == 0 {
      TokenSkips(s, "null", k);
      assert ("null" + k)[4..] == k;
    } else if |vs| == 1 {
      FillRendered(env, ts[0], vs[0], s, k, Unset);
      FillSkips(env, ts[0], s, Unset);
      assert TruncateAll(vs) == [Truncate(vs[0])];
    } else {
      var r :| Token(s, "[", r) && RendersTuple(env, ts, vs, r, k);
      TokenSkips(s, "[", r);
      assert ("[" + r)[1..] == r;
      RenderedTuple(env, ts, vs, r, k);
      assert ("]" + k)[1..] == k;
    }
  }

  lemma {:induction false} RenderedTuple(env: Env, ts: seq<Type>, vs: seq<Value>, s: string, k: string)
    requires EnvOk(env) && RendersTuple(env, ts, vs, s, k)
    ensures FillTuple(env, ts, SkipWs(s)) == (TruncateAll(vs), "]" + k)
    decreases |s|, 2
  {
    hide Fill, Renders, Token, Truncate;
    var r :| Renders(env, ts[0], vs[0], s, r) && if |vs| == 1 then Token(r, "]", k)
       else exists r' :: Token(r, ",", r') && RendersTuple(env, ts[1..], vs[1..], r', k);
    FillRendered(env, ts[0], vs[0], s, r, Unset);
    FillSkips(env, ts[0], s, Unset);
    if |vs| == 1 {
      TokenSkips(r, "]", k);
      assert TruncateAll(vs) == [Truncate(vs[0])];
    } else {
      var r' :| Token(r, ",", r') && RendersTuple(env, ts[1..], vs[1..], r', k);
      TokenSkips(r, ",", r');
      assert ("," + r')[1..] == r';
      RenderedTuple(env, ts[1..], vs[1..], r', k);
    }
  }

  // ---------------------------------------------------------- the printer writes renderings

  lemma TokenHere(c: string, rest: string)
    ensures Token(c + rest, c, rest)
  {
    var s := c + rest;
    assert White(s[..0]) && s[0..] == c + rest;
  }

  lemma CommaToken(tail: string)
    ensures Token(", " + tail, ",", " " + tail)
  {
    TokenHere(",", " " + tail);
    assert ", " + tail == "," + (" " + tail);
  }

  lemma ColonToken(tail: string)
    ensures Token(": " + tail, ":", " " + tail)
  {
    TokenHere(":", " " + tail);
    assert ": " + tail == ":" + (" " + tail);
  }

  lemma TokenSpace(s: string, c: string, rest: string)
    requires Token(s, c, rest)
    ensures Token(" " + s, c, rest)
  {
    var n :| 0 <= n <= |s| && White(s[..n]) && s[n..] == c + rest;
    var s' := " " + s;
    assert s'[n + 1..] == s[n..] && s'[..n + 1] == " " + s[..n];
  }

  lemma StringTokenHere(text: string, k: string)
    ensures StringToken(Quoted(text, k), text, k)
  {
    var body := Escaped(text, []);
    PrintedStands(text);
    EscapedAppend(text, ['"'] + k);
    assert Quoted(text, k) == ['"'] + body + ['"'] + k;
    TokenHere(['"'] + body + ['"'], k);
    hide Stands, Inside, Token, Quoted;
    assert Inside(body) && Stands(body) == text && Token(['"'] + body + ['"'] + k, ['"'] + body + ['"'], k);
  }

  lemma StringTokenSpace(s: string, text: string, k: string)
    requires StringToken(s, text, k)
    ensures StringToken(" " + s, text, k)
  {
    hide Stands, Inside, Token;
    var body :| Inside(body) && Stands(body) == text && Token(s, ['"'] + body + ['"'], k);
    TokenSpace(s, ['"'] + body + ['"'], k);
  }

  /** White space in front of a rendering. */
  lemma SpaceRenders(env: Env, t: Type, v: Value, s: string, k: string)
    requires Renders(env, t, v, s, k)
    ensures Renders(env, t, v, " " + s, k)
  {
    hide Token, StringToken, RendersElems, RendersFields, RendersVariant;
    match t
    case TInt =>
      var text :| Numeral(text, v.n) && Token(s, text, k);
      TokenSpace(s, text, k);
    case TBool => TokenSpace(s, if v.b then "true" else "false", k);
    case TString => StringTokenSpace(s, v.s, k);
    case TVec(elem) =>
      var r :| Token(s, "[", r) && RendersElems(env, elem, v.elems, r, k);
      TokenSpace(s, "[", r);
    case TNamed(name) => SpaceRendersNamed(env, name, v, s, k);
  }

  lemma SpaceRendersNamed(env: Env, name: string, v: Value, s: string, k: string)
    requires Renders(env, TNamed(name), v, s, k)
    ensures Renders(env, TNamed(name), v, " " + s, k)
  {
    hide Token, StringToken, RendersFields, RendersVariant;
    match Resolve(env, name)
    case Struct(fs) =>
      var r, es :| Token(s, "{", r) && RendersFields(env, fs, es, r, k)
          && |v.fields| == |fs| && forall j :: 0 <= j < |fs| ==> Last(es, j) == Some(v.fields[j]);
      TokenSpace(s, "{", r);
    case Enum(ws) =>
      var r :| Token(s, "{", r) && RendersVariant(env, ByTag(ws, v.tag).value, v.payload, r, k);
      TokenSpace(s, "{", r);
  }

  /** The printed digits are a numeral. */
  lemma {:induction false} DecimalSpells(n: nat, k: string) returns (ds: string)
    ensures Digits(ds) && Positional(ds) == n && Decimal(n, k) == ds + k
    decreases n
  {
    if n < 10 {
      ds := [Digit(n)];
      assert ds[..0] == [];
    } else {
      var d := Digit(n % 10);
      var front := DecimalSpells(n / 10, [d] + k);
      ds := front + [d];
      assert ds[..|ds| - 1] == front && front + ([d] + k) == ds + k;
    }
  }

  lemma SignedRenders(n: int, k: string)
    requires Delimited(k)
    ensures NumberToken(Signed(n, k), n, k)
  {
    hide Token, Positional, Decimal, Numeral, Digits, NumberToken;
    var ds := DecimalSpells(if n < 0 then -n else n, k);
    var text := SignedNumeral(n, ds);
    NumberHere(text, n, k);
    SignedText(n, ds, k);
  }

  lemma SignedText(n: int, ds: string, k: string)
    requires Decimal(if n < 0 then -n else n, k) == ds + k
    ensures (if n < 0 then ['-'] + ds else ds) + k == Signed(n, k)
  {
    hide Decimal;
    assert n < 0 ==> ['-'] + ds + k == ['-'] + (ds + k);
  }

  lemma NumberHere(text: string, x: int, k: string)
    requires Numeral(text, x) && Delimited(k)
    ensures NumberToken(text + k, x, k)
  {
    hide Token, Numeral;
    TokenHere(text, k);
  }

  lemma SignedNumeral(n: int, ds: string) returns (text: string)
    requires Digits(ds) && Positional(ds) == if n < 0 then -n else n
    ensures Numeral(text, n) && text == if n < 0 then ['-'] + ds else ds
  {
    hide Positional;
    text := if n < 0 then ['-'] + ds else ds;
    assert n < 0 ==> text[1..] == ds;
  }

  /** Every readable value is printed as a rendering of it. */
  lemma {:induction false} PrintRenders(env: Env, t: Type, v: Value, k: string)
    requires EnvOk(env) && Typed(env, t, v) && Readable(env, t, v) && Delimited(k)
    ensures Renders(env, t, v, Print(env, t, v, k), k)
    decreases v, 2
  {
    match t
    case TInt => SignedRenders(v.n, k);
    case TBool => TokenHere(if v.b then "true" else "false", k);
    case TString => StringTokenHere(v.s, k);
    case TVec(elem) => PrintVecRenders(env, elem, v, k);
    case TNamed(name) =>
      match Resolve(env, name) {
        case Struct(fs) => PrintStructRenders(env, name, fs, v, k);
        case Enum(ws) => PrintEnumRenders(env, name, ws, v, k);
      }
  }

  lemma {:induction false} PrintVecRenders(env: Env, elem: Type, v: Value, k: string)
    requires EnvOk(env) && Typed(env, TVec(elem), v) && Readable(env, TVec(elem), v)
    ensures Renders(env, TVec(elem), v, Print(env, TVec(elem), v, k), k)
    decreases v, 1
  {
    var body := PrintElems(env, elem, v.elems, "]" + k);
    PrintElemsRender(env, elem, v.elems, k);
    hide RendersElems, Token, PrintElems;
    TokenHere("[", body);
  }

  lemma {:induction false} PrintElemsRender(env: Env, elem: Type, vs: seq<Value>, k: string)
    requires EnvOk(env) && (forall i :: 0 <= i < |vs| ==> Typed(env, elem, vs[i]) && Readable(env, elem, vs[i]))
    ensures RendersElems(env, elem, vs, PrintElems(env, elem, vs, "]" + k), k)
    decreases vs, 0
  {
    hide Renders, Print, Typed, Readable, EnvOk, Token;
    TokenHere("]", k);
    if vs != [] {
      var tail := PrintElems(env, elem, vs[1..], "]" + k);
      var next := if |vs| == 1 then "]" + k else ", " + tail;
      PrintRenders(env, elem, vs[0], next);
      if |vs| > 1 {
        PrintElemsRender(env, elem, vs[1..], k);
        SpaceRendersElems(env, elem, vs[1..], tail, k);
        CommaToken(tail);
      }
    }
  }

  lemma SpaceRendersElems(env: Env, elem: Type, vs: seq<Value>, s: string, k: string)
    requires RendersElems(env, elem, vs, s, k) && vs != []
    ensures RendersElems(env, elem, vs, " " + s, k)
  {
    hide Renders, Token;
    var r :| Renders(env, elem, vs[0], s, r) && if |vs| == 1 then Token(r, "]", k)
         else exists r' :: Token(r, ",", r') && RendersElems(env, elem, vs[1..], r', k);
    SpaceRenders(env, elem, vs[0], s, r);
  }

  /** The entries of a printed struct from field `i` on. */
  function Entries(vs: seq<Value>, i: nat): (es: seq<Entry>)
    requires i <= |vs|
    ensures |es| == |vs| - i && forall j :: 0 <= j < |es| ==> es[j] == Entry(i + j, vs[i + j])
    decreases |vs| - i
  {
    if i == |vs| then [] else [Entry(i, vs[i])] + Entries(vs, i + 1)
  }

  lemma {:induction false} EntriesLast(es: seq<Entry>, vs: seq<Value>, j: nat)
    requires |es| <= |vs| && j < |es| && forall i :: 0 <= i < |es| ==> es[i] == Entry(i, vs[i])
    ensures Last(es, j) == Some(vs[j])
    decreases |es|
  {
    if j < |es| - 1 { EntriesLast(es[..|es| - 1], vs, j); }
  }

  lemma {:induction false} PrintStructRenders(env: Env, name: string, fs: seq<Field>, v: Value, k: string)
    requires EnvOk(env) && Typed(env, TNamed(name), v) && Readable(env, TNamed(name), v) && Resolve(env, name) == Struct(fs)
    ensures Renders(env, TNamed(name), v, Print(env, TNamed(name), v, k), k)
    decreases v, 1
  {
    var body := PrintFields(env, fs, v.fields, "}" + k);
    assert fs[0..] == fs && v.fields[0..] == v.fields;
    PrintFieldsRender(env, fs, v.fields, k, 0);
    var es := Entries(v.fields, 0);
    forall j | 0 <= j < |fs| ensures Last(es, j) == Some(v.fields[j]) { EntriesLast(es, v.fields, j); }
    hide RendersFields, Token, PrintFields, Last, Entries;
    TokenHere("{", body);
    assert Print(env, TNamed(name), v, k) == "{" + body;
  }

  lemma {:induction false} PrintFieldsRender(env: Env, fs: seq<Field>, vs: seq<Value>, k: string, i: nat)
    requires EnvOk(env) && AllTyped(env, Types(fs), vs) && ReadableAll(env, Types(fs), vs) && i < |fs|
    ensures RendersFields(env, fs, Entries(vs, i), PrintFields(env, fs[i..], vs[i..], "}" + k), k)
    decreases vs, 0, |fs| - i
  {
    hide Renders, Print, PrintFields, Typed, Readable, EnvOk, Token, RendersEntry, RendersFields;
    var k' := "}" + k;
    var next := AfterField(env, fs, vs, k', i);
    var s := PrintFields(env, fs[i..], vs[i..], k');
    PrintFieldsAt(env, fs, vs, k', i);
    PrintRenders(env, fs[i].typ, vs[i], next);
    PrintedEntry(env, fs[i], vs[i], Print(env, fs[i].typ, vs[i], next), next);
    if i == |fs| - 1 {
      TokenHere("}", k);
      LastEntry(env, fs, vs, i, s, next, k);
    } else {
      var tail := PrintFields(env, fs[i + 1..], vs[i + 1..], k');
      PrintFieldsRender(env, fs, vs, k, i + 1);
      SpaceRendersFields(env, fs, Entries(vs, i + 1), tail, k);
      CommaToken(tail);
      OneMoreEntry(env, fs, vs, i, s, next, " " + tail, k);
    }
  }

  lemma LastEntry(env: Env, fs: seq<Field>, vs: seq<Value>, i: nat, s: string, r: string, k: string)
    requires i == |fs| - 1 == |vs| - 1 && RendersEntry(env, fs[i], vs[i], s, r) && Token(r, "}", k)
    ensures RendersFields(env, fs, Entries(vs, i), s, k)
  {
    hide RendersEntry, Token;
  }

  lemma OneMoreEntry(env: Env, fs: seq<Field>, vs: seq<Value>, i: nat, s: string, r: string, r': string, k: string)
    requires i + 1 < |fs| == |vs| && RendersEntry(env, fs[i], vs[i], s, r) && Token(r, ",", r')
    requires RendersFields(env, fs, Entries(vs, i + 1), r', k)
    ensures RendersFields(env, fs, Entries(vs, i), s, k)
  {
    hide RendersEntry, Token;
    assert Entries(vs, i)[1..] == Entries(vs, i + 1);
  }

  lemma PrintedEntry(env: Env, f: Field, v: Value, text: string, next: string)
    requires Renders(env, f.typ, v, text, next)
    ensures RendersEntry(env, f, v, Quoted(f.name, ": " + text), next)
  {
    hide Renders, Token, StringToken, Quoted;
    StringTokenHere(f.name, ": " + text);
    SpaceRenders(env, f.typ, v, text, next);
    ColonToken(text);
  }

  lemma SpaceRendersFields(env: Env, fs: seq<Field>, es: seq<Entry>, s: string, k: string)
    requires RendersFields(env, fs, es, s, k)
    ensures RendersFields(env, fs, es, " " + s, k)
  {
    hide Renders, Token, StringToken;
    var r :| RendersEntry(env, fs[es[0].place], es[0].value, s, r) && if |es| == 1 then Token(r, "}", k)
         else exists r' :: Token(r, ",", r') && RendersFields(env, fs, es[1..], r', k);
    SpaceRendersEntry(env, fs[es[0].place], es[0].value, s, r);
  }

  lemma SpaceRendersEntry(env: Env, f: Field, v: Value, s: string, k: string)
    requires RendersEntry(env, f, v, s, k)
    ensures RendersEntry(env, f, v, " " + s, k)
  {
    hide Renders, Token, StringToken;
    var r :| NameToken(s, f.name, r) && Renders(env, f.typ, v, r, k);
    var p :| StringToken(s, f.name, p) && Token(p, ":", r);
    StringTokenSpace(s, f.name, p);
  }

  lemma {:induction false} PrintEnumRenders(env: Env, name: string, ws: seq<Variant>, v: Value, k: string)
    requires EnvOk(env) && Typed(env, TNamed(name), v) && Readable(env, TNamed(name), v) && Resolve(env, name) == Enum(ws)
    ensures Renders(env, TNamed(name), v, Print(env, TNamed(name), v, k), k)
    decreases v, 1
  {
    var w := ByTag(ws, v.tag).value;
    var body := PrintPayload(env, w.payload, v.payload, "}" + k);
    assert Print(env, TNamed(name), v, k) == EnumText(w.name, body);
    PrintPayloadRenders(env, w.payload, v.payload, k);
    hide RendersPayload, Token, PrintPayload, StringToken, Print, EnumText, RendersVariant, PlainName, Renders, Readable;
    ResolveOk(env, name);
    VariantFound(ws, v.tag);
    PrintedVariant(env, w, v.payload, body, k);
    EnumTextIs(w.name, body);
    VariantRenders(env, name, ws, v, ['"'] + w.name + ['"'] + (": " + body), k);
  }

  lemma VariantRenders(env: Env, name: string, ws: seq<Variant>, v: Value, r: string, k: string)
    requires Resolve(env, name) == Enum(ws) && v.VEnum? && ByTag(ws, v.tag).Some?
    requires RendersVariant(env, ByTag(ws, v.tag).value, v.payload, r, k)
    ensures Renders(env, TNamed(name), v, "{" + r, k)
  {
    hide RendersVariant, Token;
    TokenHere("{", r);
  }

  lemma EnumTextIs(name: string, body: string)
    ensures EnumText(name, body) == "{" + (['"'] + name + ['"'] + (": " + body))
  {
  }

  lemma PrintedVariant(env: Env, w: Variant, vs: seq<Value>, body: string, k: string)
    requires PlainName(w.name) && RendersPayload(env, w.payload, vs, body, "}" + k)
    ensures RendersVariant(env, w, vs, ['"'] + w.name + ['"'] + (": " + body), k)
  {
    hide RendersPayload, Token, StringToken;
    var s := ['"'] + w.name + ['"'] + (": " + body);
    PlainStringToken(w.name, ": " + body);
    ColonToken(body);
    SpaceRendersPayload(env, w.payload, vs, body, "}" + k);
    TokenHere("}", k);
    assert NameToken(s, w.name, " " + body);
  }

  lemma PlainStringToken(name: string, k: string)
    requires PlainName(name)
    ensures StringToken(['"'] + name + ['"'] + k, name, k)
  {
    PlainStands(name);
    TokenHere(['"'] + name + ['"'], k);
  }

  lemma {:induction false} PlainStands(name: string)
    requires PlainName(name)
    ensures Inside(name) && Stands(name) == name
  {
    if name != [] {
      PlainStands(name[1..]);
      assert name == [name[0]] + name[1..];
    }
  }

  lemma SpaceRendersPayload(env: Env, ts: seq<Type>, vs: seq<Value>, s: string, k: string)
    requires RendersPayload(env, ts, vs, s, k)
    ensures RendersPayload(env, ts, vs, " " + s, k)
  {
    hide Renders, Token, RendersTuple;
    if |vs| == 0 {
      TokenSpace(s, "null", k);
    } else if |vs| == 1 {
      SpaceRenders(env, ts[0], vs[0], s, k);
    } else {
      var r :| Token(s, "[", r) && RendersTuple(env, ts, vs, r, k);
      TokenSpace(s, "[", r);
    }
  }

  lemma {:induction false} PrintPayloadRenders(env: Env, ts: seq<Type>, vs: seq<Value>, k: string)
    requires EnvOk(env) && AllTyped(env, ts, vs) && ReadableAll(env, ts, vs)
    ensures RendersPayload(env, ts, vs, PrintPayload(env, ts, vs, "}" + k), "}" + k)
    decreases vs, 1
  {
    hide Renders, Print, Typed, Readable, EnvOk, Token, RendersTuple, PrintTuple;
    if |vs| == 0 {
      TokenHere("null", "}" + k);
    } else if |vs| == 1 {
      PrintRenders(env, ts[0], vs[0], "}" + k);
    } else {
      PrintTupleRenders(env, ts, vs, "}" + k);
      TokenHere("[", PrintTuple(env, ts, vs, "]" + ("}" + k)));
    }
  }

  lemma {:induction false} PrintTupleRenders(env: Env, ts: seq<Type>, vs: seq<Value>, k: string)
    requires EnvOk(env) && AllTyped(env, ts, vs) && ReadableAll(env, ts, vs) && vs != []
    ensures RendersTuple(env, ts, vs, PrintTuple(env, ts, vs, "]" + k), k)
    decreases vs, 0
  {
    hide Renders, Print, Typed, Readable, EnvOk, Token;
    TokenHere("]", k);
    var tail := PrintTuple(env, ts[1..], vs[1..], "]" + k);
    var next := if |vs| == 1 then "]" + k else ", " + tail;
    PrintRenders(env, ts[0], vs[0], next);
    if |vs| > 1 {
      PrintTupleRenders(env, ts[1..], vs[1..], k);
      SpaceRendersTuple(env, ts[1..], vs[1..], tail, k);
      CommaToken(tail);
    }
  }

  lemma SpaceRendersTuple(env: Env, ts: seq<Type>, vs: seq<Value>, s: string, k: string)
    requires RendersTuple(env, ts, vs, s, k)
    ensures RendersTuple(env, ts, vs, " " + s, k)
  {
    hide Renders, Token;
    var r :| Renders(env, ts[0], vs[0], s, r) && if |vs| == 1 then Token(r, "]", k)
       else exists r' :: Token(r, ",", r') && RendersTuple(env, ts[1..], vs[1..], r', k);
    SpaceRenders(env, ts[0], vs[0], s, r);
  }

  /** The layout makes no difference: two renderings of a value read the same. */
  lemma LayoutIsFree(env: Env, t: Type, v: Value, a: string, b: string, k: string, was: Value)
    requires EnvOk(env) && Renders(env, t, v, a, k) && Renders(env, t, v, b, k)
    ensures Fill(env, t, a, was) == Fill(env, t, b, was)
  {
    FillRendered(env, t, v, a, k, was);
    FillRendered(env, t, v, b, k, was);
  }
}
