/**
 The type-directed JSON printer and reader over the registered struct and enum layouts.
 A printing function takes the text `k` that follows what it prints; a reading function takes the
 text under the cursor and returns what it left unread.
 */
module Json {
  import opened Seqs
  import opened JsonText

  datatype Type = TInt | TBool | TString | TVec(elem: Type) | TNamed(name: string)

  datatype Field = Field(name: string, typ: Type)
  datatype Variant = Variant(name: string, tag: int, payload: seq<Type>)
  datatype StructDecl = StructDecl(name: string, fields: seq<Field>)
  datatype EnumDecl = EnumDecl(name: string, variants: seq<Variant>)
  datatype Env = Env(structs: seq<StructDecl>, enums: seq<EnumDecl>)

  /** `Unset` stands for a slot the reader has not written. */
  datatype Value =
    | Unset
    | VInt(n: int)
    | VBool(b: bool)
    | VString(s: string)
    | VVec(elems: seq<Value>)
    | VStruct(fields: seq<Value>)
    | VEnum(tag: int, payload: seq<Value>)

  // ----------------------------------------------------------------------- lookups

  function FindStruct(ds: seq<StructDecl>, name: string): Option<StructDecl> {
    if ds == [] then None else if ds[0].name == name then Some(ds[0]) else FindStruct(ds[1..], name)
  }

  function FindEnum(ds: seq<EnumDecl>, name: string): Option<EnumDecl> {
    if ds == [] then None else if ds[0].name == name then Some(ds[0]) else FindEnum(ds[1..], name)
  }

  datatype Layout = Struct(fields: seq<Field>) | Enum(variants: seq<Variant>) | Unregistered

  /** Structs are looked up before enums. */
  function Resolve(env: Env, name: string): Layout {
    match FindStruct(env.structs, name)
    case Some(d) => Struct(d.fields)
    case None =>
      match FindEnum(env.enums, name)
      case Some(d) => Enum(d.variants)
      case None => Unregistered
  }

  /** The first field of that name. */
  function FieldIndex(fs: seq<Field>, name: string): (i: Option<nat>)
    ensures i.Some? ==> i.value < |fs| && fs[i.value].name == name
  {
    if fs == [] then None
    else if fs[0].name == name then Some(0)
    else match FieldIndex(fs[1..], name) case Some(i) => Some(i + 1) case None => None
  }

  function ByTag(vs: seq<Variant>, tag: int): (v: Option<Variant>)
    ensures v.Some? ==> v.value in vs && v.value.tag == tag
  {
    if vs == [] then None else if vs[0].tag == tag then Some(vs[0]) else ByTag(vs[1..], tag)
  }

  function ByName(vs: seq<Variant>, name: string): (v: Option<Variant>)
    ensures v.Some? ==> v.value in vs && v.value.name == name
  {
    if vs == [] then None else if vs[0].name == name then Some(vs[0]) else ByName(vs[1..], name)
  }

  // ------------------------------------------------------------ what the compiler registers

  predicate FieldsOk(fs: seq<Field>) {
    && (forall i :: 0 <= i < |fs| ==> NulFree(fs[i].name))
    && (forall i, j :: 0 <= i < j < |fs| ==> fs[i].name != fs[j].name)
  }

  predicate VariantsOk(vs: seq<Variant>) {
    && (forall i :: 0 <= i < |vs| ==> PlainName(vs[i].name))
    && (forall i, j :: 0 <= i < j < |vs| ==> vs[i].name != vs[j].name)
  }

  /** Field and variant names are distinct identifiers. */
  predicate EnvOk(env: Env) {
    && (forall d :: d in env.structs ==> FieldsOk(d.fields))
    && (forall d :: d in env.enums ==> VariantsOk(d.variants))
  }

  /** `v` is a value a slot of type `t` can hold; an enum slot may hold an undeclared tag. */
  predicate Typed(env: Env, t: Type, v: Value)
    decreases v, 1
  {
    match t
    case TInt => v.VInt? && IsInt64(v.n)
    case TBool => v.VBool?
    case TString => v.VString?
    case TVec(elem) => v.VVec? && (forall i :: 0 <= i < |v.elems| ==> Typed(env, elem, v.elems[i]))
    case TNamed(name) =>
      match Resolve(env, name)
      case Struct(fs) =>
        v.VStruct? && |v.fields| == |fs| && (forall i :: 0 <= i < |fs| ==> Typed(env, fs[i].typ, v.fields[i]))
      case Enum(vs) =>
        v.VEnum? && (match ByTag(vs, v.tag)
                     case Some(w) =>
                       && |v.payload| == |w.payload|
                       && (forall i :: 0 <= i < |w.payload| ==> Typed(env, w.payload[i], v.payload[i]))
                     case None => true)
      case Unregistered => false
  }

  // ------------------------------------------------------------------------ printing

  predicate AllTyped(env: Env, ts: seq<Type>, vs: seq<Value>) {
    |ts| == |vs| && (forall i :: 0 <= i < |ts| ==> Typed(env, ts[i], vs[i]))
  }

  function Types(fs: seq<Field>): (ts: seq<Type>)
    ensures |ts| == |fs| && (forall i :: 0 <= i < |fs| ==> ts[i] == fs[i].typ)
  {
    if fs == [] then [] else [fs[0].typ] + Types(fs[1..])
  }

  function Print(env: Env, t: Type, v: Value, k: string): string
    requires Typed(env, t, v)
    decreases v, 1
  {
    match t
    case TInt => Signed(v.n, k)
    case TBool => (if v.b then "true" else "false") + k
    case TString => Quoted(v.s, k)
    case TVec(elem) => ['['] + PrintElems(env, elem, v.elems, [']'] + k)
    case TNamed(name) =>
      match Resolve(env, name)
      case Struct(fs) => ['{'] + PrintFields(env, fs, v.fields, ['}'] + k)
      case Enum(vs) =>
        match ByTag(vs, v.tag)
        case None => "null" + k
        case Some(w) => ['{', '"'] + (w.name + (['"'] + (": " + PrintPayload(env, w.payload, v.payload, ['}'] + k))))
  }

  function PrintElems(env: Env, elem: Type, vs: seq<Value>, k: string): string
    requires forall i :: 0 <= i < |vs| ==> Typed(env, elem, vs[i])
    decreases vs, 0
  {
    if vs == [] then k
    else Print(env, elem, vs[0], if |vs| == 1 then k else ", " + PrintElems(env, elem, vs[1..], k))
  }

  function PrintFields(env: Env, fs: seq<Field>, vs: seq<Value>, k: string): string
    requires |fs| == |vs| && (forall i :: 0 <= i < |fs| ==> Typed(env, fs[i].typ, vs[i]))
    decreases vs, 0
  {
    if vs == [] then k
    else Quoted(fs[0].name, ": " + Print(env, fs[0].typ, vs[0],
                                         if |vs| == 1 then k else ", " + PrintFields(env, fs[1..], vs[1..], k)))
  }

  /** No payload prints `null`, a single one its value, several an array. */
  function PrintPayload(env: Env, ts: seq<Type>, vs: seq<Value>, k: string): string
    requires AllTyped(env, ts, vs)
    decreases vs, 1
  {
    if |vs| == 0 then "null" + k
    else if |vs| == 1 then Print(env, ts[0], vs[0], k)
    else ['['] + PrintTuple(env, ts, vs, [']'] + k)
  }

  function PrintTuple(env: Env, ts: seq<Type>, vs: seq<Value>, k: string): string
    requires AllTyped(env, ts, vs)
    decreases vs, 0
  {
    if vs == [] then k
    else Print(env, ts[0], vs[0], if |vs| == 1 then k else ", " + PrintTuple(env, ts[1..], vs[1..], k))
  }

  // ------------------------------------------------------------------------- reading

  /** `s` without its head, if that head is `c`. */
  function Accept(s: string, c: char): (r: string)
    ensures |r| <= |s|
  {
    if s != [] && s[0] == c then s[1..] else s
  }

  function Blank(n: nat): (vs: seq<Value>)
    ensures |vs| == n
  {
    seq(n, _ => Unset)
  }

  /** Read a value of type `t` into a slot that holds `was`. */
  function Fill(env: Env, t: Type, s: string, was: Value): (r: (Value, string))
    ensures |r.1| <= |s|
    decreases |s|, 3
  {
    var s := SkipWs(s);
    match t
    case TInt => var (n, rest) := ReadInt(s); (VInt(n), rest)
    case TBool =>
      if "true" <= s then (VBool(true), s[4..])
      else if "false" <= s then (VBool(false), s[5..])
      else (was, s)
    case TString =>
      (match ReadString(s)
       case Some(p) => (VString(UpToNul(p.0)), p.1)
       case None => (VString([]), s))
    case TVec(elem) =>
      if Head(s) == '[' then
        var (vs, rest) := FillElems(env, elem, SkipWs(s[1..]));
        (VVec(vs), Accept(rest, ']'))
      else (VVec([]), s)
    case TNamed(name) =>
      match Resolve(env, name)
      case Struct(fs) => var (vs, rest) := FillObject(env, fs, s); (VStruct(vs), rest)
      case Enum(vs) => FillEnum(env, vs, s, was)
      case Unregistered => (was, s)
  }

  /** The array loop. */
  function FillElems(env: Env, elem: Type, s: string): (r: (seq<Value>, string))
    ensures |r.1| <= |s|
    decreases |s|, 4
  {
    if Head(s) == NUL || s[0] == ']' then ([], s)
    else
      var (v, rest) := Fill(env, elem, s, Unset);
      var rest := SkipWs(rest);
      if Head(rest) == ',' then
        var (vs, rest) := FillElems(env, elem, SkipWs(rest[1..]));
        ([v] + vs, rest)
      else ([v], rest)
  }

  function FillObject(env: Env, fs: seq<Field>, s: string): (r: (seq<Value>, string))
    ensures |r.0| == |fs| && |r.1| <= |s|
    decreases |s|, 2
  {
    var s := SkipWs(s);
    if Head(s) == '{' then FillFields(env, fs, SkipWs(s[1..]), Blank(|fs|)) else (Blank(|fs|), s)
  }

  /** The object loop: `vs` are the slots filled so far. */
  function FillFields(env: Env, fs: seq<Field>, s: string, vs: seq<Value>): (r: (seq<Value>, string))
    requires |vs| == |fs|
    ensures |r.0| == |fs| && |r.1| <= |s|
    decreases |s|, 1
  {
    if Head(s) == NUL || s[0] == '}' then (vs, s)
    else
      var s := SkipWs(s);
      if Head(s) == '}' then (vs, s)
      else match ReadString(s)
        case None => (vs, s)
        case Some(p) =>
          var rest := SkipWs(p.1);
          if Head(rest) != ':' then (vs, rest)
          else
            var (vs', rest) := FillField(env, fs, UpToNul(p.0), rest[1..], vs);
            var rest := SkipWs(rest);
            if Head(rest) == ',' then FillFields(env, fs, rest[1..], vs')
            else (vs', Accept(rest, '}'))
  }

  /** The value behind a name goes into that field; behind an unknown name nothing is read. */
  function FillField(env: Env, fs: seq<Field>, name: string, s: string, vs: seq<Value>): (r: (seq<Value>, string))
    requires |vs| == |fs|
    ensures |r.0| == |fs| && |r.1| <= |s|
    decreases |s|, 4
  {
    match FieldIndex(fs, name)
    case None => (vs, s)
    case Some(i) => var (v, rest) := Fill(env, fs[i].typ, s, vs[i]); (vs[i := v], rest)
  }

  function FillEnum(env: Env, ws: seq<Variant>, s: string, was: Value): (r: (Value, string))
    ensures |r.1| <= |s|
    decreases |s|, 2
  {
    var s := SkipWs(s);
    if Head(s) != '{' then (was, s)
    else
      var s := SkipWs(s[1..]);
      match ReadString(s)
      case None => (was, s)
      case Some(p) =>
        var rest := SkipWs(Accept(SkipWs(p.1), ':'));
        match ByName(ws, UpToNul(p.0))
        case None => (was, Accept(SkipWs(rest), '}'))
        case Some(w) =>
          var (vs, rest) := FillPayload(env, w.payload, rest);
          (VEnum(w.tag, vs), Accept(SkipWs(rest), '}'))
  }

  function FillPayload(env: Env, ts: seq<Type>, s: string): (r: (seq<Value>, string))
    ensures |r.0| == |ts| && |r.1| <= |s|
    decreases |s|, 6
  {
    if |ts| == 0 then ([], if "null" <= s then s[4..] else s)
    else if |ts| == 1 then
      var (v, rest) := Fill(env, ts[0], s, Unset);
      ([v], rest)
    else
      var s := SkipWs(s);
      if Head(s) == '[' then
        var (vs, rest) := FillTuple(env, ts, SkipWs(s[1..]));
        (vs, Accept(rest, ']'))
      else (Blank(|ts|), s)
  }

  /** The payload loop: slots past a missing comma stay unset. */
  function FillTuple(env: Env, ts: seq<Type>, s: string): (r: (seq<Value>, string))
    ensures |r.0| == |ts| && |r.1| <= |s|
    decreases |s|, 5, |ts|
  {
    if ts == [] then ([], s)
    else
      var (v, rest) := Fill(env, ts[0], s, Unset);
      var rest := SkipWs(rest);
      if Head(rest) == ',' then
        var (vs, rest) := FillTuple(env, ts[1..], SkipWs(rest[1..]));
        ([v] + vs, rest)
      else ([v] + Blank(|ts| - 1), rest)
  }
}
