/** Printing in front of a text is printing, then that text. */
module JsonAppend {
  import opened JsonText
  import opened Json

  lemma {:induction false} EscapedAppend(s: string, k: string)
    ensures Escaped(s, k) == Escaped(s, []) + k
  {
    if s != [] { EscapedAppend(s[1..], k); }
  }

  lemma QuotedAppend(s: string, k: string)
    ensures Quoted(s, k) == Quoted(s, []) + k
  {
    EscapedAppend(s, ['"'] + k);
    EscapedAppend(s, ['"']);
    assert ['"'] + [] == ['"'];
  }

  lemma {:induction false} DecimalAppend(n: nat, k: string)
    ensures Decimal(n, k) == Decimal(n, []) + k
    decreases n
  {
    if n >= 10 {
      DecimalAppend(n / 10, [Digit(n % 10)] + k);
      DecimalAppend(n / 10, [Digit(n % 10)]);
      assert [Digit(n % 10)] + [] == [Digit(n % 10)];
    }
  }

  lemma SignedAppend(n: int, k: string)
    ensures Signed(n, k) == Signed(n, []) + k
  {
    DecimalAppend(if n < 0 then -n else n, k);
  }

  lemma {:induction false} PrintAppend(env: Env, t: Type, v: Value, k: string)
    requires Typed(env, t, v)
    ensures Print(env, t, v, k) == Print(env, t, v, []) + k
    decreases v, 1
  {
    match t
    case TInt => SignedAppend(v.n, k);
    case TBool =>
    case TString => QuotedAppend(v.s, k);
    case TVec(elem) =>
      PrintElemsAppend(env, elem, v.elems, [']'] + k);
      PrintElemsAppend(env, elem, v.elems, [']'] + []);
    case TNamed(name) =>
      match Resolve(env, name) {
        case Struct(fs) =>
          PrintFieldsAppend(env, fs, v.fields, ['}'] + k);
          PrintFieldsAppend(env, fs, v.fields, ['}'] + []);
        case Enum(ws) =>
          match ByTag(ws, v.tag) {
            case None =>
            case Some(w) =>
              PrintPayloadAppend(env, w.payload, v.payload, ['}'] + k);
              PrintPayloadAppend(env, w.payload, v.payload, ['}'] + []);
          }
        case Unregistered =>
      }
  }

  lemma {:induction false} PrintElemsAppend(env: Env, elem: Type, vs: seq<Value>, k: string)
    requires forall i :: 0 <= i < |vs| ==> Typed(env, elem, vs[i])
    ensures PrintElems(env, elem, vs, k) == PrintElems(env, elem, vs, []) + k
    decreases vs, 0
  {
    hide Print, Typed;
    if |vs| == 1 {
      PrintAppend(env, elem, vs[0], k);
    } else if vs != [] {
      PrintElemsAppend(env, elem, vs[1..], k);
      PrintAppend(env, elem, vs[0], ", " + PrintElems(env, elem, vs[1..], k));
      PrintAppend(env, elem, vs[0], ", " + PrintElems(env, elem, vs[1..], []));
    }
  }

  lemma FieldRegrouped(name: string, text: string, last: string, k: string)
    ensures Quoted(name, ": " + (text + (last + k))) == Quoted(name, ": " + (text + last)) + k
  {
    hide Quoted;
    QuotedAppend(name, ": " + (text + (last + k)));
    QuotedAppend(name, ": " + (text + last));
    var q := Quoted(name, []);
    assert q + (": " + (text + (last + k))) == q + (": " + (text + last)) + k;
  }

  lemma {:induction false} PrintFieldsAppend(env: Env, fs: seq<Field>, vs: seq<Value>, k: string)
    requires |fs| == |vs| && (forall i :: 0 <= i < |fs| ==> Typed(env, fs[i].typ, vs[i]))
    ensures PrintFields(env, fs, vs, k) == PrintFields(env, fs, vs, []) + k
    decreases vs, 0
  {
    hide Print, Typed, Quoted;
    if vs != [] {
      var next := if |vs| == 1 then k else ", " + PrintFields(env, fs[1..], vs[1..], k);
      var last := if |vs| == 1 then [] else ", " + PrintFields(env, fs[1..], vs[1..], []);
      if |vs| > 1 { PrintFieldsAppend(env, fs[1..], vs[1..], k); }
      assert next == last + k;
      PrintAppend(env, fs[0].typ, vs[0], next);
      PrintAppend(env, fs[0].typ, vs[0], last);
      FieldRegrouped(fs[0].name, Print(env, fs[0].typ, vs[0], []), last, k);
    }
  }

  lemma {:induction false} PrintPayloadAppend(env: Env, ts: seq<Type>, vs: seq<Value>, k: string)
    requires AllTyped(env, ts, vs)
    ensures PrintPayload(env, ts, vs, k) == PrintPayload(env, ts, vs, []) + k
    decreases vs, 1
  {
    hide Print, Typed, PrintTuple;
    if |vs| == 1 {
      PrintAppend(env, ts[0], vs[0], k);
    } else if vs != [] {
      PrintTupleAppend(env, ts, vs, [']'] + k);
      PrintTupleAppend(env, ts, vs, [']'] + []);
    }
  }

  lemma {:induction false} PrintTupleAppend(env: Env, ts: seq<Type>, vs: seq<Value>, k: string)
    requires AllTyped(env, ts, vs)
    ensures PrintTuple(env, ts, vs, k) == PrintTuple(env, ts, vs, []) + k
    decreases vs, 0
  {
    hide Print, Typed;
    if |vs| == 1 {
      PrintAppend(env, ts[0], vs[0], k);
    } else if vs != [] {
      PrintTupleAppend(env, ts[1..], vs[1..], k);
      PrintAppend(env, ts[0], vs[0], ", " + PrintTuple(env, ts[1..], vs[1..], k));
      PrintAppend(env, ts[0], vs[0], ", " + PrintTuple(env, ts[1..], vs[1..], []));
    }
  }
}
