/** Reading an object that was printed from another layout: which fields arrive. */
module JsonForeign {
  import opened JsonText
  import opened Json
  import opened JsonRoundTrip

  /** How many names of `gs` stand before the first one that `fs` does not declare. */
  function Declared(fs: seq<Field>, gs: seq<Field>): (n: nat)
    ensures n <= |gs| && (forall i :: 0 <= i < n ==> FieldIndex(fs, gs[i].name).Some?)
    ensures n < |gs| ==> FieldIndex(fs, gs[n].name).None?
  {
    if gs == [] || FieldIndex(fs, gs[0].name).None? then 0 else
      var m := Declared(fs, gs[1..]);
      assert forall i :: 0 < i < m + 1 ==> gs[i] == gs[1..][i - 1];
      m + 1
  }

  /** A name the two layouts share has one type. */
  predicate Agree(fs: seq<Field>, gs: seq<Field>) {
    forall i, j :: 0 <= i < |gs| && 0 <= j < |fs| && gs[i].name == fs[j].name ==> gs[i].typ == fs[j].typ
  }

  /** Slot `j` holds the value printed for its name among the first `n` fields, or nothing. */
  predicate Arrived(fs: seq<Field>, gs: seq<Field>, vs: seq<Value>, n: nat, j: nat, slot: Value)
    requires |gs| == |vs| && n <= |gs| && j < |fs|
  {
    && (forall i :: 0 <= i < n && gs[i].name == fs[j].name ==> slot == Truncate(vs[i]))
    && ((forall i :: 0 <= i < n ==> gs[i].name != fs[j].name) ==> slot == Unset)
  }

  predicate AllArrived(fs: seq<Field>, gs: seq<Field>, vs: seq<Value>, n: nat, acc: seq<Value>)
    requires |gs| == |vs| && n <= |gs|
  {
    |acc| == |fs| && forall j {:trigger acc[j]} :: 0 <= j < |fs| ==> Arrived(fs, gs, vs, n, j, acc[j])
  }

  /** The slot of a field that has just been read. */
  lemma OneMore(fs: seq<Field>, gs: seq<Field>, vs: seq<Value>, i: nat, j: nat, acc: seq<Value>)
    requires FieldsOk(fs) && FieldsOk(gs) && |gs| == |vs| && i < |gs| && j < |fs| && gs[i].name == fs[j].name
    requires AllArrived(fs, gs, vs, i, acc)
    ensures AllArrived(fs, gs, vs, i + 1, acc[j := Truncate(vs[i])])
  {
    hide Truncate;
    var acc' := acc[j := Truncate(vs[i])];
    forall l | 0 <= l < |fs| ensures Arrived(fs, gs, vs, i + 1, l, acc'[l]) {
      assert Arrived(fs, gs, vs, i, l, acc[l]);
    }
  }

  /** A field both layouts know is read into its slot. */
  lemma SharedField(env: Env, fs: seq<Field>, gs: seq<Field>, i: nat, v: Value, next: string, acc: seq<Value>) returns (j: nat)
    requires EnvOk(env) && FieldsOk(fs) && Agree(fs, gs) && i < |gs| && FieldIndex(fs, gs[i].name).Some?
    requires |acc| == |fs| && Delimited(next) && Typed(env, gs[i].typ, v) && Readable(env, gs[i].typ, v)
    ensures j < |fs| && gs[i].name == fs[j].name
    ensures FillField(env, fs, gs[i].name, " " + Print(env, gs[i].typ, v, next), acc) == (acc[j := Truncate(v)], next)
  {
    j := FieldIndex(fs, gs[i].name).value;
    assert fs[j].typ == gs[i].typ;
    hide Fill, FillField, Print, Typed, Readable, EnvOk, Truncate, FieldIndex;
    FillPrintedField(env, fs, j, v, next, acc);
  }

  /** The object loop in front of field `i` of the foreign layout. */
  lemma {:induction false} ForeignFields(env: Env, fs: seq<Field>, gs: seq<Field>, vs: seq<Value>, k: string, i: nat,
                                         acc: seq<Value>, s: string)
    requires EnvOk(env) && FieldsOk(fs) && FieldsOk(gs) && Agree(fs, gs) && AllTyped(env, Types(gs), vs)
    requires forall j :: 0 <= j < Declared(fs, gs) ==> Readable(env, gs[j].typ, vs[j])
    requires i <= Declared(fs, gs) && i < |gs| && AllArrived(fs, gs, vs, i, acc)
    requires Head(s) != NUL && Head(s) != '}' && SkipWs(s) == PrintFields(env, gs[i..], vs[i..], ['}'] + k)
    ensures AllArrived(fs, gs, vs, Declared(fs, gs), FillFields(env, fs, s, acc).0)
    ensures FillFields(env, fs, s, acc).1 == Leftover(env, fs, gs, vs, k)
    decreases |gs| - i
  {
    hide Fill, FillFields, FillField, Print, PrintFields, Typed, Readable, EnvOk, Truncate, Quoted, ReadString, SkipWs,
      AllArrived, Declared, FieldIndex, FieldsOk;
    var k' := ['}'] + k;
    var next := AfterField(env, gs, vs, k', i);
    var text := Print(env, gs[i].typ, vs[i], next);
    PrintFieldsAt(env, gs, vs, k', i);
    QuotedRead(gs[i].name, ": " + text);
    assert NulFree(gs[i].name) by { FieldNameOk(gs, i); }
    AccSize(fs, gs, vs, i, acc);
    if i == Declared(fs, gs) {
      UnknownField(env, fs, gs[i].name, text, acc);
      PrintSolid(env, gs[i].typ, vs[i], next);
      FieldTurn(env, fs, s, acc, gs[i].name, text, acc, " " + text);
      OneSpace(text);
    } else {
      var j := SharedField(env, fs, gs, i, vs[i], next, acc);
      var acc' := acc[j := Truncate(vs[i])];
      FieldTurn(env, fs, s, acc, gs[i].name, text, acc', next);
      NoSpace(next);
      OneMore(fs, gs, vs, i, j, acc);
      if i == |gs| - 1 {
        assert k'[1..] == k;
      } else {
        NextField(env, gs, vs, k', i);
        ForeignFields(env, fs, gs, vs, k, i + 1, acc', next[1..]);
      }
    }
  }

  lemma FieldNameOk(gs: seq<Field>, i: nat)
    requires FieldsOk(gs) && i < |gs|
    ensures NulFree(gs[i].name)
  {
  }

  lemma AccSize(fs: seq<Field>, gs: seq<Field>, vs: seq<Value>, n: nat, acc: seq<Value>)
    requires |gs| == |vs| && n <= |gs| && AllArrived(fs, gs, vs, n, acc)
    ensures |acc| == |fs|
  {
  }

  lemma UnknownField(env: Env, fs: seq<Field>, name: string, text: string, acc: seq<Value>)
    requires |acc| == |fs| && FieldIndex(fs, name).None?
    ensures FillField(env, fs, name, " " + text, acc) == (acc, " " + text)
  {
  }

  /** What the reader leaves: the value behind the first undeclared name and everything after it. */
  function Leftover(env: Env, fs: seq<Field>, gs: seq<Field>, vs: seq<Value>, k: string): string
    requires AllTyped(env, Types(gs), vs)
  {
    var n := Declared(fs, gs);
    if n < |gs| then Print(env, gs[n].typ, vs[n], AfterField(env, gs, vs, ['}'] + k, n))
    else if |gs| == 0 then ['}'] + k
    else k
  }

  /**
   An object printed from layout `gs` and read at layout `fs`: field `j` of `fs` gets the value
   printed for its name if and only if `gs` has that name and no undeclared name stands before
   it, and stays unset otherwise. The whole object is consumed if and only if every name of
   `gs` is declared and there is at least one.
   */
  lemma ForeignObject(env: Env, fs: seq<Field>, gs: seq<Field>, vs: seq<Value>, k: string, j: nat)
    requires EnvOk(env) && FieldsOk(fs) && FieldsOk(gs) && Agree(fs, gs) && AllTyped(env, Types(gs), vs)
    requires forall i :: 0 <= i < Declared(fs, gs) ==> Readable(env, gs[i].typ, vs[i])
    requires j < |fs|
    ensures var (slots, rest) := FillObject(env, fs, ['{'] + PrintFields(env, gs, vs, ['}'] + k));
      && (forall i :: 0 <= i < |gs| && gs[i].name == fs[j].name ==>
            slots[j] == if i < Declared(fs, gs) then Truncate(vs[i]) else Unset)
      && (slots[j] != Unset <==> exists i :: 0 <= i < Declared(fs, gs) && gs[i].name == fs[j].name)
      && rest == Leftover(env, fs, gs, vs, k)
  {
    hide Fill, FillFields, FillObject, Print, PrintFields, Typed, Readable, EnvOk, Truncate, Declared, Agree, Leftover;
    var n := Declared(fs, gs);
    var slots := FillObject(env, fs, ['{'] + PrintFields(env, gs, vs, ['}'] + k)).0;
    ForeignArrives(env, fs, gs, vs, k);
    assert Arrived(fs, gs, vs, n, j, slots[j]);
    forall i | 0 <= i < n && gs[i].name == fs[j].name ensures slots[j] != Unset {
      TruncateIsSet(env, gs[i].typ, vs[i]);
    }
  }

  lemma ForeignArrives(env: Env, fs: seq<Field>, gs: seq<Field>, vs: seq<Value>, k: string)
    requires EnvOk(env) && FieldsOk(fs) && FieldsOk(gs) && Agree(fs, gs) && AllTyped(env, Types(gs), vs)
    requires forall i :: 0 <= i < Declared(fs, gs) ==> Readable(env, gs[i].typ, vs[i])
    ensures var (slots, rest) := FillObject(env, fs, ['{'] + PrintFields(env, gs, vs, ['}'] + k));
      AllArrived(fs, gs, vs, Declared(fs, gs), slots) && rest == Leftover(env, fs, gs, vs, k)
  {
    hide Fill, FillObject, Print, PrintFields, Typed, Readable, EnvOk, Truncate;
    var body := PrintFields(env, gs, vs, ['}'] + k);
    assert gs[0..] == gs && vs[0..] == vs;
    assert AllArrived(fs, gs, vs, 0, Blank(|fs|));
    ObjectStarts(env, fs, gs, vs, k);
    if gs != [] {
      hide FillFields;
      ForeignFields(env, fs, gs, vs, k, 0, Blank(|fs|), body);
    }
  }

  /** The reader steps over the brace into the loop. */
  lemma ObjectStarts(env: Env, fs: seq<Field>, gs: seq<Field>, vs: seq<Value>, k: string)
    requires AllTyped(env, Types(gs), vs)
    ensures var body := PrintFields(env, gs, vs, ['}'] + k);
      && FillObject(env, fs, ['{'] + body) == FillFields(env, fs, body, Blank(|fs|))
      && SkipWs(body) == body && Head(body) != NUL && (Head(body) == '}' <==> gs == [])
      && (gs == [] ==> body == ['}'] + k)
  {
    hide FillFields, Print, Typed;
    var body := PrintFields(env, gs, vs, ['}'] + k);
    assert (['{'] + body)[1..] == body;
  }

  lemma TruncateIsSet(env: Env, t: Type, v: Value)
    requires Typed(env, t, v)
    ensures Truncate(v) != Unset
  {
  }
}
