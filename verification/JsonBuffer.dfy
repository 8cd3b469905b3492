/** The printer as it is written: recursive methods that append to a growable buffer. */
module JsonBuffer {
  import opened JsonText
  import opened Json
  import opened JsonAppend

  class JsonBuf {
    var data: array<char>
    var len: nat

    ghost predicate Valid()
      reads this, data
    {
      if data.Length == 0 then len == 0 else len < data.Length && data[len] == NUL
    }

    ghost function Contents(): string
      requires Valid()
      reads this, data
    {
      data[..len]
    }

    constructor ()
      ensures Valid() && fresh(data) && Contents() == []
    {
      data, len := new char[0], 0;
    }

    /** Make room for `extra` characters and the terminator, doubling the capacity as often as needed. */
    method Reserve(extra: nat)
      requires Valid()
      modifies this`data
      ensures len + extra + 1 <= data.Length
      ensures data[..len] == old(data[..len])
      ensures data == old(data) || fresh(data)
      ensures data == old(data) || data.Length >= 2 * old(data.Length)
    {
      if len + extra + 1 > data.Length {
        var nc := if data.Length != 0 then data.Length * 2 else 256;
        while nc < len + extra + 1
          invariant nc >= 2 * data.Length && nc >= 1
          decreases len + extra + 1 - nc
        {
          nc := nc * 2;
        }
        var nd := new char[nc];
        forall i | 0 <= i < len { nd[i] := data[i]; }
        assert nd[..len] == data[..len];
        data := nd;
      }
    }

    /** Append `s` and the terminator. */
    method Push(s: string)
      requires Valid()
      modifies this, data
      ensures Valid() && Contents() == old(Contents()) + s
      ensures data == old(data) || fresh(data)
    {
      Reserve(|s|);
      forall i | 0 <= i < |s| { data[len + i] := s[i]; }
      len := len + |s|;
      data[len] := NUL;
    }

    /** Append one character of a string literal. */
    method PushEscaped(c: char)
      requires Valid()
      modifies this, data
      ensures Valid() && Contents() == old(Contents()) + Escape(c)
      ensures data == old(data) || fresh(data)
    {
      if c == '"' { Push(['\\', '"']); }
      else if c == '\\' { Push(['\\', '\\']); }
      else if c == '\n' { Push(['\\', 'n']); }
      else if c == '\t' { Push(['\\', 't']); }
      else if c == '\r' { Push(['\\', 'r']); }
      else if c as int == 8 { Push(['\\', 'b']); }
      else if c as int == 12 { Push(['\\', 'f']); }
      else if c as int < 32 { Push(['\\', 'u', '0', '0', HexDigit(c as int / 16), HexDigit(c as int % 16)]); }
      else { Push([c]); }
    }

    /** Append a string literal. */
    method PushString(s: string)
      requires Valid()
      modifies this, data
      ensures Valid() && Contents() == old(Contents()) + Quoted(s, [])
      ensures data == old(data) || fresh(data)
    {
      hide JsonBuf.Valid, JsonBuf.Contents, Escaped, Escape, Quoted;
      ghost var goal := Contents() + Quoted(s, []);
      EscapedEnds(s, Contents());
      Push(['"']);
      var i := 0;
      while i < |s|
        invariant 0 <= i <= |s| && Valid() && (data == old(data) || fresh(data))
        invariant Contents() + Escaped(s[i..], ['"']) == goal
      {
        EscapedStep(s, i, ['"'], Contents());
        PushEscaped(s[i]);
        i := i + 1;
      }
      Push(['"']);
    }

    /** Append the value held by a slot of type `t`. */
    method PushValue(env: Env, t: Type, v: Value)
      requires Valid() && Typed(env, t, v)
      modifies this, data
      ensures Valid() && Contents() == old(Contents()) + Print(env, t, v, [])
      ensures data == old(data) || fresh(data)
      decreases v, 3
    {
      match t
      case TInt => Push(Signed(v.n, []));
      case TBool => Push(if v.b then "true" else "false");
      case TString => PushString(v.s);
      case TVec(elem) =>
        PushArray(env, elem, v.elems);
        assert [']'] + [] == [']'];
      case TNamed(name) =>
        match Resolve(env, name) {
          case Struct(fs) =>
            PushStruct(env, fs, v.fields);
            assert ['}'] + [] == ['}'];
          case Enum(ws) =>
            match ByTag(ws, v.tag) {
              case None => Push("null");
              case Some(w) =>
                PushVariant(env, w, v.payload);
                assert ['}'] + [] == ['}'];
            }
        }
    }

    method PushArray(env: Env, elem: Type, vs: seq<Value>)
      requires Valid() && (forall i :: 0 <= i < |vs| ==> Typed(env, elem, vs[i]))
      modifies this, data
      ensures Valid() && Contents() == old(Contents()) + (['['] + PrintElems(env, elem, vs, [']']))
      ensures data == old(data) || fresh(data)
      decreases vs, 1
    {
      hide JsonBuf.Valid, JsonBuf.Contents, Print, Typed, PrintElems, ElemsLeft;
      ghost var base, body := Contents(), PrintElems(env, elem, vs, []);
      ElemsLeftEnds(env, elem, vs);
      PrintElemsAppend(env, elem, vs, [']']);
      Push(['[']);
      var i := 0;
      while i < |vs|
        invariant 0 <= i <= |vs| && Valid() && (data == old(data) || fresh(data))
        invariant Contents() + ElemsLeft(env, elem, vs, i) == base + ['['] + body
      {
        ghost var before, left := Contents(), ElemsLeft(env, elem, vs, i + 1);
        ElemsLeftStep(env, elem, vs, i);
        ghost var sep, value := if i > 0 then ", " else [], Print(env, elem, vs[i], []);
        if i > 0 { Push(", "); }
        PushValue(env, elem, vs[i]);
        Regrouped(before, sep, value, left);
        i := i + 1;
      }
      Push([']']);
      Enclosed(base, ['['], body, [']']);
    }

    method PushStruct(env: Env, fs: seq<Field>, vs: seq<Value>)
      requires Valid() && |fs| == |vs| && (forall i :: 0 <= i < |fs| ==> Typed(env, fs[i].typ, vs[i]))
      modifies this, data
      ensures Valid() && Contents() == old(Contents()) + (['{'] + PrintFields(env, fs, vs, ['}']))
      ensures data == old(data) || fresh(data)
      decreases vs, 2
    {
      hide JsonBuf.Valid, JsonBuf.Contents, Print, Typed, Quoted, PrintFields, FieldsLeft;
      ghost var base, body := Contents(), PrintFields(env, fs, vs, []);
      FieldsLeftEnds(env, fs, vs);
      PrintFieldsAppend(env, fs, vs, ['}']);
      Push(['{']);
      var i := 0;
      while i < |fs|
        invariant 0 <= i <= |fs| && Valid() && (data == old(data) || fresh(data))
        invariant Contents() + FieldsLeft(env, fs, vs, i) == base + ['{'] + body
      {
        ghost var before, left := Contents(), FieldsLeft(env, fs, vs, i + 1);
        FieldsLeftStep(env, fs, vs, i);
        ghost var sep, name, value := if i > 0 then ", " else [], Quoted(fs[i].name, []), Print(env, fs[i].typ, vs[i], []);
        if i > 0 { Push(", "); }
        PushString(fs[i].name);
        Push(": ");
        PushValue(env, fs[i].typ, vs[i]);
        Regrouped(before, sep, name, ": " + (value + left));
        Regrouped(before + sep + name, ": ", value, left);
        i := i + 1;
      }
      Push(['}']);
      Enclosed(base, ['{'], body, ['}']);
    }

    method PushVariant(env: Env, w: Variant, vs: seq<Value>)
      requires Valid() && AllTyped(env, w.payload, vs)
      modifies this, data
      ensures Valid()
      ensures Contents() == old(Contents())
                            + (['{', '"'] + (w.name + (['"'] + (": " + PrintPayload(env, w.payload, vs, ['}'])))))
      ensures data == old(data) || fresh(data)
      decreases vs, 3
    {
      hide JsonBuf.Valid, JsonBuf.Contents, Print, Typed, PrintPayload;
      ghost var base, body := Contents(), PrintPayload(env, w.payload, vs, []);
      PrintPayloadAppend(env, w.payload, vs, ['}']);
      Push(['{', '"']);
      Push(w.name);
      Push("\": ");
      PushPayload(env, w.payload, vs);
      Push(['}']);
      VariantRegrouped(base, w.name, body);
    }

    method PushPayload(env: Env, ts: seq<Type>, vs: seq<Value>)
      requires Valid() && AllTyped(env, ts, vs)
      modifies this, data
      ensures Valid() && Contents() == old(Contents()) + PrintPayload(env, ts, vs, [])
      ensures data == old(data) || fresh(data)
      decreases vs, 2
    {
      hide Print, Typed, PrintTuple;
      if |ts| == 0 {
        Push("null");
      } else if |ts| == 1 {
        PushValue(env, ts[0], vs[0]);
      } else {
        PushTuple(env, ts, vs);
        assert [']'] + [] == [']'];
      }
    }

    method PushTuple(env: Env, ts: seq<Type>, vs: seq<Value>)
      requires Valid() && AllTyped(env, ts, vs)
      modifies this, data
      ensures Valid() && Contents() == old(Contents()) + (['['] + PrintTuple(env, ts, vs, [']']))
      ensures data == old(data) || fresh(data)
      decreases vs, 1
    {
      hide JsonBuf.Valid, JsonBuf.Contents, Print, Typed, PrintTuple, TupleLeft;
      ghost var base, body := Contents(), PrintTuple(env, ts, vs, []);
      TupleLeftEnds(env, ts, vs);
      PrintTupleAppend(env, ts, vs, [']']);
      Push(['[']);
      var i := 0;
      while i < |ts|
        invariant 0 <= i <= |ts| && Valid() && (data == old(data) || fresh(data))
        invariant Contents() + TupleLeft(env, ts, vs, i) == base + ['['] + body
      {
        ghost var before, left := Contents(), TupleLeft(env, ts, vs, i + 1);
        TupleLeftStep(env, ts, vs, i);
        ghost var sep, value := if i > 0 then ", " else [], Print(env, ts[i], vs[i], []);
        if i > 0 { Push(", "); }
        PushValue(env, ts[i], vs[i]);
        Regrouped(before, sep, value, left);
        i := i + 1;
      }
      Push([']']);
      Enclosed(base, ['['], body, [']']);
    }
  }

  // ---------------------------------------------- what a loop still has to print at index `i`

  ghost function ElemsLeft(env: Env, elem: Type, vs: seq<Value>, i: nat): string
    requires i <= |vs| && (forall i :: 0 <= i < |vs| ==> Typed(env, elem, vs[i]))
  {
    (if 0 < i < |vs| then ", " else []) + PrintElems(env, elem, vs[i..], [])
  }

  lemma Enclosed(base: string, open: string, body: string, close: string)
    ensures base + open + body + close == base + (open + (body + close))
  {
  }

  lemma Regrouped(a: string, b: string, c: string, d: string)
    ensures a + (b + (c + d)) == a + b + c + d
  {
  }

  lemma VariantRegrouped(base: string, name: string, body: string)
    ensures base + ['{', '"'] + name + "\": " + body + ['}']
         == base + (['{', '"'] + (name + (['"'] + (": " + (body + ['}'])))))
  {
    assert "\": " == ['"'] + ": ";
  }

  lemma EscapedStep(s: string, i: nat, k: string, before: string)
    requires i < |s|
    ensures before + Escaped(s[i..], k) == before + Escape(s[i]) + Escaped(s[i + 1..], k)
  {
    assert s[i..][1..] == s[i + 1..];
  }

  lemma EscapedEnds(s: string, before: string)
    ensures before + ['"'] + Escaped(s[0..], ['"']) == before + Quoted(s, [])
    ensures Escaped(s[|s|..], ['"']) == ['"']
  {
    assert s[0..] == s && ['"'] + [] == ['"'];
  }

  lemma ElemsLeftEnds(env: Env, elem: Type, vs: seq<Value>)
    requires forall i :: 0 <= i < |vs| ==> Typed(env, elem, vs[i])
    ensures ElemsLeft(env, elem, vs, 0) == PrintElems(env, elem, vs, []) && ElemsLeft(env, elem, vs, |vs|) == []
  {
    assert vs[0..] == vs;
  }

  lemma ElemsLeftStep(env: Env, elem: Type, vs: seq<Value>, i: nat)
    requires i < |vs| && (forall i :: 0 <= i < |vs| ==> Typed(env, elem, vs[i]))
    ensures ElemsLeft(env, elem, vs, i)
         == (if i > 0 then ", " else []) + (Print(env, elem, vs[i], []) + ElemsLeft(env, elem, vs, i + 1))
  {
    hide Print, Typed;
    assert vs[i..][1..] == vs[i + 1..];
    PrintAppend(env, elem, vs[i], ElemsLeft(env, elem, vs, i + 1));
  }

  ghost function FieldsLeft(env: Env, fs: seq<Field>, vs: seq<Value>, i: nat): string
    requires i <= |fs| == |vs| && (forall i :: 0 <= i < |fs| ==> Typed(env, fs[i].typ, vs[i]))
  {
    (if 0 < i < |vs| then ", " else []) + PrintFields(env, fs[i..], vs[i..], [])
  }

  lemma FieldsLeftEnds(env: Env, fs: seq<Field>, vs: seq<Value>)
    requires |fs| == |vs| && (forall i :: 0 <= i < |fs| ==> Typed(env, fs[i].typ, vs[i]))
    ensures FieldsLeft(env, fs, vs, 0) == PrintFields(env, fs, vs, []) && FieldsLeft(env, fs, vs, |fs|) == []
  {
    assert vs[0..] == vs && fs[0..] == fs;
  }

  lemma FieldsLeftStep(env: Env, fs: seq<Field>, vs: seq<Value>, i: nat)
    requires i < |fs| == |vs| && (forall i :: 0 <= i < |fs| ==> Typed(env, fs[i].typ, vs[i]))
    ensures FieldsLeft(env, fs, vs, i)
         == (if i > 0 then ", " else [])
            + (Quoted(fs[i].name, []) + (": " + (Print(env, fs[i].typ, vs[i], []) + FieldsLeft(env, fs, vs, i + 1))))
  {
    hide Print, Typed, Quoted;
    assert vs[i..][1..] == vs[i + 1..] && fs[i..][1..] == fs[i + 1..];
    var left := FieldsLeft(env, fs, vs, i + 1);
    PrintAppend(env, fs[i].typ, vs[i], left);
    QuotedAppend(fs[i].name, ": " + Print(env, fs[i].typ, vs[i], left));
  }

  ghost function TupleLeft(env: Env, ts: seq<Type>, vs: seq<Value>, i: nat): string
    requires i <= |ts| && AllTyped(env, ts, vs)
  {
    (if 0 < i < |vs| then ", " else []) + PrintTuple(env, ts[i..], vs[i..], [])
  }

  lemma TupleLeftEnds(env: Env, ts: seq<Type>, vs: seq<Value>)
    requires AllTyped(env, ts, vs)
    ensures TupleLeft(env, ts, vs, 0) == PrintTuple(env, ts, vs, []) && TupleLeft(env, ts, vs, |ts|) == []
  {
    assert vs[0..] == vs && ts[0..] == ts;
  }

  lemma TupleLeftStep(env: Env, ts: seq<Type>, vs: seq<Value>, i: nat)
    requires i < |ts| && AllTyped(env, ts, vs)
    ensures TupleLeft(env, ts, vs, i)
         == (if i > 0 then ", " else []) + (Print(env, ts[i], vs[i], []) + TupleLeft(env, ts, vs, i + 1))
  {
    hide Print, Typed;
    assert vs[i..][1..] == vs[i + 1..] && ts[i..][1..] == ts[i + 1..];
    PrintAppend(env, ts[i], vs[i], TupleLeft(env, ts, vs, i + 1));
  }
}
