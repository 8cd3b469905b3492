/** A document there and back: the buffer's text handed to the cursor. */
module JsonDocument {
  import opened JsonText
  import opened Json
  import opened JsonRoundTrip
  import opened JsonExact
  import opened JsonBuffer
  import opened JsonReader

  /** Print a value and read the text back: nothing is lost from a value that has no NUL in a string,
   no struct without fields and no undeclared tag. */
  method ThereAndBack(env: Env, t: Type, v: Value) returns (text: string, back: Value)
    requires EnvOk(env) && Typed(env, t, v)
    ensures text == Text(env, t, v)
    ensures Readable(env, t, v) && NulFreeValue(v) ==> back == v
  {
    hide Fill, Print, Readable, NulFreeValue, Typed, EnvOk;
    var b := new JsonBuf();
    b.PushValue(env, t, v);
    text := b.data[..b.len];
    assert text == [] + Print(env, t, v, []) == Print(env, t, v, []);
    var c := new Cursor(text);
    back := c.FillValue(env, t, Unset);
    RoundTrip(env, t, v, [], Unset);
    assert text + [] == text;
  }
}
