/** The strict UTF-8 decoder and its callers, against RFC 3629. */
module Utf8 {
  import opened Seqs

  type Byte = x: int | 0 <= x < 256

  // ------------------------------------------------------------------------ RFC 3629

  /** A Unicode scalar value. */
  predicate Scalar(cp: int) { 0 <= cp <= 0x10FFFF && !(0xD800 <= cp <= 0xDFFF) }

  /** Section 3 of RFC 3629: the bytes of a scalar value. */
  function Encode(cp: int): (b: seq<Byte>)
    requires Scalar(cp)
    ensures 1 <= |b| <= 4
  {
    if cp < 0x80 then [cp]
    else if cp < 0x800 then [0xC0 + cp / 64, 0x80 + cp % 64]
    else if cp < 0x10000 then [0xE0 + cp / 4096, 0x80 + cp / 64 % 64, 0x80 + cp % 64]
    else [0xF0 + cp / 262144, 0x80 + cp / 4096 % 64, 0x80 + cp / 64 % 64, 0x80 + cp % 64]
  }

  predicate Tail(b: Byte) { 0x80 <= b <= 0xBF }

  /** Section 4 of RFC 3629: the syntax of one character. */
  predicate Utf8Char(b: seq<Byte>) {
    match |b|
    case 1 => b[0] <= 0x7F
    case 2 => 0xC2 <= b[0] <= 0xDF && Tail(b[1])
    case 3 =>
      && Tail(b[2])
      && ((b[0] == 0xE0 && 0xA0 <= b[1] <= 0xBF) || (0xE1 <= b[0] <= 0xEC && Tail(b[1]))
          || (b[0] == 0xED && 0x80 <= b[1] <= 0x9F) || (0xEE <= b[0] <= 0xEF && Tail(b[1])))
    case 4 =>
      && Tail(b[2]) && Tail(b[3])
      && ((b[0] == 0xF0 && 0x90 <= b[1] <= 0xBF) || (0xF1 <= b[0] <= 0xF3 && Tail(b[1]))
          || (b[0] == 0xF4 && 0x80 <= b[1] <= 0x8F))
    case _ => false
  }

  // --------------------------------------------------------------------- the decoder

  /** The lead byte: payload bits and how many continuation bytes follow. */
  function Lead(c: Byte): Option<(nat, nat)> {
    if c < 0x80 then Some((c, 0))
    else if c / 32 == 6 then Some((c % 32, 1))
    else if c / 16 == 14 then Some((c % 16, 2))
    else if c / 8 == 30 then Some((c % 8, 3))
    else None
  }

  /** The continuation bytes `i` to `need` behind `off`, collected onto `cp`. */
  function Collect(s: seq<Byte>, off: nat, i: nat, need: nat, cp: nat): Option<nat>
    requires 1 <= i <= need + 1 && off + need < |s|
    decreases need + 1 - i
  {
    if i > need then Some(cp)
    else if s[off + i] / 64 != 2 then None
    else Collect(s, off, i + 1, need, cp * 64 + s[off + i] % 64)
  }

  /** Overlong forms, surrogates and values past the last plane are refused. */
  predicate Acceptable(need: nat, cp: int) {
    && (need == 1 ==> cp >= 0x80) && (need == 2 ==> cp >= 0x800) && (need == 3 ==> cp >= 0x10000)
    && cp <= 0x10FFFF && !(0xD800 <= cp <= 0xDFFF)
  }

  /** The code point at `off` and the offset behind it. */
  function Decode(s: seq<Byte>, off: int): (r: Option<(nat, nat)>)
    ensures r.Some? ==> 0 <= off < r.value.1 <= |s|
  {
    if off < 0 || off >= |s| then None
    else match Lead(s[off])
      case None => None
      case Some((bits, need)) =>
        if need == 0 then Some((bits, off + 1))
        else if off + need >= |s| then None
        else match Collect(s, off, 1, need, bits)
          case None => None
          case Some(cp) => if Acceptable(need, cp) then Some((cp, off + need + 1)) else None
  }

  // ----------------------------------------------------------------- one character

  /** The value a character's bytes spell. */
  function Code(b: seq<Byte>): int
    requires 1 <= |b| <= 4
  {
    match |b|
    case 1 => (b[0] as int)
    case 2 => ((b[0] as int) - 0xC0) * 64 + ((b[1] as int) - 0x80)
    case 3 => ((b[0] as int) - 0xE0) * 4096 + ((b[1] as int) - 0x80) * 64 + ((b[2] as int) - 0x80)
    case _ => ((b[0] as int) - 0xF0) * 262144 + ((b[1] as int) - 0x80) * 4096 + ((b[2] as int) - 0x80) * 64 + ((b[3] as int) - 0x80)
  }

  /** The syntax of section 4 is exactly the image of section 3's encoding. */
  lemma CharIsEncoding(b: seq<Byte>)
    requires Utf8Char(b)
    ensures Scalar(Code(b)) && Encode(Code(b)) == b
  {
    if |b| == 2 {
      Sextets(0, 0, b[0] as int - 0xC0, b[1] as int - 0x80);
    } else if |b| == 3 {
      ThreeBytes(b);
    } else if |b| == 4 {
      FourBytes(b);
    }
  }

  lemma ThreeBytes(b: seq<Byte>)
    requires Utf8Char(b) && |b| == 3
    ensures Scalar(Code(b)) && Encode(Code(b)) == b
  {
    Sextets(0, b[0] as int - 0xE0, b[1] as int - 0x80, b[2] as int - 0x80);
  }

  lemma FourBytes(b: seq<Byte>)
    requires Utf8Char(b) && |b| == 4
    ensures Scalar(Code(b)) && Encode(Code(b)) == b
  {
    Sextets(b[0] as int - 0xF0, b[1] as int - 0x80, b[2] as int - 0x80, b[3] as int - 0x80);
  }

  /** Taking a number apart into six-bit groups. */
  lemma Sextets(a: int, b: int, c: int, d: int)
    requires 0 <= a < 64 && 0 <= b < 64 && 0 <= c < 64 && 0 <= d < 64
    ensures var cp := a * 262144 + b * 4096 + c * 64 + d;
      cp / 262144 == a && cp / 4096 % 64 == b && cp / 64 % 64 == c && cp % 64 == d && cp / 4096 == a * 64 + b
      && cp / 64 == a * 4096 + b * 64 + c
  {
    var cp := a * 262144 + b * 4096 + c * 64 + d;
    Quotient(cp, 64, a * 4096 + b * 64 + c, d);
    Quotient(cp, 4096, a * 64 + b, c * 64 + d);
    Quotient(cp, 262144, a, b * 4096 + c * 64 + d);
    Quotient(a * 4096 + b * 64 + c, 64, a * 64 + b, c);
    Quotient(a * 64 + b, 64, a, b);
  }

  lemma Quotient(x: int, m: int, q: int, r: int)
    requires m in {64, 4096, 262144} && 0 <= r < m && x == q * m + r
    ensures x / m == q && x % m == r
  {
  }

  lemma EncodingIsChar(cp: int)
    requires Scalar(cp)
    ensures Utf8Char(Encode(cp)) && Code(Encode(cp)) == cp
  {
    assert cp / 64 / 64 == cp / 4096 && cp / 4096 / 64 == cp / 262144;
  }

  /** The lead byte of a character tells its length. */
  lemma LeadTellsLength(b: seq<Byte>)
    requires Utf8Char(b)
    ensures Lead(b[0]).Some? && Lead(b[0]).value.1 == |b| - 1
  {
  }

  /** A position decodes exactly when a character of section 4 starts there, to the value it encodes. */
  lemma DecodeIsExact(s: seq<Byte>, off: nat, n: nat)
    requires off + n <= |s|
    ensures (Decode(s, off).Some? && Decode(s, off).value.1 == off + n) <==> Utf8Char(s[off..off + n])
    ensures Utf8Char(s[off..off + n]) ==> Decode(s, off) == Some((Code(s[off..off + n]), off + n))
  {
    if off < |s| && Lead(s[off]).Some? {
      var need := Lead(s[off]).value.1;
      if off + need < |s| { DecodeFrom(s, off); }
    }
    if Utf8Char(s[off..off + n]) {
      LeadTellsLength(s[off..off + n]);
      CharIsEncoding(s[off..off + n]);
    }
  }

  lemma DecodeFrom(s: seq<Byte>, off: nat)
    requires off < |s| && Lead(s[off]).Some? && off + Lead(s[off]).value.1 < |s|
    ensures var b := s[off..off + Lead(s[off]).value.1 + 1];
      Decode(s, off) == if Utf8Char(b) then Some((Code(b), off + |b|)) else None
  {
    var (bits, need) := Lead(s[off]).value;
    if need == 1 {
      DecodeTwo(s, off);
    } else if need == 2 {
      DecodeThree(s, off);
    } else if need == 3 {
      DecodeFour(s, off);
    }
  }

  lemma DecodeTwo(s: seq<Byte>, off: nat)
    requires off + 1 < |s| && s[off] / 32 == 6
    ensures var b := s[off..off + 2]; Decode(s, off) == if Utf8Char(b) then Some((Code(b), off + 2)) else None
  {
    assert Collect(s, off, 1, 1, s[off] % 32)
        == if s[off + 1] / 64 != 2 then None else Collect(s, off, 2, 1, (s[off] as int) % 32 * 64 + (s[off + 1] as int) % 64);
  }

  lemma DecodeThree(s: seq<Byte>, off: nat)
    requires off + 2 < |s| && s[off] / 16 == 14
    ensures var b := s[off..off + 3]; Decode(s, off) == if Utf8Char(b) then Some((Code(b), off + 3)) else None
  {
    var c0: int, c1: int, c2: int := s[off], s[off + 1], s[off + 2];
    assert Collect(s, off, 1, 2, c0 % 16) == if c1 / 64 != 2 then None else Collect(s, off, 2, 2, c0 % 16 * 64 + c1 % 64);
    assert forall v: nat :: Collect(s, off, 2, 2, v) == if c2 / 64 != 2 then None else Collect(s, off, 3, 2, v * 64 + c2 % 64);
  }

  lemma DecodeFour(s: seq<Byte>, off: nat)
    requires off + 3 < |s| && s[off] / 8 == 30
    ensures var b := s[off..off + 4]; Decode(s, off) == if Utf8Char(b) then Some((Code(b), off + 4)) else None
  {
    var c0: int, c1: int, c2: int, c3: int := s[off], s[off + 1], s[off + 2], s[off + 3];
    assert Collect(s, off, 1, 3, c0 % 8) == if c1 / 64 != 2 then None else Collect(s, off, 2, 3, c0 % 8 * 64 + c1 % 64);
    assert forall v: nat :: Collect(s, off, 2, 3, v) == if c2 / 64 != 2 then None else Collect(s, off, 3, 3, v * 64 + c2 % 64);
    assert forall v: nat :: Collect(s, off, 3, 3, v) == if c3 / 64 != 2 then None else Collect(s, off, 4, 3, v * 64 + c3 % 64);
    assert forall v: nat :: Collect(s, off, 4, 3, v) == Some(v);
    hide Collect;
  }

  /** Decoding undoes the encoding of every scalar value, wherever it stands. */
  lemma DecodeUndoesEncode(before: seq<Byte>, cp: int, after: seq<Byte>)
    requires Scalar(cp)
    ensures Decode(before + Encode(cp) + after, |before|) == Some((cp, |before| + |Encode(cp)|))
  {
    var s := before + Encode(cp) + after;
    EncodingIsChar(cp);
    assert s[|before|..|before| + |Encode(cp)|] == Encode(cp);
    DecodeIsExact(s, |before|, |Encode(cp)|);
  }

  /** What is decoded is a scalar value, and its encoding is what was there. */
  lemma EncodeUndoesDecode(s: seq<Byte>, off: nat)
    requires Decode(s, off).Some?
    ensures var (cp, next) := Decode(s, off).value; Scalar(cp) && s[off..next] == Encode(cp)
  {
    var (cp, next) := Decode(s, off).value;
    DecodeIsExact(s, off, next - off);
    CharIsEncoding(s[off..next]);
  }

  // -------------------------------------------------------------------------- texts

  predicate Scalars(cps: seq<int>) { forall i :: 0 <= i < |cps| ==> Scalar(cps[i]) }

  function EncodeAll(cps: seq<int>): seq<Byte>
    requires Scalars(cps)
  {
    if cps == [] then [] else Encode(cps[0]) + EncodeAll(cps[1..])
  }

  /** The start offsets of the characters from `off` on, as far as they decode. */
  function Offsets(s: seq<Byte>, off: nat): (r: seq<nat>)
    decreases |s| - off
  {
    match Decode(s, off) case None => [] case Some((_, next)) => [off] + Offsets(s, next)
  }

  /** The offsets lie in the text and strictly ascend. */
  lemma {:induction false} OffsetsAscend(s: seq<Byte>, off: nat)
    ensures forall i :: 0 <= i < |Offsets(s, off)| ==> off <= Offsets(s, off)[i] < |s|
    ensures forall i, j :: 0 <= i < j < |Offsets(s, off)| ==> Offsets(s, off)[i] < Offsets(s, off)[j]
    decreases |s| - off
  {
    hide Decode;
    if Decode(s, off).Some? { OffsetsAscend(s, Decode(s, off).value.1); }
  }

  /** Every character from `off` to the end decodes. */
  predicate Sound(s: seq<Byte>, off: nat)
    decreases |s| - off
  {
    off >= |s| || (match Decode(s, off) case None => false case Some((_, next)) => Sound(s, next))
  }

  /** The code points of a sound text. */
  function DecodeAll(s: seq<Byte>, off: nat): seq<int>
    requires Sound(s, off)
    decreases |s| - off
  {
    if off >= |s| then [] else var (cp, next) := Decode(s, off).value; [cp] + DecodeAll(s, next)
  }

  lemma {:induction false} SoundIsEncoding(s: seq<Byte>, off: nat)
    requires off <= |s| && Sound(s, off)
    ensures Scalars(DecodeAll(s, off)) && EncodeAll(DecodeAll(s, off)) == s[off..]
    decreases |s| - off
  {
    if off < |s| {
      var (cp, next) := Decode(s, off).value;
      EncodeUndoesDecode(s, off);
      SoundIsEncoding(s, next);
      assert s[off..] == s[off..next] + s[next..];
    }
  }

  lemma PrefixLength(cps: seq<int>, i: nat)
    requires Scalars(cps) && 0 < i <= |cps|
    ensures |EncodeAll(cps[..i])| == |Encode(cps[0])| + |EncodeAll(cps[1..][..i - 1])|
  {
    assert cps[..i][0] == cps[0] && cps[..i][1..] == cps[1..][..i - 1];
  }

  lemma EncodeAllStep(cps: seq<int>)
    requires Scalars(cps) && cps != []
    ensures Scalar(cps[0]) && Scalars(cps[1..]) && EncodeAll(cps) == Encode(cps[0]) + EncodeAll(cps[1..])
  {
    hide Encode, Scalar;
  }

  /** The first character of an encoded text. */
  lemma FirstDecodes(before: seq<Byte>, cps: seq<int>)
    requires Scalars(cps) && cps != []
    ensures before + EncodeAll(cps) == before + Encode(cps[0]) + EncodeAll(cps[1..])
    ensures Decode(before + EncodeAll(cps), |before|) == Some((cps[0], |before| + |Encode(cps[0])|))
  {
    hide Encode, Decode, EncodeAll, Scalars, Scalar;
    EncodeAllStep(cps);
    Regroup(before, Encode(cps[0]), EncodeAll(cps[1..]));
    DecodeUndoesEncode(before, cps[0], EncodeAll(cps[1..]));
  }

  lemma Regroup(a: seq<Byte>, b: seq<Byte>, c: seq<Byte>)
    ensures a + (b + c) == a + b + c && |a + b| == |a| + |b|
  {
  }

  /** The text of `cps` behind `before` is sound and decodes to `cps`. */
  lemma {:induction false} EncodingIsSound(before: seq<Byte>, cps: seq<int>)
    requires Scalars(cps)
    ensures Sound(before + EncodeAll(cps), |before|) && DecodeAll(before + EncodeAll(cps), |before|) == cps
    decreases |cps|
  {
    hide Encode, Decode;
    if cps != [] {
      FirstDecodes(before, cps);
      EncodingIsSound(before + Encode(cps[0]), cps[1..]);
      assert cps == [cps[0]] + cps[1..];
    }
  }

  lemma OffsetsStep(s: seq<Byte>, off: nat)
    requires Decode(s, off).Some?
    ensures Offsets(s, off) == [off] + Offsets(s, Decode(s, off).value.1)
  {
  }

  /** It has one start offset per code point, each where that code point's encoding starts. */
  lemma {:induction false} EncodingOffsets(s: seq<Byte>, before: seq<Byte>, cps: seq<int>, i: nat)
    requires Scalars(cps) && s == before + EncodeAll(cps) && i <= |cps|
    ensures |Offsets(s, |before|)| == |cps|
    ensures i < |cps| ==> Offsets(s, |before|)[i] == |before| + |EncodeAll(cps[..i])|
    decreases |cps|
  {
    hide Decode, Encode, Offsets, EncodeAll, Scalars, Scalar;
    if cps == [] {
      NoOffsets(s, before, cps);
    } else {
      EncodeAllStep(cps);
      FirstDecodes(before, cps);
      Regroup(before, Encode(cps[0]), []);
      OffsetsStep(s, |before|);
      EncodingOffsets(s, before + Encode(cps[0]), cps[1..], if i == 0 then 0 else i - 1);
      OffsetsShift(s, before, cps, i);
    }
  }

  lemma NoOffsets(s: seq<Byte>, before: seq<Byte>, cps: seq<int>)
    requires cps == [] && s == before + EncodeAll(cps)
    ensures Offsets(s, |before|) == []
  {
    assert Decode(s, |before|).None?;
  }

  lemma OffsetsShift(s: seq<Byte>, before: seq<Byte>, cps: seq<int>, i: nat)
    requires Scalars(cps) && cps != [] && i <= |cps|
    requires Offsets(s, |before|) == [|before|] + Offsets(s, |before + Encode(cps[0])|)
    requires |Offsets(s, |before + Encode(cps[0])|)| == |cps| - 1
    requires 0 < i < |cps| ==>
      Offsets(s, |before + Encode(cps[0])|)[i - 1] == |before + Encode(cps[0])| + |EncodeAll(cps[1..][..i - 1])|
    ensures |Offsets(s, |before|)| == |cps|
    ensures i < |cps| ==> Offsets(s, |before|)[i] == |before| + |EncodeAll(cps[..i])|
  {
    hide Encode, Offsets;
    if i > 0 { PrefixLength(cps, i); }
  }

  /** A text is sound exactly when it is a concatenation of encodings, and then of its own code points. */
  lemma ValidIsExact(s: seq<Byte>)
    ensures Sound(s, 0) <==> exists cps :: Scalars(cps) && EncodeAll(cps) == s
  {
    if Sound(s, 0) {
      SoundIsEncoding(s, 0);
      assert s[0..] == s;
    }
    if exists cps :: Scalars(cps) && EncodeAll(cps) == s {
      var cps :| Scalars(cps) && EncodeAll(cps) == s;
      EncodingIsSound([], cps);
      assert [] + s == s;
    }
  }

  // ------------------------------------------------------------------------ the callers

  /** The decoder with its cursor: -1 and no movement on anything invalid. */
  method DecodeAt(s: seq<Byte>, off: int) returns (cp: int, next: int)
    ensures match Decode(s, off) case Some((v, n)) => cp == v && next == n case None => cp == -1 && next == off
  {
    if off < 0 || off >= |s| { return -1, off; }
    var c: int := s[off];
    if c < 0x80 { return c, off + 1; }
    var bits: int, need: int;
    if c / 32 == 6 { bits, need := c % 32, 1; }
    else if c / 16 == 14 { bits, need := c % 16, 2; }
    else if c / 8 == 30 { bits, need := c % 8, 3; }
    else { return -1, off; }
    if off + need >= |s| { return -1, off; }
    var v: int, i := bits, 1;
    while i <= need
      invariant 1 <= i <= need + 1 && v >= 0
      invariant Collect(s, off, i, need, v) == Collect(s, off, 1, need, bits)
    {
      var cc: int := s[off + i];
      if cc / 64 != 2 { return -1, off; }
      v := v * 64 + cc % 64;
      i := i + 1;
    }
    if need == 1 && v < 0x80 { return -1, off; }
    if need == 2 && v < 0x800 { return -1, off; }
    if need == 3 && v < 0x10000 { return -1, off; }
    if v > 0x10FFFF || (v >= 0xD800 && v <= 0xDFFF) { return -1, off; }
    cp, next := v, off + need + 1;
  }

  /** The number of characters up to the first invalid byte. */
  method Length(s: seq<Byte>) returns (n: nat)
    ensures n == |Offsets(s, 0)|
  {
    hide Decode;
    n := 0;
    var off := 0;
    while off < |s|
      invariant 0 <= off <= |s| && n + |Offsets(s, off)| == |Offsets(s, 0)|
    {
      var cp, next := DecodeAt(s, off);
      if cp < 0 { return; }
      n, off := n + 1, next;
    }
    assert Decode(s, off) == None;
  }

  /** The offset of the `index`-th character, or -1: defined exactly below the length. */
  method Index(s: seq<Byte>, index: int) returns (r: int)
    ensures r >= 0 <==> 0 <= index < |Offsets(s, 0)|
    ensures 0 <= index < |Offsets(s, 0)| ==> r == Offsets(s, 0)[index]
    ensures r < 0 ==> r == -1
  {
    hide Decode;
    if index < 0 { return -1; }
    var off, i := 0, 0;
    while off < |s|
      invariant 0 <= off <= |s| && 0 <= i <= index
      invariant i <= |Offsets(s, 0)| && Offsets(s, 0)[i..] == Offsets(s, off)
      decreases |s| - off
    {
      var start := off;
      var cp, next := DecodeAt(s, off);
      if cp < 0 { return -1; }
      if i == index { return start; }
      assert Offsets(s, off)[1..] == Offsets(s, next);
      i, off := i + 1, next;
    }
    r := -1;
  }

  /** Whether the whole text is valid. */
  method Validate(s: seq<Byte>) returns (ok: bool)
    ensures ok <==> Sound(s, 0)
  {
    hide Decode;
    var off := 0;
    while off < |s|
      invariant 0 <= off <= |s| && Sound(s, off) == Sound(s, 0)
    {
      var cp, next := DecodeAt(s, off);
      if cp < 0 { return false; }
      off := next;
    }
    ok := true;
  }
}
