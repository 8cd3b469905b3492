/**
 The lexical level of the typed JSON printer and reader: string literals with their escapes,
 decimal integers, white space, and the brace depth of a text.
 */
module JsonText {
  import opened Seqs

  const NUL: char := '\0'

  /** The byte under a C cursor: the terminator once the text is used up. */
  function Head(s: string): char { if s == [] then NUL else s[0] }

  // ----------------------------------------------------------------------- white space

  predicate IsSpace(c: char) { c == ' ' || c == '\t' || c == '\n' || c == '\r' }

  function SkipWs(s: string): (r: string)
    ensures |r| <= |s|
  {
    if IsSpace(Head(s)) then SkipWs(s[1..]) else s
  }

  lemma {:induction false} SkipWsStops(s: string)
    ensures !IsSpace(Head(SkipWs(s))) && SkipWs(SkipWs(s)) == SkipWs(s)
  {
    if IsSpace(Head(s)) { SkipWsStops(s[1..]); }
  }

  // -------------------------------------------------------------------- string literals

  function HexDigit(d: nat): char
    requires d < 16
  {
    "0123456789abcdef"[d]
  }

  /** The digit's value, or -1 for a character that is no hexadecimal digit. */
  function HexValue(c: char): (d: int)
    ensures -1 <= d < 16
  {
    if '0' <= c <= '9' then c as int - '0' as int
    else if 'a' <= c <= 'f' then c as int - 'a' as int + 10
    else if 'A' <= c <= 'F' then c as int - 'A' as int + 10
    else -1
  }

  /** The printer's escape for one character. */
  function Escape(c: char): (r: string)
    ensures r != []
  {
    if c == '"' then ['\\', '"']
    else if c == '\\' then ['\\', '\\']
    else if c == '\n' then ['\\', 'n']
    else if c == '\t' then ['\\', 't']
    else if c == '\r' then ['\\', 'r']
    else if c as int == 8 then ['\\', 'b']
    else if c as int == 12 then ['\\', 'f']
    else if c as int < 32 then ['\\', 'u', '0', '0', HexDigit(c as int / 16), HexDigit(c as int % 16)]
    else [c]
  }

  /** `s` escaped, followed by `k`. */
  function Escaped(s: string, k: string): string {
    if s == [] then k else Escape(s[0]) + Escaped(s[1..], k)
  }

  /** A string literal, followed by `k`. */
  function Quoted(s: string, k: string): string { ['"'] + Escaped(s, ['"'] + k) }

  /** What follows a backslash: the character it stands for and the length of the whole escape. */
  function Unescape(s: string): (r: (char, nat))
    requires |s| >= 2
    ensures 2 <= r.1 <= |s|
  {
    var e := s[1];
    if e == '"' || e == '\\' || e == '/' then (e, 2)
    else if e == 'n' then ('\n', 2)
    else if e == 't' then ('\t', 2)
    else if e == 'r' then ('\r', 2)
    else if e == 'b' then (8 as char, 2)
    else if e == 'f' then (12 as char, 2)
    else if e == 'u' && |s| >= 6 && (forall k :: 2 <= k < 6 ==> HexValue(s[k]) >= 0) then
      var hx := ((HexValue(s[2]) * 16 + HexValue(s[3])) * 16 + HexValue(s[4])) * 16 + HexValue(s[5]);
      (if hx < 128 then hx as char else '?', 6)
    else ('?', 2)
  }

  /** The inside of a string literal up to its closing quote, which is consumed. */
  function ReadChars(s: string): (r: (string, string))
    ensures |r.1| <= |s|
    decreases |s|
  {
    if Head(s) == NUL then ([], s)
    else if s[0] == '"' then ([], s[1..])
    else if s[0] == '\\' && Head(s[1..]) != NUL then
      var (c, n) := Unescape(s);
      var (cs, rest) := ReadChars(s[n..]);
      ([c] + cs, rest)
    else
      var (cs, rest) := ReadChars(s[1..]);
      ([s[0]] + cs, rest)
  }

  /** A quoted string behind white space. */
  function ReadString(s: string): (r: Option<(string, string)>)
    ensures r.Some? ==> |r.value.1| < |s|
  {
    var s' := SkipWs(s);
    if Head(s') == '"' then Some(ReadChars(s'[1..])) else None
  }

  /** What `strlen` and `strcmp` see of a buffer. */
  function UpToNul(s: string): string {
    if s == [] || s[0] == NUL then [] else [s[0]] + UpToNul(s[1..])
  }

  predicate NulFree(s: string) { NUL !in s }

  lemma {:induction false} UpToNulExact(s: string)
    ensures UpToNul(s) == s <==> NulFree(s)
  {
    if s != [] && s[0] != NUL {
      UpToNulExact(s[1..]);
      assert s == [s[0]] + s[1..];
      assert ([s[0]] + UpToNul(s[1..]))[1..] == UpToNul(s[1..]);
    }
  }

  /** Reading one spelled character, whatever follows. */
  lemma OneChar(s: string, c: char, n: nat)
    requires Head(s) != NUL && s[0] != '"'
    requires if s[0] == '\\' && Head(s[1..]) != NUL then Unescape(s) == (c, n) else (s[0], 1) == (c, n)
    ensures n <= |s| && ReadChars(s) == ([c] + ReadChars(s[n..]).0, ReadChars(s[n..]).1)
  {
    hide Unescape;
  }

  lemma EscapeUndone(c: char, k: string)
    ensures ReadChars(Escape(c) + k) == ([c] + ReadChars(k).0, ReadChars(k).1)
  {
    hide ReadChars;
    var s := Escape(c) + k;
    if |Escape(c)| == 6 {
      ControlUndone(c, k);
    } else if |Escape(c)| == 2 {
      assert s[1..][0] == s[1] && s[2..] == k;
      OneChar(s, c, 2);
    } else {
      assert s[1..] == k;
      OneChar(s, c, 1);
    }
  }

  lemma ControlUndone(c: char, k: string)
    requires |Escape(c)| == 6
    ensures ReadChars(Escape(c) + k) == ([c] + ReadChars(k).0, ReadChars(k).1)
  {
    hide ReadChars;
    var s := Escape(c) + k;
    assert s[0] == '\\' && s[1] == 'u' && s[1..][0] == 'u' && s[6..] == k;
    assert Unescape(s) == (c, 6) by {
      HexSpells(c as int, s[4], s[5]);
      assert HexValue(s[2]) == 0 && HexValue(s[3]) == 0;
    }
    OneChar(s, c, 6);
  }

  lemma HexSpells(n: nat, hi: char, lo: char)
    requires n < 32 && hi == HexDigit(n / 16) && lo == HexDigit(n % 16)
    ensures HexValue(hi) >= 0 && HexValue(lo) >= 0 && HexValue(hi) * 16 + HexValue(lo) == n
  {
    HexDigitValue(n / 16);
    HexDigitValue(n % 16);
  }

  lemma HexDigitValue(d: nat)
    requires d < 16
    ensures HexValue(HexDigit(d)) == d
  {
  }

  /** Reading undoes escaping, for every character. */
  lemma {:induction false} EscapedUndone(s: string, k: string)
    ensures ReadChars(Escaped(s, ['"'] + k)) == (s, k)
  {
    if s != [] {
      EscapedUndone(s[1..], k);
      EscapeUndone(s[0], Escaped(s[1..], ['"'] + k));
      assert s == [s[0]] + s[1..];
    } else {
      assert (['"'] + k)[1..] == k;
    }
  }

  /** A name printed between quotes without escaping. */
  predicate PlainName(s: string) {
    forall i :: 0 <= i < |s| ==> s[i] != NUL && s[i] != '"' && s[i] != '\\'
  }

  lemma {:induction false} PlainNameUndone(s: string, k: string)
    requires PlainName(s)
    ensures ReadChars(s + (['"'] + k)) == (s, k)
  {
    var text := s + (['"'] + k);
    if s == [] {
      assert text == ['"'] + k && text[1..] == k;
    } else {
      PlainNameUndone(s[1..], k);
      assert text[1..] == s[1..] + (['"'] + k);
      assert s == [s[0]] + s[1..];
    }
  }

  /** Section 7 of RFC 8259: the inside of a string is unescaped characters and known escapes. */
  predicate JsonChars(s: string)
    decreases |s|
  {
    if s == [] then true
    else if s[0] == '\\' then
      && |s| >= 2
      && ((s[1] in "\"\\/bfnrt" && JsonChars(s[2..]))
          || (s[1] == 'u' && |s| >= 6 && (forall k :: 2 <= k < 6 ==> HexValue(s[k]) >= 0) && JsonChars(s[6..])))
    else s[0] as int >= 32 && s[0] != '"' && JsonChars(s[1..])
  }

  lemma EscapeIsJson(c: char, k: string)
    requires JsonChars(k)
    ensures JsonChars(Escape(c) + k)
  {
    var s := Escape(c) + k;
    if |Escape(c)| == 6 {
      assert s[6..] == k;
      assert HexValue(s[2]) == 0 && HexValue(s[3]) == 0;
      HexSpells(c as int, s[4], s[5]);
    } else if |Escape(c)| == 2 {
      assert s[2..] == k;
    } else {
      assert s[1..] == k;
    }
  }

  /** Every printed literal is a string of RFC 8259. */
  lemma {:induction false} EscapedIsJson(s: string)
    ensures JsonChars(Escaped(s, []))
  {
    if s != [] {
      EscapedIsJson(s[1..]);
      EscapeIsJson(s[0], Escaped(s[1..], []));
    }
  }

  // ----------------------------------------------------------------------- integers

  predicate IsDigit(c: char) { '0' <= c <= '9' }

  function Digit(d: nat): (c: char)
    requires d < 10
    ensures IsDigit(c) && c as int - '0' as int == d
  {
    ('0' as int + d) as char
  }

  /** The decimal digits of `n`, followed by `k`. */
  function Decimal(n: nat, k: string): string {
    if n < 10 then [Digit(n)] + k else Decimal(n / 10, [Digit(n % 10)] + k)
  }

  function Signed(n: int, k: string): string { if n < 0 then ['-'] + Decimal(-n, k) else Decimal(n, k) }

  /** The digits at the head of `s`, read behind the value `acc`. */
  function ReadDigits(s: string, acc: nat): (r: (nat, string))
    ensures |r.1| <= |s|
  {
    if s != [] && IsDigit(s[0]) then ReadDigits(s[1..], 10 * acc + (s[0] as int - '0' as int)) else (acc, s)
  }

  const INT64_MIN: int := -0x8000_0000_0000_0000
  const INT64_MAX: int := 0x7fff_ffff_ffff_ffff

  predicate IsInt64(n: int) { INT64_MIN <= n <= INT64_MAX }

  function Clamp(n: int): int {
    if n < INT64_MIN then INT64_MIN else if n > INT64_MAX then INT64_MAX else n
  }

  /** `strtoll`'s own white space also has the vertical tab and the form feed. */
  function SkipCSpace(s: string): (r: string)
    ensures |r| <= |s|
  {
    if IsSpace(Head(s)) || Head(s) as int == 11 || Head(s) as int == 12 then SkipCSpace(s[1..]) else s
  }

  /** `strtoll` in base 10: saturating, and consuming nothing when there is no digit. */
  function ReadInt(s: string): (r: (int, string))
    ensures |r.1| <= |s|
  {
    var s' := SkipCSpace(s);
    var digits := if Head(s') == '-' || Head(s') == '+' then s'[1..] else s';
    if IsDigit(Head(digits)) then
      var (n, rest) := ReadDigits(digits, 0);
      var magnitude: int := n;
      (Clamp(if Head(s') == '-' then -magnitude else magnitude), rest)
    else (0, s)
  }

  lemma {:induction false} DecimalUndone(n: nat, k: string)
    ensures Decimal(n, k) != [] && IsDigit(Head(Decimal(n, k)))
    ensures ReadDigits(Decimal(n, k), 0) == ReadDigits(k, n)
    decreases n
  {
    if n < 10 {
      assert ([Digit(n)] + k)[1..] == k;
    } else {
      DecimalUndone(n / 10, [Digit(n % 10)] + k);
      assert ([Digit(n % 10)] + k)[1..] == k;
    }
  }

  /** A text that does not go on with a digit ends an integer. */
  predicate Delimited(k: string) { !IsDigit(Head(k)) }

  lemma SignedUndone(n: int, k: string)
    requires IsInt64(n) && Delimited(k)
    ensures ReadInt(Signed(n, k)) == (n, k)
    ensures !IsSpace(Head(Signed(n, k))) && Head(Signed(n, k)) != NUL
  {
    var m: nat := if n < 0 then -n else n;
    DecimalUndone(m, k);
    if n < 0 {
      assert Signed(n, k)[1..] == Decimal(m, k);
    }
  }

  // -------------------------------------------------------------------- brace depth

  /** Opening minus closing braces of a text, those inside string literals apart. */
  function Depth(s: string): int
    decreases |s|
  {
    if s == [] then 0
    else if s[0] == '"' then Depth(ReadChars(s[1..]).1)
    else (if s[0] == '{' then 1 else if s[0] == '}' then -1 else 0) + Depth(s[1..])
  }

  lemma {:induction false} SkipWsDepth(s: string)
    ensures Depth(SkipWs(s)) == Depth(s)
  {
    if IsSpace(Head(s)) { SkipWsDepth(s[1..]); }
  }

  lemma {:induction false} SkipCSpaceDepth(s: string)
    ensures Depth(SkipCSpace(s)) == Depth(s)
  {
    if SkipCSpace(s) != s { SkipCSpaceDepth(s[1..]); }
  }

  lemma {:induction false} ReadDigitsDepth(s: string, acc: nat)
    ensures Depth(ReadDigits(s, acc).1) == Depth(s)
  {
    if s != [] && IsDigit(s[0]) { ReadDigitsDepth(s[1..], 10 * acc + (s[0] as int - '0' as int)); }
  }

  lemma ReadIntDepth(s: string)
    ensures Depth(ReadInt(s).1) == Depth(s)
  {
    SkipCSpaceDepth(s);
    var s' := SkipCSpace(s);
    var digits := if Head(s') == '-' || Head(s') == '+' then s'[1..] else s';
    ReadDigitsDepth(digits, 0);
  }

  lemma ReadStringDepth(s: string)
    ensures ReadString(s).Some? ==> Depth(ReadString(s).value.1) == Depth(s)
  {
    SkipWsDepth(s);
  }

  lemma QuotedDepth(s: string, k: string)
    ensures Depth(Quoted(s, k)) == Depth(k)
  {
    EscapedUndone(s, k);
    assert Quoted(s, k)[1..] == Escaped(s, ['"'] + k);
  }

  lemma {:induction false} DecimalDepth(n: nat, k: string)
    ensures Depth(Decimal(n, k)) == Depth(k)
    decreases n
  {
    if n < 10 {
      assert ([Digit(n)] + k)[1..] == k;
    } else {
      DecimalDepth(n / 10, [Digit(n % 10)] + k);
      assert ([Digit(n % 10)] + k)[1..] == k;
    }
  }

  lemma SignedDepth(n: int, k: string)
    ensures Depth(Signed(n, k)) == Depth(k)
  {
    DecimalDepth(if n < 0 then -n else n, k);
    if n < 0 { assert Signed(n, k)[1..] == Decimal(-n, k); }
  }

  /** A character that is no quote and no brace does not change the depth. */
  lemma PlainDepth(c: char, k: string)
    requires c != '"' && c != '{' && c != '}'
    ensures Depth([c] + k) == Depth(k)
  {
    assert ([c] + k)[1..] == k;
  }
}
