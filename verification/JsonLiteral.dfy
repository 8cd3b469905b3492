/** What a string literal stands for, by the table of section 7 of RFC 8259, and what the reader makes of it. */
module JsonLiteral {
  import opened Seqs
  import opened JsonText

  /** The characters the two-character escapes stand for. */
  const ESCAPES: map<char, char> := map[
    '"' := '"', '\\' := '\\', '/' := '/',
    'b' := 8 as char, 'f' := 12 as char, 'n' := 10 as char, 'r' := 13 as char, 't' := 9 as char]

  const HEX: map<char, nat> := map[
    '0' := 0, '1' := 1, '2' := 2, '3' := 3, '4' := 4, '5' := 5, '6' := 6, '7' := 7, '8' := 8, '9' := 9,
    'a' := 10, 'b' := 11, 'c' := 12, 'd' := 13, 'e' := 14, 'f' := 15,
    'A' := 10, 'B' := 11, 'C' := 12, 'D' := 13, 'E' := 14, 'F' := 15]

  /** Four hexadecimal digits behind a backslash and a `u`. */
  predicate FourHex(s: string) {
    |s| >= 6 && s[1] == 'u' && s[2] in HEX && s[3] in HEX && s[4] in HEX && s[5] in HEX
  }

  function CodePoint(s: string): nat
    requires FourHex(s)
  {
    HEX[s[2]] * 0x1000 + HEX[s[3]] * 0x100 + HEX[s[4]] * 0x10 + HEX[s[5]]
  }

  /** `s` can stand between quotes: no bare quote and no NUL in it, and no backslash at its end. */
  predicate Inside(s: string)
    decreases |s|
  {
    if s == [] then true
    else if s[0] == '\\' then |s| >= 2 && s[1] != NUL && Inside(if FourHex(s) then s[6..] else s[2..])
    else s[0] != '"' && s[0] != NUL && Inside(s[1..])
  }

  /** The characters `s` stands for. The reader knows code points below 128; anything else an escape
   spells, and any escape the table does not have, is a question mark to it. */
  function Stands(s: string): string
    requires Inside(s)
    decreases |s|
  {
    if s == [] then []
    else if s[0] != '\\' then [s[0]] + Stands(s[1..])
    else if FourHex(s) then
      [if CodePoint(s) < 128 then CodePoint(s) as char else '?'] + Stands(s[6..])
    else [if s[1] in ESCAPES then ESCAPES[s[1]] else '?'] + Stands(s[2..])
  }

  lemma HexIsTable(c: char)
    ensures HexValue(c) >= 0 <==> c in HEX
    ensures c in HEX ==> HexValue(c) == HEX[c]
  {
  }

  /** Every string of the standard is one. */
  lemma {:induction false} JsonIsInside(s: string)
    requires JsonChars(s)
    ensures Inside(s)
    decreases |s|
  {
    if s != [] {
      if s[0] != '\\' {
        JsonIsInside(s[1..]);
      } else {
        if s[1] == 'u' { forall k | 2 <= k < 6 ensures s[k] in HEX { HexIsTable(s[k]); } }
        JsonIsInside(if FourHex(s) then s[6..] else s[2..]);
      }
    }
  }

  /** One escape, read as the table has it; a quote behind the text does not complete one. */
  lemma EscapeRead(s: string, k: string)
    requires Inside(s) && s != [] && s[0] == '\\'
    ensures var t := s + (['"'] + k); var n := if FourHex(s) then 6 else 2;
      |t| >= 2 && Unescape(t) == (Stands(s)[0], n)
  {
    hide Unescape, Inside;
    var t := s + (['"'] + k);
    assert |s| >= 2 && t[0] == s[0] && t[1] == s[1] by { EscapeIsTwo(s); }
    if t[1] != 'u' {
      ShortUnescape(t);
    } else if FourHex(s) {
      HexUnescape(t);
    } else {
      NoHexUnescape(s, t, k);
    }
  }

  lemma EscapeIsTwo(s: string)
    requires Inside(s) && s != [] && s[0] == '\\'
    ensures |s| >= 2
  {
  }

  lemma ShortUnescape(t: string)
    requires |t| >= 2 && t[1] != 'u'
    ensures Unescape(t) == (if t[1] in ESCAPES then ESCAPES[t[1]] else '?', 2)
  {
  }

  lemma HexUnescape(t: string)
    requires FourHex(t)
    ensures Unescape(t) == (if CodePoint(t) < 128 then CodePoint(t) as char else '?', 6)
  {
    HexIsTable(t[2]);
    HexIsTable(t[3]);
    HexIsTable(t[4]);
    HexIsTable(t[5]);
  }

  lemma NoHexUnescape(s: string, t: string, k: string)
    requires |s| >= 2 && s[1] == 'u' && !FourHex(s) && t == s + (['"'] + k)
    ensures Unescape(t) == ('?', 2)
  {
    if |t| >= 6 {
      HexIsTable(t[2]);
      HexIsTable(t[3]);
      HexIsTable(t[4]);
      HexIsTable(t[5]);
      if |s| < 6 { assert t[|s|] == '"' && '"' !in HEX; }
    }
  }

  /** The reader turns any literal into the characters it stands for, and stops behind its closing quote. */
  lemma {:induction false} LiteralRead(s: string, k: string)
    requires Inside(s)
    ensures ReadChars(s + (['"'] + k)) == (Stands(s), k)
    decreases |s|
  {
    var t := s + (['"'] + k);
    hide Unescape, ReadChars;
    if s == [] {
      assert t == ['"'] + k && t[1..] == k;
      QuoteEnds(t);
    } else if s[0] != '\\' {
      LiteralRead(s[1..], k);
      assert t[1..] == s[1..] + (['"'] + k);
      OneChar(t, s[0], 1);
    } else {
      var n := if FourHex(s) then 6 else 2;
      LiteralRead(s[n..], k);
      assert t[n..] == s[n..] + (['"'] + k);
      EscapeRead(s, k);
      assert t[1..][0] == s[1];
      OneChar(t, Stands(s)[0], n);
    }
  }

  /** So does reading a quoted string, white space in front of it or not. */
  lemma {:induction false} QuotedLiteralRead(ws: string, s: string, k: string)
    requires Inside(s) && forall i :: 0 <= i < |ws| ==> IsSpace(ws[i])
    ensures ReadString(ws + (['"'] + (s + (['"'] + k)))) == Some((Stands(s), k))
    decreases |ws|
  {
    var q := ['"'] + (s + (['"'] + k));
    if ws == [] {
      assert ws + q == q && q[1..] == s + (['"'] + k);
      LiteralRead(s, k);
    } else {
      QuotedLiteralRead(ws[1..], s, k);
      assert (ws + q)[1..] == ws[1..] + q && (ws + q)[0] == ws[0];
    }
  }

  lemma QuoteEnds(t: string)
    requires t != [] && t[0] == '"'
    ensures ReadChars(t) == ([], t[1..])
  {
  }

  /** Printing and the table agree, so nothing is read back but what was printed. */
  lemma {:induction false} PrintedStands(s: string)
    ensures JsonChars(Escaped(s, [])) && Inside(Escaped(s, [])) && Stands(Escaped(s, [])) == s
  {
    EscapedIsJson(s);
    JsonIsInside(Escaped(s, []));
    LiteralRead(Escaped(s, []), []);
    EscapedUndone(s, []);
    EscapedAppend(s, ['"'] + []);
  }

  lemma {:induction false} EscapedAppend(s: string, k: string)
    ensures Escaped(s, k) == Escaped(s, []) + k
  {
    if s != [] {
      EscapedAppend(s[1..], k);
      assert Escape(s[0]) + (Escaped(s[1..], []) + k) == Escape(s[0]) + Escaped(s[1..], []) + k;
    }
  }
}
