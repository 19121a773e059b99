/**
 Which literals stand for a character: every one of them reads, and the canonical writer takes the shortest,
 with lower-case hexadecimal digits where it has to use them.
 */
module StringForms {
  import opened Common
  import opened Unicode
  import opened JsonText

  // --- UTF-16 code units ---

  predicate AreUnits(units: seq<nat>) { forall i :: 0 <= i < |units| ==> units[i] < 0x1_0000 }

  function UnitEscapes(units: seq<nat>): seq<byte>
    requires AreUnits(units)
  {
    if units == [] then [] else HexEscape(units[0]) + UnitEscapes(units[1..])
  }

  lemma UnitsAreUnits(c: char)
    ensures AreUnits(UnitsOf(c))
    ensures |UnitsOf(c)| == 1 ==> !IsHigh(UnitsOf(c)[0]) && !IsLow(UnitsOf(c)[0]) && UnitChar(UnitsOf(c)[0]) == c
    ensures |UnitsOf(c)| == 2 ==>
              IsHigh(UnitsOf(c)[0]) && IsLow(UnitsOf(c)[1]) && Combine(UnitsOf(c)[0], UnitsOf(c)[1]) == c
  {
    if c as int >= 0x1_0000 {
      var m := c as int - 0x1_0000;
      assert m == m / 0x400 * 0x400 + m % 0x400;
    }
  }

  /** The units of a character, written as \u escapes, read back as that character: they are its UTF-16 form. */
  lemma UnitsRead(strict: bool, c: char, rest: seq<byte>)
    ensures AreUnits(UnitsOf(c))
    ensures NextChar(strict, UnitEscapes(UnitsOf(c)) + rest) == Some((c, 6 * |UnitsOf(c)|))
  {
    hide UnitsOf, HexEscape, HexNumber, Combine, UnitChar;
    UnitsAreUnits(c);
    var u := UnitsOf(c);
    var s := UnitEscapes(u) + rest;
    HexEscapeStarts(u[0]);
    if |u| == 1 {
      assert u[1..] == [] && s == HexEscape(u[0]) + rest;
      HexEscapeReads(u[0], rest);
    } else {
      assert u[1..][1..] == [] && UnitEscapes(u[1..]) == HexEscape(u[1]);
      assert s == HexEscape(u[0]) + (HexEscape(u[1]) + rest);
      HexEscapeReads(u[0], HexEscape(u[1]) + rest);
      HexEscapeStarts(u[1]);
      assert s[6..] == HexEscape(u[1]) + rest;
      HexEscapeReads(u[1], rest);
    }
  }

  lemma HexEscapeStarts(n: nat)
    requires n < 0x1_0000
    ensures |HexEscape(n)| == 6 && HexEscape(n)[0] == BACKSLASH && HexEscape(n)[1] == LOWER_U
  {
  }

  /** An escape of a surrogate that is not the first half of a pair, and a byte that is not UTF-8, read as U+FFFD, and
      not at all when reading is strict. */
  lemma BadFormsAreReplaced(u: nat, rest: seq<byte>, raw: seq<byte>)
    requires 0xd800 <= u <= 0xdfff && !(IsHigh(u) && UnitAt(rest).Some? && IsLow(UnitAt(rest).value))
    requires raw != [] && raw[0] >= 0x20 && raw[0] != BACKSLASH && IsBad(DecodeRune(raw))
    ensures NextChar(false, HexEscape(u) + rest) == Some(('\U{fffd}', 6)) && NextChar(true, HexEscape(u) + rest).None?
    ensures NextChar(false, raw) == Some(('\U{fffd}', 1)) && NextChar(true, raw).None?
  {
    hide HexEscape, HexNumber, DecodeRune;
    HexEscapeStarts(u);
    HexEscapeReads(u, rest);
    var s := HexEscape(u) + rest;
    assert s[0] == BACKSLASH && s[1] == LOWER_U && s[6..] == rest;
  }

  // --- The two-byte escapes ---

  const LETTERS := "\"\\/bfnrt"
  const MEANINGS := "\"\\/\U{8}\U{c}\n\r\t"

  /** The eight two-byte escapes of JSON read as their characters. */
  lemma EscapesRead(strict: bool, i: nat, rest: seq<byte>)
    requires i < 8
    ensures |LETTERS| == |MEANINGS| == 8 && LETTERS[i] as int < 0x80
    ensures NextChar(strict, ['\\' as int, LETTERS[i] as int] + rest) == Some((MEANINGS[i], 2))
  {
    hide DecodeRune, EscapedUnits;
    var s := ['\\' as int, LETTERS[i] as int] + rest;
    assert s[0] == 0x5c && s[1] == LETTERS[i] as int;
  }

  // --- The shortest form ---

  function Lower(b: byte): byte { if 0x41 <= b <= 0x46 then b + 0x20 else b }

  function LowerAll(s: seq<byte>): (r: seq<byte>)
    ensures |r| == |s|
  {
    seq(|s|, i requires 0 <= i < |s| => Lower(s[i]))
  }

  lemma {:induction false} HexIgnoresCase(s: seq<byte>)
    ensures HexNumber(LowerAll(s)) == HexNumber(s)
    decreases |s|
  {
    if s != [] {
      HexIgnoresCase(s[..|s| - 1]);
      assert LowerAll(s)[..|s| - 1] == LowerAll(s[..|s| - 1]);
    }
  }

  lemma HexDigitIs(b: byte)
    requires HexValue(b).Some?
    ensures HexValue(b).value < 16 && HexDigit(HexValue(b).value) == Lower(b)
  {
  }

  lemma HexDivs(a: nat, b: nat, c: nat, d: nat)
    requires a < 16 && b < 16 && c < 16 && d < 16
    ensures var n := ((a * 16 + b) * 16 + c) * 16 + d;
            n < 0x1_0000 && n / 0x1000 == a && n / 0x100 % 16 == b && n / 16 % 16 == c && n % 16 == d
  {
  }

  lemma HexSplits(s: seq<byte>)
    requires s != [] && HexNumber(s).Some?
    ensures var front, last := s[..|s| - 1], s[|s| - 1];
            && HexNumber(front).Some? && HexValue(last).Some?
            && HexNumber(s).value == HexNumber(front).value * 16 + HexValue(last).value
  {
  }

  // Four digits of either case are the four lower-case digits of their number.
  lemma HexFourIs(s: seq<byte>)
    requires |s| == 4 && HexNumber(s).Some?
    ensures var n := HexNumber(s).value;
            && n < 0x1_0000
            && LowerAll(s) == [HexDigit(n / 0x1000), HexDigit(n / 0x100 % 16), HexDigit(n / 16 % 16), HexDigit(n % 16)]
  {
    hide HexNumber, HexValue, HexDigit, Lower;
    HexSplits(s);
    HexSplits(s[..3]);
    assert s[..3][..2] == s[..2] && s[..2][..1] == s[..1] && s[..1][..0] == [];
    HexSplits(s[..2]);
    HexSplits(s[..1]);
    assert HexNumber([]) == Some(0) by { HexOfNothing(); }
    forall i | 0 <= i < 4 ensures HexValue(s[i]).Some? {
      assert s[..3][2] == s[2] && s[..2][1] == s[1] && s[..1][0] == s[0];
    }
    HexDigitIs(s[0]);
    HexDigitIs(s[1]);
    HexDigitIs(s[2]);
    HexDigitIs(s[3]);
    HexDivs(HexValue(s[0]).value, HexValue(s[1]).value, HexValue(s[2]).value, HexValue(s[3]).value);
  }

  lemma HexOfNothing()
    ensures HexNumber([]) == Some(0)
  {
  }

  // The bytes of one literal of `c`, up to the case of hexadecimal digits.
  predicate SameForm(s: seq<byte>, e: seq<byte>) {
    s == e || (|s| == |e| == 6 && s[0] == BACKSLASH && LowerAll(s) == e)
  }

  lemma RawForm(s: seq<byte>)
    requires s != [] && s[0] !in {QUOTE, BACKSLASH} && NextChar(true, s).Some?
    ensures var (c, n) := NextChar(true, s).value; Escape(false, c) == s[..n]
  {
    hide DecodeRune, EncodeRune;
    EncodeDecoded(s);
    RawIsPlain(s, DecodeRune(s).0, DecodeRune(s).1);
  }

  // A character that was read raw is none of those that have to be escaped.
  lemma RawIsPlain(s: seq<byte>, c: char, n: nat)
    requires s != [] && s[0] >= 0x20 && s[0] !in {QUOTE, BACKSLASH} && 1 <= n <= |s| && EncodeRune(c) == s[..n]
    ensures Escape(false, c) == EncodeRune(c)
  {
    assert s[..n][0] == s[0];
    assert c as int < 0x80 ==> c as int == s[0];
  }

  lemma ShortEscapeForm(s: seq<byte>)
    requires |s| >= 2 && s[0] == BACKSLASH && s[1] != LOWER_U && NextChar(true, s).Some?
    ensures var (c, n) := NextChar(true, s).value;
            n == 2 && |Escape(false, c)| <= 2 && (|Escape(false, c)| == 2 ==> Escape(false, c) == s[..2])
  {
    hide DecodeRune, EscapedUnits;
    assert s[..2] == [s[0], s[1]];
  }

  lemma HexForm(s: seq<byte>)
    requires |s| >= 2 && s[0] == BACKSLASH && s[1] == LOWER_U && NextChar(true, s).Some?
    ensures var (c, n) := NextChar(true, s).value; var e := Escape(false, c);
            n >= 6 && |e| <= 6 && (|e| == n ==> SameForm(s[..n], e))
  {
    hide DecodeRune, HexNumber, HexDigit;
    var (c, n) := NextChar(true, s).value;
    if n == 6 && |Escape(false, c)| == 6 {
      HexFourIs(s[2..6]);
      var t := s[..6];
      assert t == [BACKSLASH, LOWER_U] + s[2..6];
      assert LowerAll(t) == [BACKSLASH, LOWER_U] + LowerAll(s[2..6]);
    }
  }

  /** The canonical writer uses the shortest literal: whatever strictly reads as a character is at least as long as
      what is written for it, and one as long is the same but for the case of hexadecimal digits. */
  lemma EscapeIsShortest(s: seq<byte>)
    requires s != [] && s[0] != QUOTE && NextChar(true, s).Some?
    ensures var (c, n) := NextChar(true, s).value; var e := Escape(false, c);
            |e| <= n && (|e| == n ==> SameForm(s[..n], e))
  {
    hide Escape, DecodeRune, EscapedUnits, SameForm;
    var (c, n) := NextChar(true, s).value;
    EqualForms(s[..n], Escape(false, c));
    if s[0] != BACKSLASH {
      RawForm(s);
    } else if s[1] == LOWER_U {
      HexForm(s);
    } else {
      ShortEscapeForm(s);
    }
  }

  lemma EqualForms(s: seq<byte>, e: seq<byte>)
    ensures s == e ==> SameForm(s, e)
  {
  }

  /** encoding/json escapes what matters to HTML and JavaScript, and writes all else as the canonical text. */
  lemma MarshalEscapesHtml(c: char)
    ensures Escape(true, c) == if c in "<>&\U{2028}\U{2029}" then HexEscape(c as int) else Escape(false, c)
  {
    hide HexEscape, EncodeRune;
  }

  /** Hexadecimal digits are written in lower case. */
  lemma EscapesAreLower(c: char)
    ensures |Escape(false, c)| == 6 ==> LowerAll(Escape(false, c)) == Escape(false, c)
  {
    hide HexDigit, EncodeRune;
    var e := Escape(false, c);
    if |e| == 6 {
      HexDigitsAreLower();
      HexParts(c as int);
      forall i | 0 <= i < 6 ensures Lower(e[i]) == e[i] {
      }
    }
  }

  lemma HexDigitsAreLower()
    ensures forall n: nat :: n < 16 ==> Lower(HexDigit(n)) == HexDigit(n)
  {
  }

  /** So it is for whole strings: no literal that strictly reads as the text is shorter than the canonical one. */
  lemma {:induction false} BodyIsShortest(s: seq<byte>)
    requires ReadBody(true, s).Some?
    ensures var (text, rest) := ReadBody(true, s).value; |BodyText(false, text)| + |rest| <= |s|
    decreases |s|
  {
    hide NextChar, Escape;
    if s[0] != QUOTE {
      var (c, n) := NextChar(true, s).value;
      EscapeIsShortest(s);
      BodyIsShortest(s[n..]);
      var (text, rest) := ReadBody(true, s[n..]).value;
      assert ([c] + text)[1..] == text;
    }
  }
}
