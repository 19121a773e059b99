/** JSON string literals: how they are written, read back, and screened for bad scalars. */
module JsonText {
  import opened Common
  import opened Unicode

  const QUOTE: byte := 0x22
  const BACKSLASH: byte := 0x5c
  const LOWER_U: byte := 0x75

  // --- Four hexadecimal digits ---

  const HEX := "0123456789abcdef"

  function HexDigit(n: nat): byte
    requires n < 16
  {
    HEX[n] as int
  }

  function HexValue(b: byte): Option<nat> {
    if 0x30 <= b <= 0x39 then Some(b - 0x30)
    else if 0x61 <= b <= 0x66 then Some(10 + (b - 0x61))
    else if 0x41 <= b <= 0x46 then Some(10 + (b - 0x41))
    else None
  }

  function HexNumber(s: seq<byte>): (r: Option<nat>)
    ensures r.Some? ==> r.value < Pow16(|s|)
  {
    if s == [] then Some(0)
    else
      match (HexNumber(s[..|s| - 1]), HexValue(s[|s| - 1]))
      case (Some(high), Some(low)) => Some(high * 16 + low)
      case _ => None
  }

  function Pow16(n: nat): nat { if n == 0 then 1 else 16 * Pow16(n - 1) }

  // The code unit of a \uXXXX escape at the front of s.
  function UnitAt(s: seq<byte>): (r: Option<nat>)
    ensures r.Some? ==> |s| >= 6 && r.value < 0x1_0000
  {
    assert Pow16(4) == 0x1_0000;
    if |s| >= 6 && s[0] == BACKSLASH && s[1] == LOWER_U then HexNumber(s[2..6]) else None
  }

  predicate IsHigh(u: nat) { 0xd800 <= u <= 0xdbff }
  predicate IsLow(u: nat) { 0xdc00 <= u <= 0xdfff }

  function Combine(u: nat, v: nat): char
    requires IsHigh(u) && IsLow(v)
  {
    ((u - 0xd800) * 0x400 + (v - 0xdc00) + 0x1_0000) as char
  }

  function UnitChar(u: nat): char
    requires u < 0x1_0000 && !IsHigh(u) && !IsLow(u)
  {
    u as char
  }

  // --- One character of a string literal ---

  function Unescape(b: byte): Option<char> {
    if b == QUOTE then Some('\"')
    else if b == BACKSLASH then Some('\\')
    else if b == 0x2f then Some('/')
    else if b == 0x62 then Some('\U{8}')
    else if b == 0x66 then Some('\U{c}')
    else if b == 0x6e then Some('\n')
    else if b == 0x72 then Some('\r')
    else if b == 0x74 then Some('\t')
    else None
  }

  // A \uXXXX escape, or a pair of them. A lone surrogate becomes U+FFFD unless `strict`.
  function EscapedUnits(strict: bool, s: seq<byte>): (r: Option<(char, nat)>)
    ensures r.Some? ==> 1 <= r.value.1 <= |s|
  {
    match UnitAt(s)
    case None => None
    case Some(u) =>
      if !IsHigh(u) && !IsLow(u) then Some((UnitChar(u), 6))
      else
        match UnitAt(s[6..])
        case Some(v) =>
          if IsHigh(u) && IsLow(v) then Some((Combine(u, v), 12))
          else if strict then None else Some((REPLACEMENT, 6))
        case None => if strict then None else Some((REPLACEMENT, 6))
  }

  // The character at the front of s, inside a string literal, and the bytes it takes. encoding/json
  // puts U+FFFD for what is not well-formed Unicode; `strict` reading refuses it.
  function NextChar(strict: bool, s: seq<byte>): (r: Option<(char, nat)>)
    requires s != []
    ensures r.Some? ==> 1 <= r.value.1 <= |s|
  {
    if s[0] < 0x20 then None
    else if s[0] != BACKSLASH then
      if strict && IsBad(DecodeRune(s)) then None else Some(DecodeRune(s))
    else if |s| < 2 then None
    else if s[1] == LOWER_U then EscapedUnits(strict, s)
    else
      match Unescape(s[1])
      case None => None
      case Some(c) => Some((c, 2))
  }

  // The text of a string from after its opening quote, and what follows its closing quote.
  function ReadBody(strict: bool, s: seq<byte>): (r: Option<(string, seq<byte>)>)
    ensures r.Some? ==> |r.value.1| < |s|
    decreases |s|
  {
    if s == [] then None
    else if s[0] == QUOTE then Some(([], s[1..]))
    else
      match NextChar(strict, s)
      case None => None
      case Some((c, n)) =>
        match ReadBody(strict, s[n..])
        case None => None
        case Some((text, rest)) => Some(([c] + text, rest))
  }

  // --- The raw scalar screen ---

  // validateRawJSONStringScalars, from outside and from inside a quoted string: every string literal
  // ends, and every character in it can be read strictly and is no noncharacter.
  predicate Outside(s: seq<byte>)
    decreases |s|
  {
    s == [] || (if s[0] == QUOTE then Inside(s[1..]) else Outside(s[1..]))
  }

  predicate Inside(s: seq<byte>)
    decreases |s|
  {
    && s != []
    && if s[0] == QUOTE then Outside(s[1..])
       else
         && NextChar(true, s).Some? && !IsNoncharacter(NextChar(true, s).value.0 as int)
         && Inside(s[NextChar(true, s).value.1..])
  }

  // --- Writing ---

  // The canonical writer escapes what JSON requires; encoding/json also escapes some characters that
  // matter to HTML and JavaScript.
  predicate EscapedForHtml(c: char) { c in {'<', '>', '&', '\U{2028}', '\U{2029}'} }

  function HexEscape(n: nat): (s: seq<byte>)
    requires n < 0x1_0000
  {
    [BACKSLASH, LOWER_U] + [HexDigit(n / 0x1000), HexDigit(n / 0x100 % 16), HexDigit(n / 16 % 16), HexDigit(n % 16)]
  }

  function Escape(html: bool, c: char): seq<byte> {
    if c == '\"' then [BACKSLASH, QUOTE]
    else if c == '\\' then [BACKSLASH, BACKSLASH]
    else if c == '\U{8}' then [BACKSLASH, 0x62]
    else if c == '\U{c}' then [BACKSLASH, 0x66]
    else if c == '\n' then [BACKSLASH, 0x6e]
    else if c == '\r' then [BACKSLASH, 0x72]
    else if c == '\t' then [BACKSLASH, 0x74]
    else if c as int < 0x20 || (html && EscapedForHtml(c)) then HexEscape(c as int)
    else EncodeRune(c)
  }

  function BodyText(html: bool, s: string): (b: seq<byte>)
    ensures b != []
  {
    if s == [] then [QUOTE] else Escape(html, s[0]) + BodyText(html, s[1..])
  }

  // --- Reading undoes writing ---

  lemma HexStep(s: seq<byte>, high: nat, n: nat)
    requires n < 16 && HexNumber(s) == Some(high)
    ensures HexNumber(s + [HexDigit(n)]) == Some(high * 16 + n)
  {
  }

  lemma HexParts(n: nat)
    requires n < 0x1_0000
    ensures n / 0x1000 < 16
    ensures ((n / 0x1000 * 16 + n / 0x100 % 16) * 16 + n / 16 % 16) * 16 + n % 16 == n
  {
  }

  lemma HexFour(a: nat, b: nat, c: nat, d: nat)
    requires a < 16 && b < 16 && c < 16 && d < 16
    ensures HexNumber([HexDigit(a), HexDigit(b), HexDigit(c), HexDigit(d)]) == Some(((a * 16 + b) * 16 + c) * 16 + d)
  {
    hide HexDigit, HexValue;
    var s := [] + [HexDigit(a)] + [HexDigit(b)] + [HexDigit(c)];
    HexStep([], 0, a);
    HexStep([] + [HexDigit(a)], a, b);
    HexStep([] + [HexDigit(a)] + [HexDigit(b)], a * 16 + b, c);
    HexStep(s, (a * 16 + b) * 16 + c, d);
    assert s + [HexDigit(d)] == [HexDigit(a), HexDigit(b), HexDigit(c), HexDigit(d)];
  }

  lemma HexEscapeReads(n: nat, rest: seq<byte>)
    requires n < 0x1_0000
    ensures UnitAt(HexEscape(n) + rest) == Some(n)
  {
    hide HexNumber, HexDigit;
    HexParts(n);
    HexFour(n / 0x1000, n / 0x100 % 16, n / 16 % 16, n % 16);
    var s := HexEscape(n) + rest;
    assert s[2..6] == HexEscape(n)[2..];
    assert s[2..6] == [HexDigit(n / 0x1000), HexDigit(n / 0x100 % 16), HexDigit(n / 16 % 16), HexDigit(n % 16)];
  }

  lemma CharOfInt(c: char)
    requires c as int < 0xd800
    ensures UnitChar(c as int) == c
  {
  }

  lemma EscapeReads(strict: bool, html: bool, c: char, rest: seq<byte>)
    ensures var e := Escape(html, c);
            && e != [] && e[0] != QUOTE && (e + rest)[0] == e[0] && (e + rest)[|e|..] == rest
            && NextChar(strict, e + rest) == Some((c, |e|))
  {
    hide DecodeRune, HexNumber;
    var e := Escape(html, c);
    var s := e + rest;
    assert s[|e|..] == rest;
    if c in {'\"', '\\', '\U{8}', '\U{c}', '\n', '\r', '\t'} {
      assert s[0] == BACKSLASH && s[1] == e[1];
    } else if c as int < 0x20 || (html && EscapedForHtml(c)) {
      assert c as int < 0xd800;
      HexEscapeReads(c as int, rest);
      CharOfInt(c);
      assert s[0] == BACKSLASH && s[1] == LOWER_U;
    } else {
      DecodeEncoded(c, rest);
    }
  }

  /** A written string is read back as it was, whatever follows. */
  lemma {:induction false} BodyReads(strict: bool, html: bool, text: string, rest: seq<byte>)
    ensures ReadBody(strict, BodyText(html, text) + rest) == Some((text, rest))
    decreases |text|
  {
    hide NextChar, Escape;
    var s := BodyText(html, text) + rest;
    if text == [] {
      assert s[1..] == rest;
    } else {
      var e, tail := Escape(html, text[0]), BodyText(html, text[1..]);
      assert s == e + (tail + rest);
      EscapeReads(strict, html, text[0], tail + rest);
      BodyReads(strict, html, text[1..], rest);
      assert [text[0]] + text[1..] == text;
    }
  }

  /** A written string of valid scalars passes the screen. */
  lemma {:induction false} BodyPasses(html: bool, text: string, rest: seq<byte>)
    requires ValidScalars(text)
    ensures Inside(BodyText(html, text) + rest) == Outside(rest)
    decreases |text|
  {
    hide NextChar, Escape, IsNoncharacter;
    var s := BodyText(html, text) + rest;
    if text == [] {
      assert s[1..] == rest;
    } else {
      var e, tail := Escape(html, text[0]), BodyText(html, text[1..]);
      assert s == e + (tail + rest);
      EscapeReads(true, html, text[0], tail + rest);
      assert text[0] in text && forall c <- text[1..] :: c in text;
      BodyPasses(html, text[1..], rest);
    }
  }

  /** A string literal that passed the screen is read with no character replaced. */
  lemma {:induction false} ScreenedBody(s: seq<byte>)
    requires Inside(s)
    ensures ReadBody(false, s) == ReadBody(true, s)
    ensures ReadBody(true, s).Some? && ValidScalars(ReadBody(true, s).value.0) && Outside(ReadBody(true, s).value.1)
    decreases |s|
  {
    hide NextChar, IsNoncharacter;
    if s[0] != QUOTE {
      StrictIsLenient(s);
      ScreenedBody(s[NextChar(true, s).value.1..]);
    }
  }

  lemma StrictIsLenient(s: seq<byte>)
    requires s != [] && NextChar(true, s).Some?
    ensures NextChar(false, s) == NextChar(true, s)
  {
  }
}
