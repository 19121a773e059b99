/** JSON number literals: the grammar, canonicalJSONNumber, and its laws. */
module NumberText {
  import opened Common
  import opened Decimal
  import opened CanonicalNumber

  // --- The number grammar of RFC 8259 section 6, scanned as far as it goes ---

  function DigitRun(s: seq<byte>): (n: nat)
    ensures n <= |s| && IsDigits(s[..n]) && (n < |s| ==> !IsDigit(s[n]))
  {
    if s == [] || !IsDigit(s[0]) then 0
    else
      var n := 1 + DigitRun(s[1..]);
      assert forall k :: 1 <= k < n ==> s[k] == s[1..][k - 1];
      n
  }

  function ScanWhole(s: seq<byte>): Option<nat> {
    if s == [] || !IsDigit(s[0]) then None
    else if s[0] == ZERO then Some(1)
    else Some(DigitRun(s))
  }

  function ScanFrac(s: seq<byte>): Option<nat> {
    if s == [] || s[0] != DOT then Some(0)
    else
      var n := DigitRun(s[1..]);
      if n == 0 then None else Some(1 + n)
  }

  function ScanExp(s: seq<byte>): Option<nat> {
    if s == [] || !(s[0] == LOWER_E || s[0] == UPPER_E) then Some(0)
    else
      var sign := if |s| > 1 && (s[1] == PLUS || s[1] == MINUS) then 1 else 0;
      var n := DigitRun(s[1 + sign..]);
      if n == 0 then None else Some(1 + sign + n)
  }

  // The length of a fraction and an exponent at the front of s.
  function ScanTail(s: seq<byte>): (r: Option<nat>)
    ensures r.Some? ==> r.value <= |s|
  {
    match ScanFrac(s)
    case None => None
    case Some(j) =>
      match ScanExp(s[j..])
      case None => None
      case Some(k) => Some(j + k)
  }

  function ScanUnsigned(s: seq<byte>): (r: Option<nat>)
    ensures r.Some? ==> 0 < r.value <= |s|
  {
    match ScanWhole(s)
    case None => None
    case Some(i) =>
      match ScanTail(s[i..])
      case None => None
      case Some(j) => Some(i + j)
  }

  // The length of the number at the front of s.
  function ScanNumber(s: seq<byte>): (r: Option<nat>)
    ensures r.Some? ==> 0 < r.value <= |s|
  {
    if s != [] && s[0] == MINUS then
      match ScanUnsigned(s[1..])
      case None => None
      case Some(n) => Some(1 + n)
    else ScanUnsigned(s)
  }

  predicate IsNumberText(raw: seq<byte>) { ScanNumber(raw) == Some(|raw|) }

  // Nothing that follows a number in JSON text can be read as part of it.
  predicate EndsNumber(rest: seq<byte>) {
    rest == [] || !(IsDigit(rest[0]) || rest[0] == DOT || rest[0] == LOWER_E || rest[0] == UPPER_E)
  }

  predicate Grammatical(n: Numeral) {
    && DigitsOnly(n) && n.whole != []
    && (n.whole[0] == ZERO ==> |n.whole| == 1)
    && (n.exp.Some? ==> n.exp.value.1 != [])
  }

  // --- What the scan accepts ---

  // A number literal as the grammar spells it: the sign, the whole part, the point and its digits, the exponent mark,
  // its sign and its digits.
  datatype Spelling = Spelling(
    minus: seq<byte>, whole: seq<byte>, point: seq<byte>, frac: seq<byte>,
    mark: seq<byte>, sign: seq<byte>, digits: seq<byte>)

  function Spell(p: Spelling): seq<byte> {
    p.minus + (p.whole + ((p.point + p.frac) + (p.mark + (p.sign + p.digits))))
  }

  predicate WellSpelt(p: Spelling) {
    && p.minus in {[], [MINUS]}
    && p.whole != [] && IsDigits(p.whole) && (p.whole[0] == ZERO ==> |p.whole| == 1)
    && p.point in {[], [DOT]} && IsDigits(p.frac) && (p.point == [] <==> p.frac == [])
    && p.mark in {[], [LOWER_E], [UPPER_E]} && p.sign in {[], [PLUS], [MINUS]} && IsDigits(p.digits)
    && (p.mark == [] <==> p.digits == []) && (p.mark == [] ==> p.sign == [])
  }

  lemma ScanExpSpells(s: seq<byte>) returns (mark: seq<byte>, sign: seq<byte>, digits: seq<byte>)
    requires ScanExp(s) == Some(|s|)
    ensures s == mark + (sign + digits) && IsDigits(digits)
    ensures mark in {[], [LOWER_E], [UPPER_E]} && sign in {[], [PLUS], [MINUS]}
    ensures (mark == [] <==> digits == []) && (mark == [] ==> sign == [])
  {
    mark, sign, digits := [], [], [];
    if s != [] {
      mark := [s[0]];
      var n := if |s| > 1 && (s[1] == PLUS || s[1] == MINUS) then 1 else 0;
      sign, digits := if n == 1 then [s[1]] else [], s[1 + n..];
      assert digits[..DigitRun(digits)] == digits;
      assert s == mark + (sign + digits);
    }
  }

  lemma ScanFracSpells(s: seq<byte>) returns (point: seq<byte>, frac: seq<byte>)
    requires ScanFrac(s).Some? && ScanFrac(s).value <= |s|
    ensures s[..ScanFrac(s).value] == point + frac && IsDigits(frac)
    ensures point in {[], [DOT]} && (point == [] <==> frac == [])
  {
    point, frac := [], [];
    var n := ScanFrac(s).value;
    if n > 0 {
      point, frac := [DOT], s[1..][..n - 1];
      assert s[..n] == point + frac;
    }
  }

  lemma ScanUnsignedSpells(s: seq<byte>) returns (p: Spelling)
    requires ScanUnsigned(s) == Some(|s|)
    ensures WellSpelt(p) && p.minus == [] && Spell(p) == s
  {
    hide ScanFrac, ScanExp, DigitRun;
    var i := ScanWhole(s).value;
    var t := s[i..];
    FracFits(t);
    var j := ScanFrac(t).value;
    var point, frac := ScanFracSpells(t);
    var mark, sign, digits := ScanExpSpells(t[j..]);
    p := Spelling([], s[..i], point, frac, mark, sign, digits);
    assert s == s[..i] + (t[..j] + t[j..]);
    WholeIsDigits(s);
    assert [] + s == s;
  }

  lemma FracFits(t: seq<byte>)
    requires ScanFrac(t).Some?
    ensures ScanFrac(t).value <= |t|
  {
  }

  lemma WholeIsDigits(s: seq<byte>)
    requires ScanWhole(s).Some? && ScanWhole(s).value <= |s|
    ensures var w := s[..ScanWhole(s).value]; w != [] && IsDigits(w) && (w[0] == ZERO ==> |w| == 1)
  {
    if s[0] != ZERO {
      assert DigitRun(s) > 0;
    }
  }

  lemma SpeltUnsignedScans(p: Spelling)
    requires WellSpelt(p) && p.minus == []
    ensures ScanUnsigned(Spell(p)) == Some(|Spell(p)|)
  {
    hide DigitRun, IsDigits, IsDigit, ScanWhole, ScanFrac, ScanExp;
    var exp := p.mark + (p.sign + p.digits);
    var tail := (p.point + p.frac) + exp;
    var s := p.whole + tail;
    assert Spell(p) == s;
    SpeltExpScans(p);
    SpeltFracScans(p, exp);
    SpeltWholeScans(p, tail);
    hide WellSpelt;
    SuffixOf(p.point + p.frac, exp);
    SuffixOf(p.whole, tail);
  }

  lemma SpeltExpScans(p: Spelling)
    requires WellSpelt(p)
    ensures var exp := p.mark + (p.sign + p.digits);
            ScanExp(exp) == Some(|exp|) && (exp == [] || (!IsDigit(exp[0]) && exp[0] != DOT))
  {
    hide ScanExp, IsDigits;
    var exp := p.mark + (p.sign + p.digits);
    if p.mark == [] {
      assert exp == [];
      NoExpScans();
    } else if p.sign == [] {
      assert exp == [p.mark[0]] + p.digits;
      PlainExpScans(p.mark[0], p.digits);
    } else {
      assert exp == [p.mark[0], p.sign[0]] + p.digits;
      SignedExpScans(p.mark[0], p.sign[0], p.digits);
    }
  }

  lemma NoExpScans()
    ensures ScanExp([]) == Some(0)
  {
  }

  lemma PlainExpScans(mark: byte, ds: seq<byte>)
    requires mark in {LOWER_E, UPPER_E} && IsDigits(ds) && ds != []
    ensures ScanExp([mark] + ds) == Some(1 + |ds|)
  {
    hide DigitRun;
    DigitRunIs(ds, []);
    assert ds + [] == ds;
    var s := [mark] + ds;
    assert s[1..] == ds && s[1] == ds[0] && IsDigit(ds[0]);
  }

  lemma SignedExpScans(mark: byte, sign: byte, ds: seq<byte>)
    requires mark in {LOWER_E, UPPER_E} && sign in {PLUS, MINUS} && IsDigits(ds) && ds != []
    ensures ScanExp([mark, sign] + ds) == Some(2 + |ds|)
  {
    hide DigitRun, IsDigits;
    DigitRunIs(ds, []);
    assert ds + [] == ds;
    assert ([mark, sign] + ds)[2..] == ds;
  }

  lemma SpeltFracScans(p: Spelling, exp: seq<byte>)
    requires WellSpelt(p) && (exp == [] || (!IsDigit(exp[0]) && exp[0] != DOT))
    ensures var s := (p.point + p.frac) + exp;
            ScanFrac(s) == Some(|p.point + p.frac|) && (s == [] || !IsDigit(s[0]))
  {
    var s := (p.point + p.frac) + exp;
    if p.point != [] {
      assert s[1..] == p.frac + exp;
      DigitRunIs(p.frac, exp);
    } else {
      assert s == exp;
    }
  }

  lemma SpeltWholeScans(p: Spelling, rest: seq<byte>)
    requires WellSpelt(p) && (rest == [] || !IsDigit(rest[0]))
    ensures ScanWhole(p.whole + rest) == Some(|p.whole|)
  {
    ScanWholeIs(p.whole, rest);
  }

  /** A text is a number literal exactly when the grammar spells it: an optional minus, digits without a leading zero,
      and optionally a point with digits and an exponent with an optional sign and digits. */
  lemma NumberTextIff(raw: seq<byte>)
    ensures IsNumberText(raw) <==> exists p :: WellSpelt(p) && Spell(p) == raw
  {
    hide ScanUnsigned, IsDigits;
    if IsNumberText(raw) {
      if raw[0] == MINUS {
        var p := ScanUnsignedSpells(raw[1..]);
        assert Spell(p.(minus := [MINUS])) == [MINUS] + Spell(p) == raw;
      } else {
        var p := ScanUnsignedSpells(raw);
      }
    }
    if p :| WellSpelt(p) && Spell(p) == raw {
      var q := p.(minus := []);
      SpeltUnsignedScans(q);
      assert raw == p.minus + Spell(q);
      SpeltStarts(q);
      assert p.minus != [] ==> raw[1..] == Spell(q);
    }
  }

  lemma SpeltStarts(p: Spelling)
    requires WellSpelt(p) && p.minus == []
    ensures Spell(p) != [] && Spell(p)[0] != MINUS
  {
    assert Spell(p)[0] == p.whole[0];
  }

  lemma {:induction false} DigitRunIs(ds: seq<byte>, rest: seq<byte>)
    requires IsDigits(ds) && (rest == [] || !IsDigit(rest[0]))
    ensures DigitRun(ds + rest) == |ds|
    decreases |ds|
  {
    if ds == [] {
      assert ds + rest == rest;
    } else {
      assert (ds + rest)[1..] == ds[1..] + rest;
      DigitRunIs(ds[1..], rest);
    }
  }

  lemma SuffixOf(a: seq<byte>, b: seq<byte>)
    ensures (a + b)[|a|..] == b
  {
  }

  lemma ScanWholeIs(whole: seq<byte>, rest: seq<byte>)
    requires IsDigits(whole) && whole != [] && (whole[0] == ZERO ==> |whole| == 1)
    requires rest == [] || !IsDigit(rest[0])
    ensures ScanWhole(whole + rest) == Some(|whole|)
  {
    DigitRunIs(whole, rest);
    assert (whole + rest)[0] == whole[0];
  }

  lemma ScanFracIs(frac: seq<byte>, rest: seq<byte>)
    requires IsDigits(frac) && (rest == [] || !(IsDigit(rest[0]) || rest[0] == DOT))
    ensures ScanFrac(PointText(frac) + rest) == Some(|PointText(frac)|)
  {
    if frac != [] {
      assert (PointText(frac) + rest)[1..] == frac + rest;
      DigitRunIs(frac, rest);
    } else {
      assert PointText(frac) + rest == rest;
    }
  }

  lemma ScanExpIs(exp: Option<(bool, seq<byte>)>, rest: seq<byte>)
    requires (exp.Some? ==> IsDigits(exp.value.1) && exp.value.1 != []) && EndsNumber(rest)
    ensures ScanExp(ExpText(exp) + rest) == Some(|ExpText(exp)|)
  {
    match exp
    case None => assert ExpText(exp) + rest == rest;
    case Some((neg, ds)) =>
      assert (ExpText(exp) + rest)[2..] == ds + rest;
      DigitRunIs(ds, rest);
  }

  lemma ScanTailIs(frac: seq<byte>, exp: Option<(bool, seq<byte>)>, rest: seq<byte>)
    requires IsDigits(frac) && (exp.Some? ==> IsDigits(exp.value.1) && exp.value.1 != []) && EndsNumber(rest)
    ensures ScanTail(PointText(frac) + (ExpText(exp) + rest)) == Some(|PointText(frac)| + |ExpText(exp)|)
  {
    hide ScanFrac, ScanExp, IsDigits, PointText, ExpText;
    var x := ExpText(exp) + rest;
    ExpStarts(exp, rest);
    ScanFracIs(frac, x);
    ScanExpIs(exp, rest);
    SuffixOf(PointText(frac), x);
  }

  lemma ScanUnsignedIs(n: Numeral, rest: seq<byte>)
    requires Grammatical(n) && EndsNumber(rest)
    ensures ScanUnsigned(BodyText(n) + rest) == Some(|BodyText(n)|)
  {
    hide ScanWhole, ScanTail, IsDigits, PointText, ExpText;
    var f := PointText(n.frac) + (ExpText(n.exp) + rest);
    ExpStarts(n.exp, rest);
    PointStarts(n.frac, ExpText(n.exp) + rest);
    ScanWholeIs(n.whole, f);
    ScanTailIs(n.frac, n.exp, rest);
    SuffixOf(n.whole, f);
    assert BodyText(n) + rest == n.whole + f;
  }

  /** The scanner takes a well-formed number whole and stops where it ends. */
  lemma ScanNumberIs(n: Numeral, rest: seq<byte>)
    requires Grammatical(n) && EndsNumber(rest)
    ensures ScanNumber(Text(n) + rest) == Some(|Text(n)|)
  {
    hide ScanUnsigned, BodyText, EndsNumber;
    ScanUnsignedIs(n, rest);
    SignOfText(n);
    assert (Text(n) + rest)[0] == Text(n)[0];
    if n.neg {
      assert (Text(n) + rest)[1..] == BodyText(n) + rest;
    }
  }

  lemma ExpStarts(exp: Option<(bool, seq<byte>)>, rest: seq<byte>)
    requires EndsNumber(rest)
    ensures var x := ExpText(exp) + rest; x == [] || !(IsDigit(x[0]) || x[0] == DOT)
  {
  }

  lemma PointStarts(frac: seq<byte>, x: seq<byte>)
    requires x == [] || !(IsDigit(x[0]) || x[0] == DOT)
    ensures var f := PointText(frac) + x; f == [] || !IsDigit(f[0])
  {
  }

  // --- Numbers followed by more text ---

  lemma {:induction false} DigitRunExtends(s: seq<byte>, rest: seq<byte>)
    requires rest == [] || !IsDigit(rest[0])
    ensures DigitRun(s + rest) == DigitRun(s)
    decreases |s|
  {
    if s == [] {
      assert s + rest == rest;
    } else {
      assert (s + rest)[1..] == s[1..] + rest;
      DigitRunExtends(s[1..], rest);
    }
  }

  lemma DropOfAppend(s: seq<byte>, rest: seq<byte>, i: nat)
    requires i <= |s|
    ensures (s + rest)[i..] == s[i..] + rest
  {
  }

  lemma ScanWholeExtends(s: seq<byte>, rest: seq<byte>)
    requires EndsNumber(rest) && ScanWhole(s).Some?
    ensures ScanWhole(s + rest) == ScanWhole(s)
  {
    DigitRunExtends(s, rest);
    assert (s + rest)[0] == s[0];
  }

  lemma ScanFracExtends(s: seq<byte>, rest: seq<byte>)
    requires EndsNumber(rest) && ScanFrac(s).Some?
    ensures ScanFrac(s + rest) == ScanFrac(s)
  {
    if s == [] {
      assert s + rest == rest;
    } else {
      DropOfAppend(s, rest, 1);
      DigitRunExtends(s[1..], rest);
    }
  }

  lemma ScanExpExtends(s: seq<byte>, rest: seq<byte>)
    requires EndsNumber(rest) && ScanExp(s).Some?
    ensures ScanExp(s + rest) == ScanExp(s)
  {
    if s == [] {
      assert s + rest == rest;
    } else if s[0] == LOWER_E || s[0] == UPPER_E {
      assert |s| > 1 && (s + rest)[1] == s[1];
      var sign := if s[1] == PLUS || s[1] == MINUS then 1 else 0;
      DropOfAppend(s, rest, 1 + sign);
      DigitRunExtends(s[1 + sign..], rest);
    }
  }

  lemma ScanUnsignedExtends(s: seq<byte>, rest: seq<byte>)
    requires EndsNumber(rest) && ScanUnsigned(s).Some?
    ensures ScanUnsigned(s + rest) == ScanUnsigned(s)
  {
    hide ScanWhole, ScanFrac, ScanExp, EndsNumber;
    ScanUnsignedBounds(s);
    var i := ScanWhole(s).value;
    var j := ScanFrac(s[i..]).value;
    ScanWholeExtends(s, rest);
    DropOfAppend(s, rest, i);
    ScanFracExtends(s[i..], rest);
    DropOfAppend(s[i..], rest, j);
    ScanExpExtends(s[i..][j..], rest);
  }

  lemma ScanUnsignedBounds(s: seq<byte>)
    requires ScanUnsigned(s).Some?
    ensures ScanWhole(s).Some? && ScanWhole(s).value <= |s|
    ensures var t := s[ScanWhole(s).value..]; ScanFrac(t).Some? && ScanFrac(t).value <= |t|
  {
  }

  /** A number is read whole in front of anything that can follow it. */
  lemma NumberTextScans(raw: seq<byte>, rest: seq<byte>)
    requires IsNumberText(raw) && EndsNumber(rest)
    ensures ScanNumber(raw + rest) == Some(|raw|)
  {
    hide ScanUnsigned, EndsNumber;
    assert raw != [] && (raw + rest)[0] == raw[0];
    if raw[0] == MINUS {
      DropOfAppend(raw, rest, 1);
      ScanUnsignedExtends(raw[1..], rest);
    } else {
      ScanUnsignedExtends(raw, rest);
    }
  }

  predicate IsNumberByte(b: byte) { IsDigit(b) || b == MINUS || b == PLUS || b == DOT || b == LOWER_E || b == UPPER_E }

  predicate NumberBytes(s: seq<byte>) { forall k :: 0 <= k < |s| ==> IsNumberByte(s[k]) }

  lemma TailBytes(s: seq<byte>)
    requires ScanTail(s).Some?
    ensures NumberBytes(s[..ScanTail(s).value])
  {
    hide ScanExp;
    var j := ScanFrac(s).value;
    FracBytes(s);
    ExpBytes(s[j..]);
    var n := ScanTail(s).value;
    assert s[..n] == s[..j] + s[j..][..n - j];
  }

  lemma FracBytes(s: seq<byte>)
    requires ScanFrac(s).Some?
    ensures ScanFrac(s).value <= |s| && NumberBytes(s[..ScanFrac(s).value])
  {
  }

  lemma ExpBytes(s: seq<byte>)
    requires ScanExp(s).Some?
    ensures ScanExp(s).value <= |s| && NumberBytes(s[..ScanExp(s).value])
  {
  }

  lemma UnsignedBytes(s: seq<byte>)
    requires ScanUnsigned(s).Some?
    ensures NumberBytes(s[..ScanUnsigned(s).value])
  {
    hide ScanTail;
    var i := ScanWhole(s).value;
    TailBytes(s[i..]);
    var n := ScanUnsigned(s).value;
    assert s[..n] == s[..i] + s[i..][..n - i];
  }

  /** Digits, a point, signs and an exponent mark are all that a number is made of. */
  lemma ScannedBytes(s: seq<byte>)
    requires ScanNumber(s).Some?
    ensures NumberBytes(s[..ScanNumber(s).value])
    ensures IsDigit(s[0]) || s[0] == MINUS
  {
    hide ScanTail;
    if s[0] == MINUS {
      UnsignedBytes(s[1..]);
      var n := ScanNumber(s).value;
      assert s[..n] == [s[0]] + s[1..][..n - 1];
    } else {
      UnsignedBytes(s);
    }
  }

  lemma CanonicalNumeralIsGrammatical(s: Sci)
    requires WellFormed(s)
    ensures Grammatical(CanonicalNumeral(s))
  {
    CanonicalNumeralValue(s);
    hide NumeralValue, Itoa;
    assert s.digits[..1] + s.digits[1..] == s.digits;
  }

  // --- Doubles ---

  // `round` takes an exact decimal to the double nearest to it, `None` on overflow; `shortest` gives
  // the fewest digits that round back to a nonzero double.
  datatype Floats = Floats(round: Dec -> Option<Dec>, shortest: Dec -> Sci)

  const ZERO_VALUE := Dec(false, 0, 0)

  /** Parsing undoes shortest formatting, and zero is a double. */
  ghost predicate Lawful(fl: Floats) {
    && fl.round(ZERO_VALUE) == Some(ZERO_VALUE)
    && (forall d :: fl.round(d).Some? && fl.round(d).value != ZERO_VALUE ==>
          var v := fl.round(d).value;
          WellFormed(fl.shortest(v)) && fl.round(SciValue(fl.shortest(v))) == Some(v))
  }

  const EXACT_LIMIT := 0x20_0000_0000_0000  // 2^53

  /** Integers up to 2^53 are doubles, and their shortest digits denote them exactly. */
  ghost predicate ExactIntegers(fl: Floats) {
    forall neg, n: nat {:trigger Value(neg, n, 0)} :: 0 < n <= EXACT_LIMIT ==>
      var v := Value(neg, n, 0);
      fl.round(v) == Some(v) && WellFormed(fl.shortest(v)) && SciValue(fl.shortest(v)) == v
  }

  const ZERO_TEXT: seq<byte> := [ZERO]

  // canonicalJSONNumber on a literal of the number grammar.
  function CanonicalNumberText(fl: Floats, raw: seq<byte>): Option<seq<byte>> {
    if !IsNumberText(raw) then None
    else
      match fl.round(TextValue(raw))
      case None => None
      case Some(v) =>
        if v == ZERO_VALUE then Some(ZERO_TEXT)
        else
          var s := fl.shortest(v);
          if s.digits == [] then None else Recast(FormatG(s))
  }

  lemma ZeroScans(rest: seq<byte>)
    requires EndsNumber(rest)
    ensures ScanNumber(ZERO_TEXT + rest) == Some(1)
  {
  }

  lemma ZeroText(fl: Floats)
    requires Lawful(fl)
    ensures CanonicalNumberText(fl, ZERO_TEXT) == Some(ZERO_TEXT)
    ensures TextValue(ZERO_TEXT) == ZERO_VALUE
  {
    hide ScanNumber, Recast, FormatG, Parts;
    var n := Numeral(false, [ZERO], [], None);
    assert Text(n) == ZERO_TEXT;
    ZeroScans([]);
    assert ZERO_TEXT + [] == ZERO_TEXT;
    PartsOfText(n);
    assert [ZERO] + [] == [ZERO] && [ZERO][..0] == [];
    assert NatOf([ZERO]) == 0;
  }

  lemma CanonicalTextOf(fl: Floats, raw: seq<byte>)
    requires Lawful(fl) && CanonicalNumberText(fl, raw).Some? && fl.round(TextValue(raw)).value != ZERO_VALUE
    ensures var s := fl.shortest(fl.round(TextValue(raw)).value);
            && WellFormed(s)
            && CanonicalNumberText(fl, raw) == Some(Text(CanonicalNumeral(s)))
            && TextValue(Text(CanonicalNumeral(s))) == SciValue(s)
            && IsNumberText(Text(CanonicalNumeral(s)))
  {
    var v := fl.round(TextValue(raw)).value;
    var s := fl.shortest(v);
    hide ScanNumber, Recast, FormatG, CanonicalNumeral, Text, Parts, TextValue;
    RecastIsCanonical(s);
    CanonicalNumeralIsGrammatical(s);
    CanonicalNumeralValue(s);
    ScanNumberIs(CanonicalNumeral(s), []);
    assert Text(CanonicalNumeral(s)) + [] == Text(CanonicalNumeral(s));
    TextOfNumeralDenotes(CanonicalNumeral(s));
  }

  lemma TextOfNumeralDenotes(n: Numeral)
    requires DigitsOnly(n) && n.whole != []
    ensures TextValue(Text(n)) == NumeralValue(n)
  {
    PartsOfText(n);
  }

  /** Canonicalising a number twice is canonicalising it once, the text is itself a JSON number, and it
      still rounds to the same double. */
  lemma CanonicalNumberIdempotent(fl: Floats, raw: seq<byte>)
    requires Lawful(fl) && CanonicalNumberText(fl, raw).Some?
    ensures var t := CanonicalNumberText(fl, raw).value;
            && IsNumberText(t) && CanonicalNumberText(fl, t) == Some(t)
            && fl.round(TextValue(t)) == fl.round(TextValue(raw))
  {
    hide ScanNumber, Recast, FormatG, TextValue;
    ZeroText(fl);
    if fl.round(TextValue(raw)).value != ZERO_VALUE {
      CanonicalTextOf(fl, raw);
    }
  }

  /** Two literals get the same canonical text exactly when they round to the same double. */
  lemma SameTextIffSameDouble(fl: Floats, x: seq<byte>, y: seq<byte>)
    requires Lawful(fl) && CanonicalNumberText(fl, x).Some? && CanonicalNumberText(fl, y).Some?
    ensures CanonicalNumberText(fl, x) == CanonicalNumberText(fl, y) <==>
            fl.round(TextValue(x)) == fl.round(TextValue(y))
  {
    hide ScanNumber, Recast, FormatG, TextValue;
    CanonicalNumberIdempotent(fl, x);
    CanonicalNumberIdempotent(fl, y);
  }

  // --- Integers ---

  function IntText(neg: bool, n: nat): seq<byte> { SignText(neg) + Itoa(n) }

  lemma {:induction false} TenAdd(a: nat, b: nat)
    ensures Ten(a + b) == Ten(a) * Ten(b)
    decreases a
  {
    if a > 0 {
      TenAdd(a - 1, b);
      Reassociate(Ten(b), Ten(a - 1));
    }
  }

  lemma {:induction false} TenGrows(a: nat, b: nat)
    requires a <= b
    ensures Ten(a) <= Ten(b)
    decreases b - a
  {
    if a < b {
      TenGrows(a, b - 1);
    }
  }

  lemma {:induction false} NatOfScaled(ds: seq<byte>, k: nat)
    requires IsDigits(ds)
    ensures NatOf(ds + Zeros(k)) == NatOf(ds) * Ten(k)
    decreases k
  {
    var z := ds + Zeros(k);
    if k == 0 {
      assert z == ds;
    } else {
      assert z[..|z| - 1] == ds + Zeros(k - 1);
      NatOfScaled(ds, k - 1);
      TenTimes(NatOf(ds), k);
    }
  }

  lemma Sixteen()
    ensures Ten(16) > EXACT_LIMIT
  {
    TenAdd(8, 8);
    assert Ten(8) == 1_0000_0000 by {
      TenAdd(4, 4);
      assert Ten(4) == 1_0000;
    }
  }

  // The shortest digits of an integer, scaled up, are its decimal text.
  lemma ShortestOfInteger(s: Sci, neg: bool, n: nat)
    requires WellFormed(s) && 0 < n <= EXACT_LIMIT && SciValue(s) == Value(neg, n, 0)
    ensures var k := s.exp - (|s.digits| - 1);
            && s.neg == neg && k >= 0 && s.exp < 21 && Itoa(n) == s.digits + Zeros(k)
  {
    var nd := |s.digits|;
    var k := s.exp - (nd - 1);
    var j := ValueUnscaled(neg, n, 0);
    assert NatOf(s.digits) % 10 != 0;
    assert SciValue(s) == Dec(s.neg, NatOf(s.digits), k);
    assert k == j && n == NatOf(s.digits) * Ten(k);
    NatOfScaled(s.digits, k);
    ItoaIsTheOnlyText(s.digits + Zeros(k));
    NonzeroIsPositive(s.digits);
    ExponentIsSmall(NatOf(s.digits), nd - 1, k);
  }

  lemma ExponentIsSmall(m: nat, a: nat, k: nat)
    requires m >= Ten(a) && m * Ten(k) <= EXACT_LIMIT
    ensures a + k < 16
  {
    hide Ten;
    Sixteen();
    TenAdd(a, k);
    TimesGrows(Ten(a), m, Ten(k));
    if a + k >= 16 {
      TenGrows(16, a + k);
    }
  }

  lemma TimesGrows(x: nat, y: nat, z: nat)
    requires x <= y
    ensures x * z <= y * z
  {
  }

  lemma IntTextDenotes(neg: bool, n: nat)
    ensures var x := Numeral(neg, Itoa(n), [], None);
            && Text(x) == IntText(neg, n) && Grammatical(x)
            && IsNumberText(IntText(neg, n)) && TextValue(IntText(neg, n)) == Value(neg, n, 0)
  {
    var x := Numeral(neg, Itoa(n), [], None);
    hide Itoa, ScanNumber, Parts;
    assert BodyText(x) == Itoa(n);
    if n == 0 {
      ItoaIsTheOnlyText([ZERO]);
      assert [ZERO][..0] == [];
      assert NatOf([ZERO]) == 0;
    }
    ScanNumberIs(x, []);
    assert Text(x) + [] == Text(x);
    PartsOfText(x);
    assert Itoa(n) + [] == Itoa(n);
  }

  /** Every integer from -2^53 to 2^53 is written as its plain decimal text. */
  lemma IntegersKeepTheirText(fl: Floats, neg: bool, n: nat)
    requires Lawful(fl) && ExactIntegers(fl) && n <= EXACT_LIMIT && (neg ==> n > 0)
    ensures CanonicalNumberText(fl, IntText(neg, n)) == Some(IntText(neg, n))
  {
    hide ScanNumber, Recast, FormatG, TextValue, Itoa, Value, Text;
    IntTextDenotes(neg, n);
    if n == 0 {
      ItoaIsTheOnlyText([ZERO]);
      assert [ZERO][..0] == [] && NatOf([ZERO]) == 0;
      ZeroText(fl);
      assert SignText(false) + ZERO_TEXT == ZERO_TEXT;
    } else {
      var v := Value(neg, n, 0);
      var s := fl.shortest(v);
      NonzeroValue(neg, n);
      ShortestOfInteger(s, neg, n);
      RecastIsCanonical(s);
      var k := s.exp - (|s.digits| - 1);
      assert s.digits[..1] + s.digits[1..] == s.digits;
      assert CanonicalNumeral(s) == Numeral(neg, Itoa(n), [], None);
    }
  }

  lemma NonzeroValue(neg: bool, n: nat)
    requires n > 0
    ensures Value(neg, n, 0) != ZERO_VALUE
  {
    var j := ValueUnscaled(neg, n, 0);
  }

  /** The laws are met by unbounded decimal arithmetic, so nothing above holds for want of a model. */
  lemma LawfulFloatsExist()
    ensures exists fl :: Lawful(fl) && ExactIntegers(fl)
  {
    var fl := Floats(
      (d: Dec) => Some(Value(d.neg, d.m, d.e)),
      (d: Dec) => Sci(d.neg, Itoa(d.m), d.e + |Itoa(d.m)| - 1));
    forall neg, m: nat, e ensures var v := Value(neg, m, e);
                                  Value(v.neg, v.m, v.e) == v && (v != ZERO_VALUE ==> v.m % 10 != 0)
    {
      var j := ValueUnscaled(neg, m, e);
    }
    forall v: Dec | v.m % 10 != 0 ensures WellFormed(fl.shortest(v)) && SciValue(fl.shortest(v)) == v {
      var ds := Itoa(v.m);
      assert NatOf(ds) % 10 == (ds[|ds| - 1] as int - 0x30) % 10;
    }
    forall neg, n: nat | 0 < n <= EXACT_LIMIT ensures Value(neg, n, 0).m % 10 != 0 {
      var j := ValueUnscaled(neg, n, 0);
    }
    assert Lawful(fl);
    assert ExactIntegers(fl);
  }
}
