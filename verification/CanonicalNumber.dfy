/**
 Canonical number text. A double is modelled by the exact decimal it stands for; how decimals round
 to doubles and which digits are shortest are parameters with the laws the encoder relies on.
 */
module CanonicalNumber {
  import opened Common
  import opened Decimal

  // --- expandCanonicalDecimal ---

  function WithoutDots(s: seq<byte>): seq<byte> {
    if s == [] then [] else if s[0] == DOT then WithoutDots(s[1..]) else [s[0]] + WithoutDots(s[1..])
  }

  // The digits with the point before the one at `at`.
  function Placed(digits: seq<byte>, at: int): seq<byte> {
    if at <= 0 then [ZERO] + ([DOT] + (Zeros(-at) + digits))
    else if at >= |digits| then digits + Zeros(at - |digits|)
    else digits[..at] + ([DOT] + digits[at..])
  }

  function ExpandCanonicalDecimal(mantissa: seq<byte>, exponent: int): seq<byte>
    requires mantissa != []
  {
    var neg := mantissa[0] == MINUS;
    var m := if neg then mantissa[1..] else mantissa;
    SignText(neg) + Placed(WithoutDots(m), Index(m, DOT) + exponent)
  }

  // The same in parts.
  function PlacedNumeral(neg: bool, digits: seq<byte>, at: int): Numeral {
    if at <= 0 then Numeral(neg, [ZERO], Zeros(-at) + digits, None)
    else if at >= |digits| then Numeral(neg, digits + Zeros(at - |digits|), [], None)
    else Numeral(neg, digits[..at], digits[at..], None)
  }

  function Expanded(neg: bool, a: seq<byte>, b: seq<byte>, exponent: int): Numeral {
    PlacedNumeral(neg, a + b, |a| + exponent)
  }

  lemma {:induction false} WithoutDotsDistributes(x: seq<byte>, y: seq<byte>)
    ensures WithoutDots(x + y) == WithoutDots(x) + WithoutDots(y)
    decreases |x|
  {
    if x == [] {
      assert x + y == y;
    } else {
      assert (x + y)[1..] == x[1..] + y;
      WithoutDotsDistributes(x[1..], y);
    }
  }

  lemma WithoutDotsIsAppend(a: seq<byte>, b: seq<byte>)
    requires IsDigits(a) && IsDigits(b)
    ensures WithoutDots(a + PointText(b)) == a + b
  {
    hide IsDigits;
    NoDots(a);
    NoDots(b);
    WithoutDotsDistributes(a, PointText(b));
    if b != [] {
      WithoutDotsDistributes([DOT], b);
      assert [DOT][1..] == [];
    }
  }

  lemma {:induction false} NoDots(b: seq<byte>)
    requires IsDigits(b)
    ensures WithoutDots(b) == b
  {
    if b != [] {
      NoDots(b[1..]);
    }
  }

  lemma PlainText(neg: bool, whole: seq<byte>, frac: seq<byte>)
    ensures var n := Numeral(neg, whole, frac, None);
            BodyText(n) == whole + PointText(frac) && Text(n) == SignText(neg) + (whole + PointText(frac))
  {
  }

  lemma PointBefore(neg: bool, digits: seq<byte>, at: int)
    requires digits != [] && at <= 0
    ensures Text(PlacedNumeral(neg, digits, at)) == SignText(neg) + Placed(digits, at)
  {
    hide Text, SignText, Zeros;
    PlainText(neg, [ZERO], Zeros(-at) + digits);
  }

  lemma PointInside(neg: bool, digits: seq<byte>, at: int)
    requires 0 < at < |digits|
    ensures Text(PlacedNumeral(neg, digits, at)) == SignText(neg) + Placed(digits, at)
  {
    hide Text, SignText, Zeros;
    PlainText(neg, digits[..at], digits[at..]);
  }

  lemma PointAfter(neg: bool, digits: seq<byte>, at: int)
    requires 0 < |digits| <= at
    ensures Text(PlacedNumeral(neg, digits, at)) == SignText(neg) + Placed(digits, at)
  {
    hide Text, SignText, Zeros;
    var whole := digits + Zeros(at - |digits|);
    PlainText(neg, whole, []);
    assert whole + PointText([]) == whole;
  }

  lemma ExpandInParts(neg: bool, a: seq<byte>, b: seq<byte>, e: int)
    requires IsDigits(a) && IsDigits(b) && a != []
    ensures var mantissa := Text(Numeral(neg, a, b, None));
            mantissa != [] && ExpandCanonicalDecimal(mantissa, e) == Text(Expanded(neg, a, b, e))
  {
    hide Index, WithoutDots, Placed, PlacedNumeral, Text, BodyText, PointText, IsDigits, SignText;
    SignOfText(Numeral(neg, a, b, None));
    PlainText(neg, a, b);
    WithoutDotsIsAppend(a, b);
    PointAt(a, b);
    PlacedText(neg, a + b, |a| + e);
  }

  lemma PlacedText(neg: bool, digits: seq<byte>, at: int)
    requires digits != []
    ensures Text(PlacedNumeral(neg, digits, at)) == SignText(neg) + Placed(digits, at)
  {
    hide Text, Placed, PlacedNumeral, SignText;
    if at <= 0 {
      PointBefore(neg, digits, at);
    } else if at < |digits| {
      PointInside(neg, digits, at);
    } else {
      PointAfter(neg, digits, at);
    }
  }

  lemma PointAt(a: seq<byte>, b: seq<byte>)
    requires IsDigits(a)
    ensures Index(a + PointText(b), DOT) == |a|
  {
    IndexIs(a + PointText(b), DOT, |a|);
  }

  lemma ExpandedValue(neg: bool, a: seq<byte>, b: seq<byte>, e: int)
    requires IsDigits(a) && IsDigits(b) && a != []
    ensures DigitsOnly(Expanded(neg, a, b, e))
    ensures NumeralValue(Expanded(neg, a, b, e)) == Value(neg, NatOf(a + b), e - |b|)
  {
    var at := |a| + e;
    var digits := a + b;
    hide Value, NatOf;
    if at <= 0 {
      assert [ZERO] + (Zeros(-at) + digits) == Zeros(1 - at) + digits;
      LeadingZeros(1 - at, digits);
    } else if at >= |digits| {
      assert digits + Zeros(at - |digits|) + [] == digits + Zeros(at - |digits|);
      TrailingZeros(neg, digits, at - |digits|, 0);
    } else {
      assert digits[..at] + digits[at..] == digits;
    }
  }

  /** expandCanonicalDecimal denotes exactly the mantissa times ten to the exponent, for every
      mantissa of digits with an optional point and sign, and every exponent. */
  lemma ExpandDenotesTheSame(neg: bool, a: seq<byte>, b: seq<byte>, e: int)
    requires IsDigits(a) && IsDigits(b) && a != []
    ensures var mantissa := Text(Numeral(neg, a, b, None));
            mantissa != [] && TextValue(ExpandCanonicalDecimal(mantissa, e)) == Shift(TextValue(mantissa), e)
  {
    hide Value, NatOf, Parts, Expanded, ExpandCanonicalDecimal, Text;
    ExpandInParts(neg, a, b, e);
    ExpandedValue(neg, a, b, e);
    WholeIsNotEmpty(neg, a, b, e);
    PartsOfText(Expanded(neg, a, b, e));
    PartsOfText(Numeral(neg, a, b, None));
    ShiftValue(neg, NatOf(a + b), -|b|, e);
  }

  lemma WholeIsNotEmpty(neg: bool, a: seq<byte>, b: seq<byte>, e: int)
    requires a != []
    ensures Expanded(neg, a, b, e).whole != []
  {
  }

  // --- Integers in decimal ---

  function Itoa(n: nat): (s: seq<byte>)
    ensures s != [] && IsDigits(s) && NatOf(s) == n
    ensures n == 0 || s[0] != ZERO
  {
    var last: byte := 0x30 + n % 10;
    if n < 10 then
      assert NatOf([]) == 0;
      [last]
    else
      var s := Itoa(n / 10) + [last];
      assert s[..|s| - 1] == Itoa(n / 10);
      s
  }

  lemma {:induction false} ItoaIsTheOnlyText(ds: seq<byte>)
    requires ds != [] && IsDigits(ds) && (|ds| == 1 || ds[0] != ZERO)
    ensures Itoa(NatOf(ds)) == ds
    decreases |ds|
  {
    var front := ds[..|ds| - 1];
    var d := ds[|ds| - 1] as int - 0x30;
    if front == [] {
      assert NatOf(front) == 0;
    } else {
      ItoaIsTheOnlyText(front);
      NonzeroIsPositive(front);
      assert (NatOf(front) * 10 + d) / 10 == NatOf(front) && (NatOf(front) * 10 + d) % 10 == d;
      assert ds == front + [ds[|ds| - 1]];
    }
  }

  lemma {:induction false} NonzeroIsPositive(ds: seq<byte>)
    requires ds != [] && IsDigits(ds) && ds[0] != ZERO
    ensures NatOf(ds) >= Ten(|ds| - 1)
    decreases |ds|
  {
    if |ds| > 1 {
      NonzeroIsPositive(ds[..|ds| - 1]);
    } else {
      assert ds[..0] == [];
    }
  }

  // --- strconv.FormatFloat(v, 'g', -1, 64) and what canonicalJSONNumber makes of it ---

  // d.ddd * 10^exp, with neither a leading nor a trailing zero.
  datatype Sci = Sci(neg: bool, digits: seq<byte>, exp: int)

  predicate WellFormed(s: Sci) {
    && s.digits != [] && IsDigits(s.digits)
    && s.digits[0] != ZERO && s.digits[|s.digits| - 1] != ZERO
  }

  function SciValue(s: Sci): Dec
    requires IsDigits(s.digits)
  {
    Value(s.neg, NatOf(s.digits), s.exp - (|s.digits| - 1))
  }

  function MantissaText(s: Sci): seq<byte>
    requires s.digits != []
  {
    Text(Numeral(s.neg, s.digits[..1], s.digits[1..], None))
  }

  function Abs(n: int): nat { if n < 0 then -n else n }

  function FormatE(s: Sci): seq<byte>
    requires s.digits != []
  {
    var ds := Itoa(Abs(s.exp));
    MantissaText(s) + [LOWER_E, if s.exp < 0 then MINUS else PLUS] + (if |ds| < 2 then [ZERO] + ds else ds)
  }

  function FormatF(s: Sci): seq<byte> {
    var point := s.exp + 1;
    var nd := |s.digits|;
    var whole := if point <= 0 then [ZERO] else if point < nd then s.digits[..point] else s.digits + Zeros(point - nd);
    var frac := if point >= nd then [] else if point >= 0 then s.digits[point..] else Zeros(-point) + s.digits;
    SignText(s.neg) + (whole + PointText(frac))
  }

  function FormatG(s: Sci): seq<byte>
    requires s.digits != []
  {
    if s.exp < -4 || s.exp >= 6 then FormatE(s) else FormatF(s)
  }

  function Atoi(t: seq<byte>): Option<int> {
    var (neg, ds) := ParseExp(t);
    if ds == [] || !IsDigits(ds) then None else Some(if neg then -(NatOf(ds) as int) else NatOf(ds))
  }

  function Recast(formatted: seq<byte>): Option<seq<byte>> {
    var at := Index(formatted, LOWER_E);
    if at == |formatted| then Some(formatted)
    else
      var mantissa, exponent := formatted[..at], Atoi(formatted[at + 1..]);
      if exponent.None? || mantissa == [] then None
      else if -6 <= exponent.value < 21 then Some(ExpandCanonicalDecimal(mantissa, exponent.value))
      else if exponent.value >= 0 then Some(mantissa + [LOWER_E, PLUS] + Itoa(exponent.value))
      else Some(mantissa + [LOWER_E, MINUS] + Itoa(-exponent.value))
  }

  // The canonical text in parts: plain digits for exponents from -6 to 20, else d.ddde±x.
  function CanonicalNumeral(s: Sci): Numeral
    requires s.digits != []
  {
    var a, b := s.digits[..1], s.digits[1..];
    if -6 <= s.exp < 21 then Expanded(s.neg, a, b, s.exp)
    else Numeral(s.neg, a, b, Some((s.exp < 0, Itoa(Abs(s.exp)))))
  }

  lemma CanonicalNumeralValue(s: Sci)
    requires WellFormed(s)
    ensures DigitsOnly(CanonicalNumeral(s)) && CanonicalNumeral(s).whole != []
    ensures NumeralValue(CanonicalNumeral(s)) == SciValue(s)
  {
    hide Value, NatOf, Expanded, IsDigits, Itoa;
    var a, b := s.digits[..1], s.digits[1..];
    assert a + b == s.digits;
    DigitsOfSlices(s.digits, 1);
    ExpandedValue(s.neg, a, b, s.exp);
    WholeIsNotEmpty(s.neg, a, b, s.exp);
  }

  /** A number is written without an exponent exactly when its leading digit stands between the sixth place after the
      point and the twenty-first before it. */
  lemma PlainIff(s: Sci)
    requires s.digits != []
    ensures CanonicalNumeral(s).exp.None? <==> -6 <= s.exp <= 20
  {
  }

  lemma AbsIs(n: int)
    ensures n == if n < 0 then -(Abs(n) as int) else Abs(n)
  {
  }

  lemma ExponentText(exp: int, t: seq<byte>)
    requires var ds := Itoa(Abs(exp));
             t == [if exp < 0 then MINUS else PLUS] + (if |ds| < 2 then [ZERO] + ds else ds)
    ensures Atoi(t) == Some(exp)
  {
    hide NatOf, Itoa, Abs;
    var ds := Itoa(Abs(exp));
    if |ds| < 2 {
      assert [ZERO] + ds == Zeros(1) + ds;
      LeadingZeros(1, ds);
      assert t[1..] == [ZERO] + ds;
    } else {
      assert t[1..] == ds;
    }
    assert exp == if exp < 0 then -(Abs(exp) as int) else Abs(exp) by { AbsIs(exp); }
  }

  lemma FormatEIsSplit(s: Sci)
    requires WellFormed(s)
    ensures var f := FormatE(s); var at := |MantissaText(s)|;
            && Index(f, LOWER_E) == at < |f| && f[..at] == MantissaText(s) && Atoi(f[at + 1..]) == Some(s.exp)
  {
    hide Index, Itoa, NatOf, Atoi, MantissaText;
    var f := FormatE(s);
    var m := MantissaText(s);
    MantissaHasNoExponent(s);
    assert f[..|m|] == m && f[|m|] == LOWER_E;
    IndexIs(f, LOWER_E, |m|);
    var ds := Itoa(Abs(s.exp));
    assert f[|m| + 1..] == [if s.exp < 0 then MINUS else PLUS] + (if |ds| < 2 then [ZERO] + ds else ds);
    ExponentText(s.exp, f[|m| + 1..]);
  }

  lemma MantissaHasNoExponent(s: Sci)
    requires WellFormed(s)
    ensures forall k :: 0 <= k < |MantissaText(s)| ==> MantissaText(s)[k] != LOWER_E
  {
  }

  lemma DigitsOfSlices(ds: seq<byte>, k: nat)
    requires IsDigits(ds) && k <= |ds|
    ensures IsDigits(ds[..k]) && IsDigits(ds[k..])
  {
  }

  // What strconv writes and what is written here agree wherever the point falls.
  lemma PlainDigits(neg: bool, digits: seq<byte>, point: int)
    requires digits != []
    ensures var nd := |digits|; var x := PlacedNumeral(neg, digits, point);
            && x.neg == neg && x.exp.None?
            && x.whole == (if point <= 0 then [ZERO]
                           else if point < nd then digits[..point] else digits + Zeros(point - nd))
            && x.frac == (if point >= nd then [] else if point >= 0 then digits[point..] else Zeros(-point) + digits)
  {
    hide Zeros;
    if point == 0 {
      assert Zeros(0) + digits == digits == digits[0..];
    }
  }

  lemma FormatFIsExpanded(s: Sci)
    requires WellFormed(s)
    ensures FormatF(s) == Text(Expanded(s.neg, s.digits[..1], s.digits[1..], s.exp))
  {
    hide Text, IsDigits, PlacedNumeral, Zeros, PointText, SignText;
    assert s.digits[..1] + s.digits[1..] == s.digits;
    PlainDigits(s.neg, s.digits, s.exp + 1);
    var x := PlacedNumeral(s.neg, s.digits, s.exp + 1);
    PlainText(s.neg, x.whole, x.frac);
  }

  lemma FormatFHasNoExponent(s: Sci)
    requires WellFormed(s)
    ensures Index(FormatF(s), LOWER_E) == |FormatF(s)|
  {
    hide Index, Zeros;
    var f := FormatF(s);
    FormatFBytes(s);
    assert forall k :: 0 <= k < |f| ==> f[k] != LOWER_E;
    IndexIs(f, LOWER_E, |f|);
  }

  lemma FormatFBytes(s: Sci)
    requires IsDigits(s.digits)
    ensures forall k :: 0 <= k < |FormatF(s)| ==> IsDigit(FormatF(s)[k]) || FormatF(s)[k] in {MINUS, DOT}
  {
  }

  lemma ScientificText(neg: bool, a: seq<byte>, b: seq<byte>, down: bool, ds: seq<byte>)
    ensures Text(Numeral(neg, a, b, Some((down, ds)))) ==
            Text(Numeral(neg, a, b, None)) + [LOWER_E, if down then MINUS else PLUS] + ds
  {
  }

  /** Whichever of the two forms strconv chooses, the text written is the canonical numeral. */
  lemma RecastIsCanonical(s: Sci)
    requires WellFormed(s)
    ensures Recast(FormatG(s)) == Some(Text(CanonicalNumeral(s)))
  {
    hide FormatE, FormatF, Index, Atoi, ExpandCanonicalDecimal, Expanded, NatOf, Itoa, Text, IsDigits;
    var a, b := s.digits[..1], s.digits[1..];
    DigitsOfSlices(s.digits, 1);
    if s.exp < -4 || s.exp >= 6 {
      FormatEIsSplit(s);
      SignOfText(Numeral(s.neg, a, b, None));
      ExpandInParts(s.neg, a, b, s.exp);
      ScientificText(s.neg, a, b, s.exp < 0, Itoa(Abs(s.exp)));
    } else {
      FormatFIsExpanded(s);
      FormatFHasNoExponent(s);
    }
  }
}
