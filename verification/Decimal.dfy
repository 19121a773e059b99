/** Decimal numerals and what they denote. */
module Decimal {
  import opened Common

  const ZERO: byte := 0x30
  const MINUS: byte := 0x2d
  const PLUS: byte := 0x2b
  const DOT: byte := 0x2e
  const LOWER_E: byte := 0x65
  const UPPER_E: byte := 0x45

  predicate IsDigit(b: byte) { 0x30 <= b <= 0x39 }

  predicate IsDigits(s: seq<byte>) { forall k :: 0 <= k < |s| ==> IsDigit(s[k]) }

  function NatOf(ds: seq<byte>): nat
    requires IsDigits(ds)
  {
    if ds == [] then 0 else NatOf(ds[..|ds| - 1]) * 10 + (ds[|ds| - 1] as int - 0x30)
  }

  function Zeros(n: nat): (z: seq<byte>)
    ensures |z| == n && IsDigits(z)
  {
    seq(n, _ => ZERO)
  }

  // --- Exact decimal values ---

  // (-1)^neg * m * 10^e, with m not a multiple of 10 unless the value is zero: one form per value.
  datatype Dec = Dec(neg: bool, m: nat, e: int)

  function Value(neg: bool, m: nat, e: int): Dec {
    if m == 0 then Dec(false, 0, 0) else if m % 10 == 0 then Value(neg, m / 10, e + 1) else Dec(neg, m, e)
  }

  // The value times 10^k.
  function Shift(d: Dec, k: int): Dec { Value(d.neg, d.m, d.e + k) }

  function Ten(k: nat): nat { if k == 0 then 1 else 10 * Ten(k - 1) }

  lemma ValueTen(neg: bool, m: nat, e: int)
    ensures Value(neg, 10 * m, e) == Value(neg, m, e + 1)
  {
  }

  lemma {:induction false} ValueTens(neg: bool, m: nat, e: int, k: nat)
    ensures Value(neg, m * Ten(k), e) == Value(neg, m, e + k)
    decreases k
  {
    hide Value, Ten;
    TenTimes(m, k);
    if k > 0 {
      ValueTen(neg, m * Ten(k - 1), e);
      ValueTens(neg, m, e + 1, k - 1);
    }
  }

  lemma TenTimes(m: nat, k: nat)
    ensures if k == 0 then m * Ten(k) == m else m * Ten(k) == 10 * (m * Ten(k - 1))
  {
    if k > 0 {
      Reassociate(m, Ten(k - 1));
    }
  }

  lemma Reassociate(m: nat, t: nat)
    ensures m * (10 * t) == 10 * (m * t)
  {
  }

  lemma {:induction false} ValueUnscaled(neg: bool, m: nat, e: int) returns (k: nat)
    ensures var d := Value(neg, m, e); m > 0 ==> m == d.m * Ten(k) && d.e == e + k && d.neg == neg && d.m % 10 != 0
    decreases m
  {
    if m > 0 && m % 10 == 0 {
      var j := ValueUnscaled(neg, m / 10, e + 1);
      k := j + 1;
      TenTimes(Value(neg, m, e).m, k);
    } else {
      TenTimes(m, 0);
      k := 0;
    }
  }

  /** Two decimals have the same form exactly when they are the same number: same sign and, brought
      to the smaller exponent, the same integer (or both zero). */
  lemma SameValueIff(neg: bool, m: nat, e: int, neg': bool, m': nat, k: nat)
    ensures Value(neg, m, e + k) == Value(neg', m', e) <==> m * Ten(k) == m' && (m' == 0 || neg == neg')
  {
    ValueTens(neg, m, e, k);
    var a := ValueUnscaled(neg, m * Ten(k), e);
    var b := ValueUnscaled(neg', m', e);
    TenPositive(k);
    assert m > 0 ==> m * Ten(k) > 0;
  }

  lemma TenPositive(k: nat)
    ensures Ten(k) > 0
  {
  }

  lemma {:induction false} ShiftValue(neg: bool, m: nat, e: int, k: int)
    ensures Shift(Value(neg, m, e), k) == Value(neg, m, e + k)
    decreases m
  {
    if m > 0 && m % 10 == 0 {
      ShiftValue(neg, m / 10, e + 1, k);
    }
  }

  lemma DropLast(a: seq<byte>, b: seq<byte>)
    requires b != []
    ensures (a + b)[..|a + b| - 1] == a + b[..|b| - 1]
  {
  }

  lemma {:induction false} LeadingZeros(n: nat, ds: seq<byte>)
    requires IsDigits(ds)
    ensures NatOf(Zeros(n) + ds) == NatOf(ds)
    decreases n + |ds|
  {
    if ds != [] {
      DropLast(Zeros(n), ds);
      LeadingZeros(n, ds[..|ds| - 1]);
    } else if n > 0 {
      var z := Zeros(n) + ds;
      assert z[..|z| - 1] == Zeros(n - 1) + [];
      LeadingZeros(n - 1, []);
    }
  }

  lemma {:induction false} TrailingZeros(neg: bool, ds: seq<byte>, n: nat, e: int)
    requires IsDigits(ds)
    ensures Value(neg, NatOf(ds + Zeros(n)), e) == Value(neg, NatOf(ds), e + n)
    decreases n
  {
    var z := ds + Zeros(n);
    if n == 0 {
      assert z == ds;
    } else {
      assert z[..|z| - 1] == ds + Zeros(n - 1);
      ValueTen(neg, NatOf(ds + Zeros(n - 1)), e);
      TrailingZeros(neg, ds, n - 1, e + 1);
    }
  }

  // --- What a numeral denotes ---

  function Index(s: seq<byte>, b: byte): (i: nat)
    ensures i <= |s| && (i < |s| ==> s[i] == b) && forall k :: 0 <= k < i ==> s[k] != b
  {
    if s == [] || s[0] == b then 0 else 1 + Index(s[1..], b)
  }

  lemma IndexIs(s: seq<byte>, b: byte, i: nat)
    requires i <= |s| && (i < |s| ==> s[i] == b) && forall k :: 0 <= k < i ==> s[k] != b
    ensures Index(s, b) == i
  {
  }

  lemma IndexAtLeast(s: seq<byte>, b: byte, i: nat)
    requires i <= |s| && forall k :: 0 <= k < i ==> s[k] != b
    ensures i <= Index(s, b)
  {
  }

  // A numeral in parts: sign, digits before and after the point, exponent.
  datatype Numeral = Numeral(neg: bool, whole: seq<byte>, frac: seq<byte>, exp: Option<(bool, seq<byte>)>)

  predicate DigitsOnly(n: Numeral) {
    IsDigits(n.whole) && IsDigits(n.frac) && (n.exp.Some? ==> IsDigits(n.exp.value.1))
  }

  function SignText(neg: bool): seq<byte> { if neg then [MINUS] else [] }

  function PointText(frac: seq<byte>): seq<byte> { if frac == [] then [] else [DOT] + frac }

  // The exponent part always carries its sign.
  function ExpText(exp: Option<(bool, seq<byte>)>): seq<byte> {
    match exp
    case None => []
    case Some((neg, ds)) => [LOWER_E, if neg then MINUS else PLUS] + ds
  }

  function Text(n: Numeral): seq<byte> { SignText(n.neg) + BodyText(n) }

  function ExpOf(n: Numeral): int
    requires DigitsOnly(n)
  {
    match n.exp
    case None => 0
    case Some((neg, ds)) => var m: int := NatOf(ds); if neg then -m else m
  }

  lemma DigitsAppend(a: seq<byte>, b: seq<byte>)
    requires IsDigits(a) && IsDigits(b)
    ensures IsDigits(a + b)
  {
  }

  function NumeralValue(n: Numeral): Dec
    requires DigitsOnly(n)
  {
    DigitsAppend(n.whole, n.frac);
    Value(n.neg, NatOf(n.whole + n.frac), ExpOf(n) - |n.frac|)
  }

  // The parts of a text: split at the first 'e' or 'E', then at the point.
  function ExponentAt(body: seq<byte>): (i: nat)
    ensures i <= |body|
  {
    var i, j := Index(body, LOWER_E), Index(body, UPPER_E);
    if i < j then i else j
  }

  function ParseExp(t: seq<byte>): (bool, seq<byte>) {
    if t != [] && t[0] == MINUS then (true, t[1..])
    else if t != [] && t[0] == PLUS then (false, t[1..])
    else (false, t)
  }

  function Parts(raw: seq<byte>): Numeral {
    var neg := raw != [] && raw[0] == MINUS;
    BodyParts(neg, if neg then raw[1..] else raw)
  }

  function BodyParts(neg: bool, body: seq<byte>): Numeral {
    var e := ExponentAt(body);
    var mantissa := body[..e];
    var d := Index(mantissa, DOT);
    Numeral(neg, mantissa[..d], if d < |mantissa| then mantissa[d + 1..] else [],
            if e < |body| then Some(ParseExp(body[e + 1..])) else None)
  }

  function BodyText(n: Numeral): seq<byte> { n.whole + PointText(n.frac) + ExpText(n.exp) }

  lemma SignOfText(n: Numeral)
    requires DigitsOnly(n) && n.whole != []
    ensures Text(n) != [] && (Text(n)[0] == MINUS <==> n.neg)
    ensures (if n.neg then Text(n)[1..] else Text(n)) == BodyText(n)
  {
  }

  lemma MantissaParts(n: Numeral)
    requires DigitsOnly(n) && n.whole != []
    ensures var m := n.whole + PointText(n.frac); var d := Index(m, DOT);
            && m[..d] == n.whole && (if d < |m| then m[d + 1..] else []) == n.frac
  {
    var m := n.whole + PointText(n.frac);
    hide Index;
    IndexIs(m, DOT, |n.whole|);
    assert n.frac != [] ==> m[|n.whole| + 1..] == n.frac;
  }

  lemma ExponentOfBody(n: Numeral)
    requires DigitsOnly(n) && n.whole != []
    ensures var m := n.whole + PointText(n.frac); var body := BodyText(n);
            && ExponentAt(body) == |m| && body[..|m|] == m
            && (if |m| < |body| then Some(ParseExp(body[|m| + 1..])) else None) == n.exp
  {
    var m := n.whole + PointText(n.frac);
    hide PointText, ExpText, ParseExp;
    MantissaBytes(n.whole, n.frac);
    ExpTextReads(n.exp);
    ExponentAfter(m, ExpText(n.exp));
    assert n.exp.Some? ==> (m + ExpText(n.exp))[|m| + 1..] == ExpText(n.exp)[1..];
  }

  lemma MantissaBytes(whole: seq<byte>, frac: seq<byte>)
    requires IsDigits(whole) && IsDigits(frac)
    ensures forall k :: 0 <= k < |whole + PointText(frac)| ==> (whole + PointText(frac))[k] !in {LOWER_E, UPPER_E}
  {
  }

  lemma ExponentAfter(m: seq<byte>, rest: seq<byte>)
    requires forall k :: 0 <= k < |m| ==> m[k] !in {LOWER_E, UPPER_E}
    requires rest == [] || rest[0] == LOWER_E
    ensures ExponentAt(m + rest) == |m| && (m + rest)[..|m|] == m
  {
    hide Index;
    var body := m + rest;
    assert forall k :: 0 <= k < |m| ==> body[k] == m[k];
    IndexIs(body, LOWER_E, |m|);
    IndexAtLeast(body, UPPER_E, |m|);
  }

  lemma ExpTextReads(exp: Option<(bool, seq<byte>)>)
    ensures exp.None? ==> ExpText(exp) == []
    ensures exp.Some? ==> ExpText(exp) != [] && ExpText(exp)[0] == LOWER_E && ParseExp(ExpText(exp)[1..]) == exp.value
  {
    if exp.Some? {
      var rest := [if exp.value.0 then MINUS else PLUS] + exp.value.1;
      assert ExpText(exp)[1..] == rest;
      assert rest[1..] == exp.value.1;
    }
  }

  lemma PartsOfText(n: Numeral)
    requires DigitsOnly(n) && n.whole != []
    ensures Parts(Text(n)) == n
  {
    hide BodyParts, Text, BodyText, DigitsOnly;
    SignOfText(n);
    PartsOfBody(n);
  }

  lemma PartsOfBody(n: Numeral)
    requires DigitsOnly(n) && n.whole != []
    ensures BodyParts(n.neg, BodyText(n)) == n
  {
    hide Index, ExponentAt, ParseExp, BodyText, PointText, DigitsOnly;
    MantissaParts(n);
    ExponentOfBody(n);
  }

  /** What a numeral text denotes, as strconv.ParseFloat reads it; 0 for a text that is none. */
  function TextValue(raw: seq<byte>): Dec {
    if DigitsOnly(Parts(raw)) then NumeralValue(Parts(raw)) else Dec(false, 0, 0)
  }
}
