/**
 UTF-8 and UTF-16, as the canonical encoder uses them. A valid Go string is a sequence of Unicode
 scalar values, which is what a Dafny string is.
 */
module Unicode {
  import opened Common

  const REPLACEMENT: char := '\U{fffd}'

  predicate IsScalar(v: int) { 0 <= v < 0xd800 || 0xe000 <= v < 0x11_0000 }

  predicate IsNoncharacter(v: int) { 0xfdd0 <= v <= 0xfdef || (0 <= v <= 0x10_ffff && v % 0x1_0000 >= 0xfffe) }

  // Go strings that carry only interchange-safe scalars.
  predicate ValidScalars(s: string) { forall c <- s :: !IsNoncharacter(c as int) }

  /** The noncharacters are U+FDD0..U+FDEF and the last two code points of each of the seventeen planes. */
  lemma NoncharacterIff(v: int)
    ensures IsNoncharacter(v) <==>
            0xfdd0 <= v <= 0xfdef || exists plane :: 0 <= plane <= 16 && 0xfffe <= v - plane * 0x1_0000 <= 0xffff
  {
    if 0 <= v <= 0x10_ffff && v % 0x1_0000 >= 0xfffe {
      assert 0xfffe <= v - v / 0x1_0000 * 0x1_0000 <= 0xffff;
    }
  }

  // --- UTF-8 ---

  function EncodeRune(c: char): (b: seq<byte>)
    ensures 1 <= |b| <= 4
    ensures (c as int < 0x80 && b == [c as int]) || (c as int >= 0x80 && forall k :: 0 <= k < |b| ==> b[k] >= 0x80)
  {
    var n := c as int;
    if n < 0x80 then [n]
    else if n < 0x800 then [0xc0 + n / 0x40, 0x80 + n % 0x40]
    else if n < 0x1_0000 then [0xe0 + n / 0x1000, 0x80 + n / 0x40 % 0x40, 0x80 + n % 0x40]
    else [0xf0 + n / 0x4_0000, 0x80 + n / 0x1000 % 0x40, 0x80 + n / 0x40 % 0x40, 0x80 + n % 0x40]
  }

  predicate Continues(b: byte) { 0x80 <= b < 0xc0 }

  // utf8.DecodeRune: the first rune and its size; an invalid byte counts as U+FFFD of size 1.
  function DecodeRune(s: seq<byte>): (r: (char, nat))
    requires s != []
    ensures 1 <= r.1 <= |s|
  {
    if s[0] < 0x80 then (s[0] as char, 1)
    else if 0xc2 <= s[0] < 0xe0 && |s| >= 2 && Continues(s[1]) then
      (Join2(s[0], s[1]) as char, 2)
    else if 0xe0 <= s[0] < 0xf0 && |s| >= 3 && Continues(s[1]) && Continues(s[2]) then
      var v := Join3(s[0], s[1], s[2]);
      if v >= 0x800 && IsScalar(v) then (v as char, 3) else (REPLACEMENT, 1)
    else if 0xf0 <= s[0] < 0xf5 && |s| >= 4 && Continues(s[1]) && Continues(s[2]) && Continues(s[3]) then
      var v := Join4(s[0], s[1], s[2], s[3]);
      if v >= 0x1_0000 && IsScalar(v) then (v as char, 4) else (REPLACEMENT, 1)
    else (REPLACEMENT, 1)
  }

  function Join2(a: int, b: int): int { (a - 0xc0) * 0x40 + (b - 0x80) }
  function Join3(a: int, b: int, c: int): int { (a - 0xe0) * 0x1000 + (b - 0x80) * 0x40 + (c - 0x80) }
  function Join4(a: int, b: int, c: int, d: int): int {
    (a - 0xf0) * 0x4_0000 + (b - 0x80) * 0x1000 + (c - 0x80) * 0x40 + (d - 0x80)
  }

  predicate IsBad(r: (char, nat)) { r.0 == REPLACEMENT && r.1 == 1 }

  predicate ValidUtf8(s: seq<byte>)
    decreases |s|
  {
    s == [] || (!IsBad(DecodeRune(s)) && ValidUtf8(s[DecodeRune(s).1..]))
  }

  lemma DecodeTwo(n: nat, s: seq<byte>)
    requires 0x80 <= n < 0x800 && |s| >= 2 && s[..2] == [0xc0 + n / 0x40, 0x80 + n % 0x40]
    ensures DecodeRune(s) == (n as char, 2)
  {
    hide Join2;
    assert s[0] == s[..2][0] && s[1] == s[..2][1];
    SplitsJoin(n);
  }

  lemma DecodeThree(n: nat, s: seq<byte>)
    requires 0x800 <= n < 0x1_0000 && IsScalar(n) && |s| >= 3
    requires s[..3] == [0xe0 + n / 0x1000, 0x80 + n / 0x40 % 0x40, 0x80 + n % 0x40]
    ensures DecodeRune(s) == (n as char, 3)
  {
    hide Join2, Join3;
    assert s[0] == s[..3][0] && s[1] == s[..3][1] && s[2] == s[..3][2];
    SplitsJoin(n);
  }

  lemma DecodeFour(n: nat, s: seq<byte>)
    requires 0x1_0000 <= n < 0x11_0000 && |s| >= 4
    requires s[..4] == [0xf0 + n / 0x4_0000, 0x80 + n / 0x1000 % 0x40, 0x80 + n / 0x40 % 0x40, 0x80 + n % 0x40]
    ensures DecodeRune(s) == (n as char, 4)
  {
    hide Join2, Join3, Join4;
    assert s[0] == s[..4][0] && s[1] == s[..4][1] && s[2] == s[..4][2] && s[3] == s[..4][3];
    SplitsJoin(n);
  }

  /** Decoding undoes encoding, whatever follows. */
  lemma DecodeEncoded(c: char, rest: seq<byte>)
    ensures DecodeRune(EncodeRune(c) + rest) == (c, |EncodeRune(c)|)
    ensures (EncodeRune(c) + rest)[|EncodeRune(c)|..] == rest
    ensures !IsBad(DecodeRune(EncodeRune(c) + rest))
  {
    var n := c as int;
    var s := EncodeRune(c) + rest;
    assert s[..|EncodeRune(c)|] == EncodeRune(c);
    if 0x80 <= n {
      hide DecodeRune;
      if n < 0x800 {
        DecodeTwo(n, s);
      } else if n < 0x1_0000 {
        DecodeThree(n, s);
      } else {
        DecodeFour(n, s);
      }
    }
  }

  lemma EncodeTwo(s: seq<byte>)
    requires |s| >= 2 && 0xc2 <= s[0] < 0xe0 && Continues(s[1])
    ensures var v := Join2(s[0], s[1]); 0x80 <= v < 0x800 && EncodeRune(v as char) == s[..2]
  {
    var v := Join2(s[0], s[1]);
    assert v / 0x40 == s[0] - 0xc0 && v % 0x40 == s[1] - 0x80;
  }

  lemma EncodeThree(s: seq<byte>)
    requires |s| >= 3 && 0xe0 <= s[0] < 0xf0 && Continues(s[1]) && Continues(s[2])
    requires Join3(s[0], s[1], s[2]) >= 0x800 && IsScalar(Join3(s[0], s[1], s[2]))
    ensures EncodeRune(Join3(s[0], s[1], s[2]) as char) == s[..3]
  {
    var v: int := Join3(s[0], s[1], s[2]);
    var w := Join2(s[0] - 0x20, s[1]);
    assert v / 0x40 == w && v % 0x40 == s[2] - 0x80;
    assert w / 0x40 == s[0] - 0xe0 && w % 0x40 == s[1] - 0x80;
    SplitSix(v);
  }

  lemma EncodeFour(s: seq<byte>)
    requires |s| >= 4 && 0xf0 <= s[0] < 0xf5 && Continues(s[1]) && Continues(s[2]) && Continues(s[3])
    requires var v := Join4(s[0], s[1], s[2], s[3]); v >= 0x1_0000 && IsScalar(v)
    ensures EncodeRune(Join4(s[0], s[1], s[2], s[3]) as char) == s[..4]
  {
    var v := Join4(s[0], s[1], s[2], s[3]);
    var x := Join2(s[0] - 0x30, s[1]);
    var w := x * 0x40 + (s[2] - 0x80);
    assert v / 0x40 == w && v % 0x40 == s[3] - 0x80;
    assert w / 0x40 == x && w % 0x40 == s[2] - 0x80;
    assert x / 0x40 == s[0] - 0xf0 && x % 0x40 == s[1] - 0x80;
    SplitSix(v);
  }

  /** Encoding undoes decoding: what decodes without replacement is the one encoding of its character. */
  lemma EncodeDecoded(s: seq<byte>)
    requires s != [] && !IsBad(DecodeRune(s))
    ensures EncodeRune(DecodeRune(s).0) == s[..DecodeRune(s).1]
  {
    hide EncodeRune, Join2, Join3, Join4;
    if s[0] < 0x80 {
      EncodeOne(s);
    } else if 0xc2 <= s[0] < 0xe0 {
      EncodeTwo(s);
    } else if s[0] < 0xf0 {
      EncodeThree(s);
    } else {
      EncodeFour(s);
    }
  }

  lemma EncodeOne(s: seq<byte>)
    requires s != [] && s[0] < 0x80
    ensures EncodeRune(s[0] as char) == s[..1]
  {
  }

  // Six bits at a time.
  lemma SplitSix(n: nat)
    ensures n == n / 0x40 * 0x40 + n % 0x40
    ensures n / 0x1000 == n / 0x40 / 0x40 && n / 0x4_0000 == n / 0x1000 / 0x40
  {
  }

  lemma SplitsJoin(n: nat)
    ensures Join2(0xc0 + n / 0x40, 0x80 + n % 0x40) == n
    ensures Join3(0xe0 + n / 0x1000, 0x80 + n / 0x40 % 0x40, 0x80 + n % 0x40) == n
    ensures Join4(0xf0 + n / 0x4_0000, 0x80 + n / 0x1000 % 0x40, 0x80 + n / 0x40 % 0x40, 0x80 + n % 0x40) == n
  {
    SplitSix(n);
    var m := n / 0x40;
    assert m == m / 0x40 * 0x40 + m % 0x40;
    var l := m / 0x40;
    assert l == l / 0x40 * 0x40 + l % 0x40;
  }

  // --- UTF-16 ---

  function UnitsOf(c: char): (u: seq<nat>)
    ensures 1 <= |u| <= 2
    ensures |u| == 1 <==> !(0xd800 <= u[0] < 0xdc00)
  {
    var n := c as int;
    if n < 0x1_0000 then [n]
    else [0xd800 + (n - 0x1_0000) / 0x400, 0xdc00 + (n - 0x1_0000) % 0x400]
  }

  function Utf16(s: string): seq<nat> {
    if s == [] then [] else UnitsOf(s[0]) + Utf16(s[1..])
  }

  lemma UnitsDetermineRune(a: char, x: seq<nat>, b: char, y: seq<nat>)
    requires UnitsOf(a) + x == UnitsOf(b) + y
    ensures a == b && x == y
  {
    assert (UnitsOf(a) + x)[0] == UnitsOf(a)[0] && (UnitsOf(b) + y)[0] == UnitsOf(b)[0];
    assert |UnitsOf(a)| == |UnitsOf(b)|;
    assert x == (UnitsOf(a) + x)[|UnitsOf(a)|..] && y == (UnitsOf(b) + y)[|UnitsOf(b)|..];
    if |UnitsOf(a)| == 2 {
      assert (UnitsOf(a) + x)[1] == UnitsOf(a)[1] && (UnitsOf(b) + y)[1] == UnitsOf(b)[1];
      var m, n := a as int - 0x1_0000, b as int - 0x1_0000;
      assert m == m / 0x400 * 0x400 + m % 0x400 && n == n / 0x400 * 0x400 + n % 0x400;
    }
    assert a as int == b as int;
  }

  lemma {:induction false} Utf16Injective(a: string, b: string)
    requires Utf16(a) == Utf16(b)
    ensures a == b
  {
    if a != [] && b != [] {
      UnitsDetermineRune(a[0], Utf16(a[1..]), b[0], Utf16(b[1..]));
      Utf16Injective(a[1..], b[1..]);
      assert a == [a[0]] + a[1..] && b == [b[0]] + b[1..];
    }
  }

  // --- Lexicographic order ---

  function Compare(x: seq<nat>, y: seq<nat>): int {
    if x == [] then (if y == [] then 0 else -1)
    else if y == [] then 1
    else if x[0] < y[0] then -1
    else if x[0] > y[0] then 1
    else Compare(x[1..], y[1..])
  }

  lemma {:induction false} CompareIsAnOrder(x: seq<nat>, y: seq<nat>, z: seq<nat>)
    ensures Compare(x, y) == 0 <==> x == y
    ensures Compare(x, y) == -Compare(y, x)
    ensures Compare(x, y) < 0 && Compare(y, z) < 0 ==> Compare(x, z) < 0
  {
    if x != [] && y != [] {
      CompareIsAnOrder(x[1..], y[1..], if z == [] then [] else z[1..]);
      assert x == [x[0]] + x[1..] && y == [y[0]] + y[1..];
    }
  }

  // The first difference decides, and a proper prefix comes first.
  ghost predicate Lexicographic(x: seq<nat>, y: seq<nat>) {
    x < y || exists i :: 0 <= i < |x| && i < |y| && x[..i] == y[..i] && x[i] < y[i]
  }

  lemma {:induction false} CompareIff(x: seq<nat>, y: seq<nat>)
    ensures Compare(x, y) < 0 <==> Lexicographic(x, y)
    decreases |x|
  {
    if x != [] && y != [] && x[0] == y[0] {
      CompareIff(x[1..], y[1..]);
      LexicographicRest(x, y);
    } else if x != [] && y != [] {
      FirstDecides(x, y);
    }
  }

  lemma LexicographicRest(x: seq<nat>, y: seq<nat>)
    requires x != [] && y != [] && x[0] == y[0]
    ensures Lexicographic(x, y) <==> Lexicographic(x[1..], y[1..])
  {
    var a, b := x[1..], y[1..];
    assert x == [x[0]] + a && y == [y[0]] + b;
    if i :| 0 <= i < |x| && i < |y| && x[..i] == y[..i] && x[i] < y[i] {
      assert a[..i - 1] == x[..i][1..] && b[..i - 1] == y[..i][1..] && a[i - 1] < b[i - 1];
    }
    if i :| 0 <= i < |a| && i < |b| && a[..i] == b[..i] && a[i] < b[i] {
      assert x[..i + 1] == [x[0]] + a[..i] && y[..i + 1] == [y[0]] + b[..i] && x[i + 1] < y[i + 1];
    }
  }

  lemma FirstDecides(x: seq<nat>, y: seq<nat>)
    requires x != [] && y != [] && x[0] != y[0]
    ensures Lexicographic(x, y) <==> x[0] < y[0]
  {
    if x[0] < y[0] {
      assert x[..0] == y[..0];
    }
    if i :| 0 <= i < |x| && i < |y| && x[..i] == y[..i] && x[i] < y[i] {
      SameStart(x, y, i);
    }
  }

  lemma SameStart<T>(x: seq<T>, y: seq<T>, i: nat)
    requires i < |x| && i < |y|
    ensures i > 0 && x[..i] == y[..i] ==> x[0] == y[0]
  {
    assert i > 0 ==> x[..i][0] == x[0] && y[..i][0] == y[0];
  }

  predicate Less(a: string, b: string) { Compare(Utf16(a), Utf16(b)) < 0 }

  /** Comparison by UTF-16 code units is a strict total order on strings. */
  lemma LessIsAStrictTotalOrder(a: string, b: string, c: string)
    ensures !Less(a, a)
    ensures Less(a, b) ==> !Less(b, a)
    ensures Less(a, b) && Less(b, c) ==> Less(a, c)
    ensures a != b ==> Less(a, b) || Less(b, a)
  {
    CompareIsAnOrder(Utf16(a), Utf16(b), Utf16(c));
    CompareIsAnOrder(Utf16(a), Utf16(a), Utf16(a));
    if Utf16(a) == Utf16(b) {
      Utf16Injective(a, b);
    }
  }

  // --- What the order is ---

  predicate Supplementary(c: char) { c as int >= 0x1_0000 }

  // Code points in order, except that the supplementary ones come before U+E000..U+FFFF.
  predicate UnitsBefore(c: char, d: char) {
    if Supplementary(c) == Supplementary(d) then c < d
    else if Supplementary(c) then d as int >= 0xe000
    else c as int < 0xd800
  }

  ghost predicate FirstDiffers(a: string, b: string, i: int) {
    0 <= i < |a| && i < |b| && a[..i] == b[..i] && UnitsBefore(a[i], b[i])
  }

  lemma SameUnits(u: seq<nat>, x: seq<nat>, y: seq<nat>)
    requires 1 <= |u| <= 2
    ensures Compare(u + x, u + y) == Compare(x, y)
  {
    assert (u + x)[1..] == u[1..] + x && (u + y)[1..] == u[1..] + y;
    if |u| == 2 {
      assert (u[1..] + x)[1..] == x && (u[1..] + y)[1..] == y;
    } else {
      assert u[1..] + x == x && u[1..] + y == y;
    }
  }

  lemma UnitsDecide(c: char, x: seq<nat>, d: char, y: seq<nat>)
    requires c != d
    ensures Compare(UnitsOf(c) + x, UnitsOf(d) + y) < 0 <==> UnitsBefore(c, d)
  {
    var u, v := UnitsOf(c), UnitsOf(d);
    assert (u + x)[0] == u[0] && (v + y)[0] == v[0];
    if u[0] == v[0] {
      UnitsDetermine(c, d);
      assert (u + x)[1..] == [u[1]] + x && (v + y)[1..] == [v[1]] + y;
    } else {
      UnitsInOrder(c, d);
    }
  }

  lemma UnitsInOrder(c: char, d: char)
    requires UnitsOf(c)[0] != UnitsOf(d)[0]
    ensures UnitsOf(c)[0] < UnitsOf(d)[0] <==> UnitsBefore(c, d)
  {
  }

  // Two characters with the same first unit are both supplementary, and their second units are in order.
  lemma UnitsDetermine(c: char, d: char)
    requires c != d && UnitsOf(c)[0] == UnitsOf(d)[0]
    ensures |UnitsOf(c)| == |UnitsOf(d)| == 2 && UnitsOf(c)[1] != UnitsOf(d)[1]
    ensures UnitsOf(c)[1] < UnitsOf(d)[1] <==> UnitsBefore(c, d)
  {
    assert c as int != d as int;
    if Supplementary(c) && Supplementary(d) {
      var m, n := c as int - 0x1_0000, d as int - 0x1_0000;
      assert m == m / 0x400 * 0x400 + m % 0x400 && n == n / 0x400 * 0x400 + n % 0x400;
    }
  }

  /** A key comes before another exactly when it is a proper prefix of it, or at the first difference has the
      smaller code point, all supplementary characters counting as less than U+E000. */
  lemma {:induction false} LessIff(a: string, b: string)
    ensures Less(a, b) <==> a < b || exists i :: FirstDiffers(a, b, i)
    decreases |a|
  {
    hide UnitsOf, UnitsBefore, Compare;
    CompareHere(Utf16(a), Utf16(b));
    if a == [] || b == [] {
      assert b != [] ==> Utf16(b) != [];
    } else {
      if a[0] == b[0] {
        SameUnits(UnitsOf(a[0]), Utf16(a[1..]), Utf16(b[1..]));
        LessIff(a[1..], b[1..]);
        DifferenceInRest(a, b);
      } else {
        UnitsDecide(a[0], Utf16(a[1..]), b[0], Utf16(b[1..]));
        DifferenceAtStart(a, b);
      }
    }
  }

  lemma DifferenceInRest(a: string, b: string)
    requires a != [] && b != [] && a[0] == b[0]
    ensures a < b <==> a[1..] < b[1..]
    ensures (exists i :: FirstDiffers(a, b, i)) <==> exists i :: FirstDiffers(a[1..], b[1..], i)
  {
    hide UnitsBefore;
    var x, y := a[1..], b[1..];
    assert a == [a[0]] + x && b == [b[0]] + y;
    assert !FirstDiffers(a, b, 0) by { NotBeforeItself(a[0]); }
    if i :| FirstDiffers(a, b, i) {
      assert x[..i - 1] == a[..i][1..] && y[..i - 1] == b[..i][1..];
      assert FirstDiffers(x, y, i - 1);
    }
    if i :| FirstDiffers(x, y, i) {
      assert a[..i + 1] == [a[0]] + x[..i] && b[..i + 1] == [b[0]] + y[..i];
      assert FirstDiffers(a, b, i + 1);
    }
  }

  lemma NotBeforeItself(c: char)
    ensures !UnitsBefore(c, c)
  {
  }

  lemma DifferenceAtStart(a: string, b: string)
    requires a != [] && b != [] && a[0] != b[0]
    ensures (a < b || exists i :: FirstDiffers(a, b, i)) <==> UnitsBefore(a[0], b[0])
  {
    hide UnitsBefore;
    if UnitsBefore(a[0], b[0]) {
      assert a[..0] == b[..0] && FirstDiffers(a, b, 0);
    }
    if i :| FirstDiffers(a, b, i) {
      SameStart(a, b, i);
    }
  }

  method EncodeUtf16(s: string) returns (units: seq<nat>)
    ensures units == Utf16(s)
  {
    hide UnitsOf;
    units := [];
    var i := 0;
    assert s[0..] == s;
    while i < |s|
      invariant 0 <= i <= |s|
      invariant units + Utf16(s[i..]) == Utf16(s)
    {
      assert s[i..][1..] == s[i + 1..];
      assert units + (UnitsOf(s[i]) + Utf16(s[i + 1..])) == units + UnitsOf(s[i]) + Utf16(s[i + 1..]);
      units := units + UnitsOf(s[i]);
      i := i + 1;
    }
    assert s[i..] == [];
  }

  // compareUTF16
  method CompareUtf16(left: string, right: string) returns (r: int)
    ensures r in {-1, 0, 1}
    ensures r < 0 <==> Less(left, right)
    ensures r > 0 <==> Less(right, left)
    ensures r == 0 <==> left == right
  {
    hide Utf16, Compare;
    var x := EncodeUtf16(left);
    var y := EncodeUtf16(right);
    CompareDecides(left, right);
    var i := 0;
    assert x[0..] == x && y[0..] == y;
    while i < |x| && i < |y|
      invariant 0 <= i <= |x| && i <= |y|
      invariant Compare(x, y) == Compare(x[i..], y[i..])
    {
      CompareHere(x[i..], y[i..]);
      if x[i] < y[i] {
        return -1;
      }
      if x[i] > y[i] {
        return 1;
      }
      assert x[i..][1..] == x[i + 1..] && y[i..][1..] == y[i + 1..];
      i := i + 1;
    }
    CompareHere(x[i..], y[i..]);
    return if |x| < |y| then -1 else if |x| > |y| then 1 else 0;
  }

  lemma CompareHere(x: seq<nat>, y: seq<nat>)
    ensures Compare(x, y) ==
            if x == [] then (if y == [] then 0 else -1)
            else if y == [] then 1
            else if x[0] < y[0] then -1
            else if x[0] > y[0] then 1
            else Compare(x[1..], y[1..])
  {
  }

  lemma CompareDecides(left: string, right: string)
    ensures var r := Compare(Utf16(left), Utf16(right));
            (r < 0 <==> Less(left, right)) && (r > 0 <==> Less(right, left)) && (r == 0 <==> left == right)
  {
    CompareIsAnOrder(Utf16(left), Utf16(right), []);
    if Utf16(left) == Utf16(right) {
      Utf16Injective(left, right);
    }
  }
}
