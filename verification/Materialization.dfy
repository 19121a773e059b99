/** The byte string that the materialization hash is taken of. */
module Materialization {
  import opened Common
  import opened Unicode

  datatype File = File(path: seq<byte>, contents: seq<byte>)

  // --- Eight-byte lengths ---

  function BigEndian(n: nat, k: nat): (b: seq<byte>)
    ensures |b| == k
  {
    if k == 0 then [] else BigEndian(n / 0x100, k - 1) + [n % 0x100]
  }

  function Pow256(k: nat): (p: nat)
    ensures p > 0
  {
    if k == 0 then 1 else 0x100 * Pow256(k - 1)
  }

  lemma {:induction false} BigEndianInjective(m: nat, n: nat, k: nat)
    requires m < Pow256(k) && n < Pow256(k) && BigEndian(m, k) == BigEndian(n, k)
    ensures m == n
    decreases k
  {
    if k > 0 {
      var x, y := BigEndian(m, k), BigEndian(n, k);
      assert x[..k - 1] == BigEndian(m / 0x100, k - 1) && y[..k - 1] == BigEndian(n / 0x100, k - 1);
      assert x[k - 1] == m % 0x100 && y[k - 1] == n % 0x100;
      BigEndianInjective(m / 0x100, n / 0x100, k - 1);
    }
  }

  // Go slices are shorter than this.
  predicate Fits(s: seq<byte>) { |s| < Pow256(8) }

  predicate AllFit(files: seq<File>) { forall f <- files :: Fits(f.path) && Fits(f.contents) }

  function Prefixed(s: seq<byte>): seq<byte> { BigEndian(|s|, 8) + s }

  function Frame(f: File): seq<byte> { Prefixed(f.path) + Prefixed(f.contents) }

  function Frames(files: seq<File>): seq<byte> {
    if files == [] then [] else Frame(files[0]) + Frames(files[1..])
  }

  lemma {:induction false} BigEndianByte(n: nat, k: nat, i: nat)
    requires i < k
    ensures BigEndian(n, k)[i] == n / Pow256(k - 1 - i) % 0x100
    decreases k
  {
    if i < k - 1 {
      BigEndianByte(n / 0x100, k - 1, i);
      DivTwice(n, Pow256(k - 2 - i));
    }
  }

  lemma DivTwice(n: nat, p: nat)
    requires p > 0
    ensures n / 0x100 / p == n / (0x100 * p)
  {
    var q, r := n / (0x100 * p), n % (0x100 * p);
    assert n == q * (0x100 * p) + r;
    QuotientIs(n, 0x100, q * p + r / 0x100, r % 0x100);
    QuotientIs(q * p + r / 0x100, p, q, r / 0x100);
  }

  lemma QuotientIs(n: nat, d: nat, q: nat, r: nat)
    requires r < d && n == q * d + r
    ensures n / d == q
  {
    var p := n / d;
    assert n == p * d + n % d;
    assert (p - q) * d == p * d - q * d;
    SmallMultiple(p - q, d);
  }

  lemma SmallMultiple(k: int, d: int)
    requires d > 0
    ensures k > 0 ==> k * d >= d
    ensures k < 0 ==> k * d <= -d
  {
  }

  // A length, its most significant byte first.
  predicate IsLength(b: seq<byte>, n: nat) {
    |b| == 8 && forall i :: 0 <= i < 8 ==> b[i] == n / Pow256(7 - i) % 0x100
  }

  /** A file's frame: the length of its path in eight bytes, most significant first, the path, the length of its
      contents likewise, and the contents. */
  lemma FrameBytes(f: File)
    ensures var b, p, c := Frame(f), |f.path|, |f.contents|;
            && |b| == 16 + p + c
            && IsLength(b[..8], p) && b[8..8 + p] == f.path
            && IsLength(b[8 + p..16 + p], c) && b[16 + p..] == f.contents
  {
    hide BigEndian, IsLength;
    var b, p, c := Frame(f), |f.path|, |f.contents|;
    LengthIs(p);
    LengthIs(c);
    assert b[..8] == BigEndian(p, 8) && b[8..8 + p] == f.path;
    assert b[8 + p..16 + p] == BigEndian(c, 8) && b[16 + p..] == f.contents;
  }

  lemma LengthIs(n: nat)
    ensures IsLength(BigEndian(n, 8), n)
  {
    forall i | 0 <= i < 8 ensures BigEndian(n, 8)[i] == n / Pow256(7 - i) % 0x100 {
      BigEndianByte(n, 8, i);
    }
  }

  lemma PrefixedSplits(a: seq<byte>, x: seq<byte>, b: seq<byte>, y: seq<byte>)
    requires Fits(a) && Fits(b) && Prefixed(a) + x == Prefixed(b) + y
    ensures a == b && x == y
  {
    hide BigEndian;
    var s := Prefixed(a) + x;
    var t := Prefixed(b) + y;
    assert s[..8] == BigEndian(|a|, 8) && t[..8] == BigEndian(|b|, 8);
    BigEndianInjective(|a|, |b|, 8);
    assert a == s[8..8 + |a|] && b == t[8..8 + |b|];
    assert x == s[8 + |a|..] && y == t[8 + |b|..];
  }

  /** The framing can be undone: equal bytes mean equal file lists. */
  lemma {:induction false} FramesInjective(a: seq<File>, b: seq<File>)
    requires AllFit(a) && AllFit(b) && Frames(a) == Frames(b)
    ensures a == b
    decreases |a|
  {
    hide Frame, Fits;
    FramesEmptyIff(a);
    FramesEmptyIff(b);
    if a != [] {
      assert a[0] in a && b[0] in b && (forall x <- a[1..] :: x in a) && forall x <- b[1..] :: x in b;
      FrameSplits(a[0], Frames(a[1..]), b[0], Frames(b[1..]));
      FramesInjective(a[1..], b[1..]);
      assert a == [a[0]] + a[1..] && b == [b[0]] + b[1..];
    }
  }

  lemma FramesEmptyIff(a: seq<File>)
    ensures Frames(a) == [] <==> a == []
  {
  }

  /** The frames follow one another in the order of the files. */
  lemma {:induction false} FramesConcatenate(a: seq<File>, b: seq<File>)
    ensures Frames(a + b) == Frames(a) + Frames(b)
    decreases |a|
  {
    hide Frame;
    if a == [] {
      assert a + b == b;
    } else {
      assert (a + b)[1..] == a[1..] + b;
      FramesConcatenate(a[1..], b);
    }
  }

  lemma FrameSplits(f: File, x: seq<byte>, g: File, y: seq<byte>)
    requires Fits(f.path) && Fits(f.contents) && Fits(g.path) && Fits(g.contents) && Frame(f) + x == Frame(g) + y
    ensures f == g && x == y
  {
    hide Prefixed, Fits;
    assert Frame(f) + x == Prefixed(f.path) + (Prefixed(f.contents) + x);
    assert Frame(g) + y == Prefixed(g.path) + (Prefixed(g.contents) + y);
    PrefixedSplits(f.path, Prefixed(f.contents) + x, g.path, Prefixed(g.contents) + y);
    PrefixedSplits(f.contents, x, g.contents, y);
  }

  // --- Sorting by path ---

  // Go compares strings byte by byte.
  predicate PathLess(f: File, g: File) { Compare(f.path, g.path) < 0 }

  predicate DistinctPaths(files: seq<File>) { forall i, j :: 0 <= i < j < |files| ==> files[i].path != files[j].path }

  predicate Ascending(files: seq<File>) { forall i, j :: 0 <= i < j < |files| ==> PathLess(files[i], files[j]) }

  lemma PathLessIsAnOrder(f: File, g: File, h: File)
    ensures !PathLess(f, f)
    ensures PathLess(f, g) && PathLess(g, h) ==> PathLess(f, h)
    ensures f.path != g.path ==> PathLess(f, g) || PathLess(g, f)
  {
    CompareIsAnOrder(f.path, g.path, h.path);
    CompareIsAnOrder(f.path, f.path, f.path);
  }

  function Insert(f: File, sorted: seq<File>): seq<File> {
    if sorted == [] then [f]
    else if PathLess(f, sorted[0]) then [f] + sorted
    else [sorted[0]] + Insert(f, sorted[1..])
  }

  function Sort(files: seq<File>): seq<File> { if files == [] then [] else Insert(files[0], Sort(files[1..])) }

  lemma {:induction false} InsertPermutes(f: File, sorted: seq<File>)
    ensures multiset(Insert(f, sorted)) == multiset(sorted) + multiset{f}
    decreases |sorted|
  {
    if sorted != [] {
      InsertPermutes(f, sorted[1..]);
      assert sorted == [sorted[0]] + sorted[1..];
    }
  }

  lemma {:induction false} SortPermutes(files: seq<File>)
    ensures multiset(Sort(files)) == multiset(files)
    decreases |files|
  {
    if files != [] {
      InsertPermutes(files[0], Sort(files[1..]));
      SortPermutes(files[1..]);
      assert files == [files[0]] + files[1..];
    }
  }

  lemma {:induction false} InsertAscends(f: File, sorted: seq<File>)
    requires Ascending(sorted) && forall g <- sorted :: g.path != f.path
    ensures Ascending(Insert(f, sorted))
    ensures forall x :: x in Insert(f, sorted) <==> x in sorted || x == f
    decreases |sorted|
  {
    hide PathLess;
    if sorted != [] {
      var head, tail := sorted[0], sorted[1..];
      assert sorted == [head] + tail && head in sorted;
      PathLessIsAnOrder(f, head, f);
      if PathLess(f, head) {
        forall j | 0 <= j < |sorted| ensures PathLess(f, sorted[j]) {
          PathLessIsAnOrder(f, head, sorted[j]);
        }
      } else {
        InsertAscends(f, tail);
        var r := Insert(f, tail);
        forall j | 0 <= j < |r| ensures PathLess(head, r[j]) {
          assert r[j] in r;
        }
      }
    }
  }

  lemma {:induction false} SortAscends(files: seq<File>)
    requires DistinctPaths(files)
    ensures Ascending(Sort(files)) && forall x :: x in Sort(files) <==> x in files
    decreases |files|
  {
    hide PathLess;
    if files != [] {
      SortAscends(files[1..]);
      assert files == [files[0]] + files[1..];
      forall g <- Sort(files[1..]) ensures g.path != files[0].path {
        var i :| 0 <= i < |files[1..]| && files[1..][i] == g;
        assert files[i + 1] == g;
      }
      InsertAscends(files[0], Sort(files[1..]));
    }
  }

  lemma {:induction false} AscendingIsUnique(a: seq<File>, b: seq<File>)
    requires Ascending(a) && Ascending(b) && forall x :: x in a <==> x in b
    ensures a == b
    decreases |a|
  {
    hide PathLess;
    assert (a != [] ==> a[0] in a) && (b != [] ==> b[0] in b);
    if a != [] {
      FirstIsLeast(a, b);
      Tail(a);
      Tail(b);
      AscendingIsUnique(a[1..], b[1..]);
      assert a == [a[0]] + a[1..] && b == [b[0]] + b[1..];
    }
  }

  lemma FirstIsLeast(a: seq<File>, b: seq<File>)
    requires a != [] && b != [] && Ascending(a) && Ascending(b) && forall x :: x in a <==> x in b
    ensures a[0] == b[0]
  {
    hide PathLess;
    assert a[0] in b && b[0] in a;
    var i :| 0 <= i < |b| && b[i] == a[0];
    var j :| 0 <= j < |a| && a[j] == b[0];
    PathLessIsAnOrder(a[0], b[0], a[0]);
  }

  lemma Tail(a: seq<File>)
    requires a != [] && Ascending(a)
    ensures Ascending(a[1..]) && forall x :: x in a[1..] <==> x in a && x != a[0]
  {
    hide PathLess;
    forall i | 1 <= i < |a| ensures a[i] != a[0] {
      PathLessIsAnOrder(a[0], a[i], a[0]);
    }
    forall x | x in a && x != a[0] ensures x in a[1..] {
      var i :| 0 <= i < |a| && a[i] == x;
      assert a[1..][i - 1] == x;
    }
  }

  /** Paths are ordered byte by byte, a proper prefix first. */
  lemma PathLessIff(f: File, g: File)
    ensures PathLess(f, g) <==> Lexicographic(f.path, g.path)
  {
    CompareIff(f.path, g.path);
  }

  // What is fed to the hash.
  function Preimage(files: seq<File>): seq<byte> { Frames(Sort(files)) }

  /** For file lists with distinct paths, the hashed bytes are equal exactly when one list is a permutation
      of the other. */
  lemma SameBytesIffPermutation(a: seq<File>, b: seq<File>)
    requires DistinctPaths(a) && DistinctPaths(b) && AllFit(a) && AllFit(b)
    ensures Preimage(a) == Preimage(b) <==> multiset(a) == multiset(b)
  {
    hide Frames, Sort, Fits;
    SortAscends(a);
    SortAscends(b);
    SortPermutes(a);
    SortPermutes(b);
    if Preimage(a) == Preimage(b) {
      FramesInjective(Sort(a), Sort(b));
    }
    if multiset(a) == multiset(b) {
      assert forall x :: x in a <==> x in multiset(a);
      assert forall x :: x in b <==> x in multiset(b);
      AscendingIsUnique(Sort(a), Sort(b));
    }
  }

  // hashP3eMaterializationFiles, up to the hash: sort a copy, then feed each file in turn.
  method FeedHash(files: seq<File>) returns (fed: seq<byte>)
    ensures fed == Preimage(files)
  {
    hide Insert, Frame;
    var ordered: seq<File> := [];
    var i := |files|;
    assert files[i..] == [];
    while i > 0
      invariant 0 <= i <= |files| && ordered == Sort(files[i..])
    {
      i := i - 1;
      assert files[i..][1..] == files[i + 1..];
      ordered := Insert(files[i], ordered);
    }
    assert files[0..] == files;
    fed := [];
    for j := 0 to |ordered|
      invariant fed + Frames(ordered[j..]) == Frames(ordered)
    {
      assert ordered[j..][1..] == ordered[j + 1..];
      fed := fed + Frame(ordered[j]);
    }
  }
}
