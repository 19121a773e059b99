/** SHA-256 as an ideal: no two inputs share a digest, and a digest is "sha256:" and then no further colon. */
module Hashing {
  import opened Common
  import opened Unicode

  type Hash = seq<byte> -> string

  const TAG := "sha256:"

  predicate IsDigest(d: string) { TAG <= d && ':' !in d[|TAG|..] }

  ghost predicate Ideal(h: Hash) {
    && (forall x :: IsDigest(h(x)))
    && (forall x, y :: h(x) == h(y) ==> x == y)
  }

  // The bytes of a Go string.
  function Utf8(s: string): seq<byte> { if s == [] then [] else EncodeRune(s[0]) + Utf8(s[1..]) }

  lemma {:induction false} Utf8Injective(a: string, b: string)
    requires Utf8(a) == Utf8(b)
    ensures a == b
    decreases |a|
  {
    hide DecodeRune, EncodeRune;
    if a != [] && b != [] {
      DecodeEncoded(a[0], Utf8(a[1..]));
      DecodeEncoded(b[0], Utf8(b[1..]));
      Utf8Injective(a[1..], b[1..]);
      assert a == [a[0]] + a[1..] && b == [b[0]] + b[1..];
    }
  }

  function HashText(h: Hash, s: string): string { h(Utf8(s)) }

  lemma HashTextInjective(h: Hash, a: string, b: string)
    requires Ideal(h) && HashText(h, a) == HashText(h, b)
    ensures a == b
  {
    Utf8Injective(a, b);
  }

  /** What stands before the joining colon is known from the whole text, when it is empty or a digest. */
  lemma ColonSplits(a: string, b: string, c: string, d: string)
    requires (a == "" || IsDigest(a)) && (c == "" || IsDigest(c)) && a + ":" + b == c + ":" + d
    ensures a == c && b == d
  {
    var s := a + ":" + b;
    assert s[|a|] == ':' && s[|c|] == ':' by { assert s == c + ":" + d; }
    assert forall i :: 0 <= i < |a| ==> s[i] == a[i];
    assert forall i :: 0 <= i < |c| ==> s[i] == c[i] by { assert s == c + ":" + d; }
    if a != "" && c != "" {
      assert forall i :: |TAG| <= i < |a| ==> a[i] == a[|TAG|..][i - |TAG|] && a[i] != ':';
      assert forall i :: |TAG| <= i < |c| ==> c[i] == c[|TAG|..][i - |TAG|] && c[i] != ':';
    }
    assert |a| == |c|;
    assert a == s[..|a|] && c == s[..|c|] by { assert s == c + ":" + d; }
    assert b == s[|a| + 1..] && d == s[|c| + 1..] by { assert s == c + ":" + d; }
  }

  // --- An ideal hash ---

  // One character per byte, none of them a colon.
  function Spelt(b: seq<byte>): string { seq(|b|, i requires 0 <= i < |b| => Letter(b[i])) }

  function Letter(n: int): (c: char)
    requires 0 <= n < 0x100
    ensures c != ':' && c as int == 0x100 + n
  {
    (0x100 + n) as char
  }

  function Tagged(b: seq<byte>): string { TAG + Spelt(b) }

  /** Nothing that asks for an ideal hash holds for want of one. */
  lemma IdealHashExists()
    ensures Ideal(Tagged)
  {
    forall x ensures IsDigest(Tagged(x)) {
      assert Tagged(x)[|TAG|..] == Spelt(x);
    }
    forall x, y | Tagged(x) == Tagged(y) ensures x == y {
      assert Spelt(x) == Tagged(x)[|TAG|..] && Spelt(y) == Tagged(y)[|TAG|..];
      assert |x| == |Spelt(x)| == |Spelt(y)| == |y|;
      assert forall i :: 0 <= i < |x| ==> Spelt(x)[i] == Letter(x[i]) && Spelt(y)[i] == Letter(y[i]);
    }
  }
}
