/** JSON values, the two writers of them (canonical and encoding/json), and the reader. */
module JsonTree {
  import opened Common
  import opened Unicode
  import opened NumberText
  import opened JsonText

  const COMMA: byte := 0x2c
  const COLON: byte := 0x3a
  const OPEN_BRACKET: byte := 0x5b
  const CLOSE_BRACKET: byte := 0x5d
  const OPEN_BRACE: byte := 0x7b
  const CLOSE_BRACE: byte := 0x7d

  const TRUE_TEXT: seq<byte> := [0x74, 0x72, 0x75, 0x65]
  const FALSE_TEXT: seq<byte> := [0x66, 0x61, 0x6c, 0x73, 0x65]

  // What decodeUniqueJSON builds: a number keeps its literal text, an object is a map.
  datatype Json =
    | Null
    | Bool(value: bool)
    | Num(raw: seq<byte>)
    | Str(text: string)
    | Arr(items: seq<Json>)
    | Obj(fields: map<string, Json>)

  // appendCanonicalJSON, or json.Marshal.
  datatype Writer = Canonical(fl: Floats) | Marshal

  // --- Key order ---

  // Object keys are sorted by UTF-16 code units, or (by encoding/json) by code points, which is the
  // order of their UTF-8 bytes.
  function Units(w: Writer, s: string): seq<nat> {
    if w.Canonical? then Utf16(s) else seq(|s|, i requires 0 <= i < |s| => s[i] as nat)
  }

  predicate Before(w: Writer, a: string, b: string) { Compare(Units(w, a), Units(w, b)) < 0 }

  lemma BeforeIsAStrictTotalOrder(w: Writer, a: string, b: string, c: string)
    ensures !Before(w, a, a)
    ensures Before(w, a, b) && Before(w, b, c) ==> Before(w, a, c)
    ensures a != b ==> Before(w, a, b) || Before(w, b, a)
  {
    CompareIsAnOrder(Units(w, a), Units(w, b), Units(w, c));
    CompareIsAnOrder(Units(w, a), Units(w, a), Units(w, a));
    if Units(w, a) == Units(w, b) {
      if w.Canonical? {
        Utf16Injective(a, b);
      } else {
        assert forall i :: 0 <= i < |a| ==> a[i] as nat == Units(w, a)[i] == Units(w, b)[i] == b[i] as nat;
      }
    }
  }

  ghost predicate FirstCodePoint(a: string, b: string, i: int) {
    0 <= i < |a| && i < |b| && a[..i] == b[..i] && a[i] < b[i]
  }

  /** The canonical order is the one by UTF-16 code units; encoding/json goes by code points. */
  lemma BeforeIff(w: Writer, a: string, b: string)
    ensures w.Canonical? ==> (Before(w, a, b) <==> a < b || exists i :: FirstDiffers(a, b, i))
    ensures w.Marshal? ==> (Before(w, a, b) <==> a < b || exists i :: FirstCodePoint(a, b, i))
  {
    hide Compare, FirstDiffers;
    if w.Canonical? {
      LessIff(a, b);
    } else {
      CompareIff(Units(w, a), Units(w, b));
      CodePointsDecide(w, a, b);
    }
  }

  lemma CodePointsDecide(w: Writer, a: string, b: string)
    requires w.Marshal?
    ensures Lexicographic(Units(w, a), Units(w, b)) <==> a < b || exists i :: FirstCodePoint(a, b, i)
  {
    var x, y := Units(w, a), Units(w, b);
    assert forall i :: 0 <= i < |a| ==> x[i] == a[i] as nat;
    assert forall i :: 0 <= i < |b| ==> y[i] == b[i] as nat;
    assert x < y <==> a < b by { PrefixesAgree(w, a, b); }
    if i :| 0 <= i < |x| && i < |y| && x[..i] == y[..i] && x[i] < y[i] {
      assert forall k :: 0 <= k < i ==> x[..i][k] == x[k] && y[..i][k] == y[k];
      assert a[..i] == b[..i] && FirstCodePoint(a, b, i);
    }
    if i :| FirstCodePoint(a, b, i) {
      assert forall k :: 0 <= k < i ==> a[..i][k] == a[k] && b[..i][k] == b[k];
      assert x[..i] == y[..i] && x[i] < y[i];
    }
  }

  lemma PrefixesAgree(w: Writer, a: string, b: string)
    requires w.Marshal?
    ensures Units(w, a) < Units(w, b) <==> a < b
  {
    var x, y := Units(w, a), Units(w, b);
    if x < y {
      assert forall i :: 0 <= i < |a| ==> a[i] as nat == x[i] == y[i] == b[i] as nat;
    }
  }

  predicate Ascending(w: Writer, ks: seq<string>) {
    forall i, j :: 0 <= i < j < |ks| ==> Before(w, ks[i], ks[j])
  }

  lemma {:induction false} LeastExists(w: Writer, s: set<string>)
    requires s != {}
    ensures exists k :: k in s && forall j <- s - {k} :: Before(w, k, j)
    decreases |s|
  {
    var x :| x in s;
    if s == {x} {
      assert forall j <- s - {x} :: Before(w, x, j);
    } else {
      LeastExists(w, s - {x});
      var k :| k in s - {x} && forall j <- s - {x} - {k} :: Before(w, k, j);
      BeforeIsAStrictTotalOrder(w, x, k, x);
      if Before(w, x, k) {
        forall j <- s - {x} ensures Before(w, x, j) {
          BeforeIsAStrictTotalOrder(w, x, k, j);
        }
      } else {
        assert forall j <- s - {k} :: Before(w, k, j);
      }
    }
  }

  ghost predicate SameKeys(xs: seq<string>, ys: seq<string>) { forall k :: k in xs <==> k in ys }

  ghost predicate Lists(ks: seq<string>, s: set<string>) { forall k :: k in ks <==> k in s }

  // The keys in order.
  ghost function Keys(w: Writer, s: set<string>): (ks: seq<string>)
    ensures Ascending(w, ks) && Lists(ks, s)
    decreases |s|
  {
    if s == {} then []
    else
      LeastExists(w, s);
      var k :| k in s && forall j <- s - {k} :: Before(w, k, j);
      PrependLeast(w, k, Keys(w, s - {k}), s);
      [k] + Keys(w, s - {k})
  }

  lemma PrependLeast(w: Writer, k: string, tail: seq<string>, s: set<string>)
    requires k in s && (forall j <- s - {k} :: Before(w, k, j)) && Ascending(w, tail) && Lists(tail, s - {k})
    ensures Ascending(w, [k] + tail) && Lists([k] + tail, s)
  {
  }

  /** There is only one way to put a set of keys in order. */
  lemma {:induction false} OrderIsUnique(w: Writer, xs: seq<string>, ys: seq<string>)
    requires Ascending(w, xs) && Ascending(w, ys) && SameKeys(xs, ys)
    ensures xs == ys
    decreases |xs|
  {
    hide Ascending, SameKeys;
    BothEmpty(xs, ys);
    if xs != [] {
      FirstIsLeast(w, xs, ys);
      RestsAgree(w, xs, ys);
      OrderIsUnique(w, xs[1..], ys[1..]);
      assert xs == [xs[0]] + xs[1..] && ys == [ys[0]] + ys[1..];
    }
  }

  lemma BothEmpty(xs: seq<string>, ys: seq<string>)
    requires SameKeys(xs, ys)
    ensures xs == [] <==> ys == []
  {
    assert (xs != [] ==> xs[0] in xs) && (ys != [] ==> ys[0] in ys);
  }

  lemma RestsAgree(w: Writer, xs: seq<string>, ys: seq<string>)
    requires xs != [] && ys != [] && Ascending(w, xs) && Ascending(w, ys) && SameKeys(xs, ys) && xs[0] == ys[0]
    ensures Ascending(w, xs[1..]) && Ascending(w, ys[1..]) && SameKeys(xs[1..], ys[1..])
  {
    hide Ascending;
    Rest(w, xs);
    Rest(w, ys);
  }

  lemma FirstIsLeast(w: Writer, xs: seq<string>, ys: seq<string>)
    requires xs != [] && ys != [] && Ascending(w, xs) && Ascending(w, ys) && SameKeys(xs, ys)
    ensures xs[0] == ys[0]
  {
    hide Before;
    assert xs[0] in ys && ys[0] in xs;
    var i :| 0 <= i < |ys| && ys[i] == xs[0];
    var j :| 0 <= j < |xs| && xs[j] == ys[0];
    BeforeIsAStrictTotalOrder(w, xs[0], ys[0], xs[0]);
  }

  lemma Rest(w: Writer, xs: seq<string>)
    requires xs != [] && Ascending(w, xs)
    ensures Ascending(w, xs[1..]) && forall k :: k in xs[1..] <==> k in xs && k != xs[0]
  {
    hide Before;
    forall i | 1 <= i < |xs| ensures xs[i] != xs[0] {
      BeforeIsAStrictTotalOrder(w, xs[0], xs[i], xs[0]);
    }
    forall k | k in xs && k != xs[0] ensures k in xs[1..] {
      var i :| 0 <= i < |xs| && xs[i] == k;
      assert xs[1..][i - 1] == k;
    }
  }

  lemma KeysDistinct(w: Writer, ks: seq<string>)
    requires Ascending(w, ks)
    ensures forall i, j :: 0 <= i < j < |ks| ==> ks[i] != ks[j]
  {
    forall i, j | 0 <= i < j < |ks| ensures ks[i] != ks[j] {
      BeforeIsAStrictTotalOrder(w, ks[i], ks[j], ks[i]);
    }
  }

  // --- Writing ---

  // A number as written: in canonical form, or as it came (the empty literal stands for 0).
  function NumberOut(w: Writer, raw: seq<byte>): Option<seq<byte>> {
    match w
    case Canonical(fl) => CanonicalNumberText(fl, raw)
    case Marshal => if raw == [] then Some(ZERO_TEXT) else if IsNumberText(raw) then Some(raw) else None
  }

  function StringText(w: Writer, s: string): seq<byte> { [QUOTE] + BodyText(w.Marshal?, s) }

  ghost predicate Printable(w: Writer, t: Json) {
    match t
    case Null => true
    case Bool(_) => true
    case Num(raw) => NumberOut(w, raw).Some?
    case Str(s) => ValidScalars(s)
    case Arr(items) => forall i :: 0 <= i < |items| ==> Printable(w, items[i])
    case Obj(m) => forall k :: k in m ==> ValidScalars(k) && Printable(w, m[k])
  }

  function Lead(i: nat): seq<byte> { if i == 0 then [] else [COMMA] }

  ghost function Print(w: Writer, t: Json): seq<byte>
    requires Printable(w, t)
    decreases t
  {
    match t
    case Null => NULL_TEXT
    case Bool(b) => if b then TRUE_TEXT else FALSE_TEXT
    case Num(raw) => NumberOut(w, raw).value
    case Str(s) => StringText(w, s)
    case Arr(_) => [OPEN_BRACKET] + PrintItems(w, t, 0)
    case Obj(_) => [OPEN_BRACE] + PrintMembers(w, t, 0)
  }

  ghost function PrintItems(w: Writer, t: Json, i: nat): seq<byte>
    requires t.Arr? && Printable(w, t) && i <= |t.items|
    decreases t, |t.items| - i
  {
    if i == |t.items| then [CLOSE_BRACKET]
    else Lead(i) + (Print(w, t.items[i]) + PrintItems(w, t, i + 1))
  }

  ghost function PrintMembers(w: Writer, t: Json, i: nat): seq<byte>
    requires t.Obj? && Printable(w, t) && i <= |Keys(w, t.fields.Keys)|
    decreases t, |Keys(w, t.fields.Keys)| - i
  {
    var ks := Keys(w, t.fields.Keys);
    if i == |ks| then [CLOSE_BRACE]
    else
      KeyIn(w, t.fields, i);
      Lead(i) + (StringText(w, ks[i]) + ([COLON] + (Print(w, t.fields[ks[i]]) + PrintMembers(w, t, i + 1))))
  }

  lemma KeyIn(w: Writer, m: map<string, Json>, i: nat)
    requires i < |Keys(w, m.Keys)|
    ensures Keys(w, m.Keys)[i] in m
  {
  }

  // --- Reading ---

  predicate IsJsonSpace(b: byte) { b == 0x20 || b == 0x09 || b == 0x0a || b == 0x0d }

  function SkipSpace(s: seq<byte>): (r: seq<byte>)
    ensures |r| <= |s| && (r != [] ==> !IsJsonSpace(r[0]))
  {
    if s != [] && IsJsonSpace(s[0]) then SkipSpace(s[1..]) else s
  }

  // After a member or item, the next one needs a comma.
  function Separated(first: bool, s: seq<byte>): (r: Option<seq<byte>>)
    ensures r.Some? ==> |r.value| <= |s|
  {
    if first then Some(s) else if s != [] && s[0] == COMMA then Some(s[1..]) else None
  }

  function ReadLiteral(s: seq<byte>): (r: Option<(Json, seq<byte>)>)
    ensures r.Some? ==> |r.value.1| < |s|
  {
    if NULL_TEXT <= s then Some((Null, s[4..]))
    else if TRUE_TEXT <= s then Some((Bool(true), s[4..]))
    else if FALSE_TEXT <= s then Some((Bool(false), s[5..]))
    else
      match ScanNumber(s)
      case None => None
      case Some(n) => Some((Num(s[..n]), s[n..]))
  }

  function ReadString(strict: bool, s: seq<byte>): (r: Option<(string, seq<byte>)>)
    ensures r.Some? ==> |r.value.1| < |s| && ValidScalars(r.value.0)
  {
    if s == [] || s[0] != QUOTE then None
    else
      match ReadBody(strict, s[1..])
      case None => None
      case Some((text, rest)) => if ValidScalars(text) then Some((text, rest)) else None
  }

  // A key not seen before, and its colon.
  function ReadKey(strict: bool, s: seq<byte>, seen: set<string>): (r: Option<(string, seq<byte>)>)
    ensures r.Some? ==> |r.value.1| < |s|
  {
    match ReadString(strict, SkipSpace(s))
    case None => None
    case Some((k, rest)) =>
      var after := SkipSpace(rest);
      if k in seen || after == [] || after[0] != COLON then None else Some((k, after[1..]))
  }

  // decodeUniqueValue: the value at the front of s, and the bytes after it.
  function ReadValue(strict: bool, s: seq<byte>): (r: Option<(Json, seq<byte>)>)
    ensures r.Some? ==> |r.value.1| < |s|
    decreases |s|, 0
  {
    var s := SkipSpace(s);
    if s == [] then None
    else if s[0] == OPEN_BRACKET then ReadItems(strict, s[1..], [])
    else if s[0] == OPEN_BRACE then ReadMembers(strict, s[1..], map[])
    else if s[0] == QUOTE then
      match ReadString(strict, s)
      case None => None
      case Some((text, rest)) => Some((Str(text), rest))
    else ReadLiteral(s)
  }

  function ReadItems(strict: bool, s: seq<byte>, items: seq<Json>): (r: Option<(Json, seq<byte>)>)
    ensures r.Some? ==> |r.value.1| < |s|
    decreases |s|, 1
  {
    var s := SkipSpace(s);
    if s != [] && s[0] == CLOSE_BRACKET then Some((Arr(items), s[1..]))
    else
      match Separated(items == [], s)
      case None => None
      case Some(s) =>
        match ReadValue(strict, s)
        case None => None
        case Some((v, s)) => ReadItems(strict, s, items + [v])
  }

  function ReadMembers(strict: bool, s: seq<byte>, fields: map<string, Json>): (r: Option<(Json, seq<byte>)>)
    ensures r.Some? ==> |r.value.1| < |s|
    decreases |s|, 1
  {
    var s := SkipSpace(s);
    if s != [] && s[0] == CLOSE_BRACE then Some((Obj(fields), s[1..]))
    else
      match Separated(fields == map[], s)
      case None => None
      case Some(s) =>
        match ReadKey(strict, s, fields.Keys)
        case None => None
        case Some((k, s)) =>
          match ReadValue(strict, s)
          case None => None
          case Some((v, s)) => ReadMembers(strict, s, fields[k := v])
  }

  // decodeUniqueJSON: one value and nothing but space after it.
  function ReadDocument(strict: bool, raw: seq<byte>): Option<Json> {
    match ReadValue(strict, raw)
    case None => None
    case Some((t, rest)) => if SkipSpace(rest) == [] then Some(t) else None
  }
}
