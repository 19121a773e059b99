/** appendCanonicalJSON and appendCanonicalJSONString, writing to a growing buffer. */
module CanonicalEncoder {
  import opened Common
  import opened Unicode
  import opened NumberText
  import opened JsonText
  import opened JsonTree

  class Buffer {
    var bytes: seq<byte>

    constructor ()
      ensures bytes == []
    {
      bytes := [];
    }

    method Write(b: seq<byte>)
      modifies this
      ensures bytes == old(bytes) + b
    {
      bytes := bytes + b;
    }
  }

  method AllValidScalars(s: string) returns (ok: bool)
    ensures ok == ValidScalars(s)
  {
    for i := 0 to |s|
      invariant forall c <- s[..i] :: !IsNoncharacter(c as int)
    {
      if IsNoncharacter(s[i] as int) {
        assert s[i] in s;
        return false;
      }
      assert s[..i + 1] == s[..i] + [s[i]];
    }
    assert s[..|s|] == s;
    return true;
  }

  method AppendString(ghost w: Writer, output: Buffer, s: string) returns (ok: bool)
    requires w.Canonical?
    modifies output
    ensures ok == ValidScalars(s)
    ensures ok ==> output.bytes == old(output.bytes) + StringText(w, s)
    ensures !ok ==> output.bytes == old(output.bytes)
  {
    hide Escape, ValidScalars;
    ok := AllValidScalars(s);
    if !ok {
      return;
    }
    ghost var start := output.bytes;
    output.Write([QUOTE]);
    for i := 0 to |s|
      invariant output.bytes + BodyText(false, s[i..]) == start + [QUOTE] + BodyText(false, s)
    {
      assert s[i..][0] == s[i] && s[i..][1..] == s[i + 1..];
      ghost var before := output.bytes;
      output.Write(Escape(false, s[i]));
      assert before + (Escape(false, s[i]) + BodyText(false, s[i + 1..])) == output.bytes + BodyText(false, s[i + 1..]);
    }
    output.Write([QUOTE]);
    assert start + [QUOTE] + BodyText(false, s) == start + StringText(w, s);
  }

  // reflect.Value.MapKeys: the keys in no particular order.
  method MapKeys(m: map<string, Json>) returns (keys: seq<string>)
    ensures Lists(keys, m.Keys)
    ensures forall i, j :: 0 <= i < j < |keys| ==> keys[i] != keys[j]
  {
    keys := [];
    var left := m.Keys;
    while left != {}
      invariant left <= m.Keys && forall k :: k in keys <==> k in m.Keys - left
      invariant forall i, j :: 0 <= i < j < |keys| ==> keys[i] != keys[j]
      decreases left
    {
      var k :| k in left;
      assert k !in keys;
      keys := keys + [k];
      left := left - {k};
    }
  }

  // One pass of insertion: k goes in front of the first key after it.
  method Insert(ghost w: Writer, sorted: seq<string>, k: string) returns (r: seq<string>)
    requires w.Canonical? && Ascending(w, sorted) && k !in sorted
    ensures Ascending(w, r) && forall x :: x in r <==> x in sorted || x == k
  {
    hide Before;
    var i := 0;
    while i < |sorted|
      invariant 0 <= i <= |sorted|
      invariant forall j :: 0 <= j < i ==> Before(w, sorted[j], k)
    {
      var c := CompareUtf16(k, sorted[i]);
      BeforeIsLess(w, k, sorted[i]);
      BeforeIsLess(w, sorted[i], k);
      if c < 0 {
        break;
      }
      i := i + 1;
    }
    r := sorted[..i] + [k] + sorted[i..];
    InsertKeepsOrder(w, sorted, k, i);
  }

  lemma BeforeIsLess(w: Writer, a: string, b: string)
    requires w.Canonical?
    ensures Before(w, a, b) == Less(a, b)
  {
  }

  lemma InsertKeepsOrder(w: Writer, sorted: seq<string>, k: string, i: nat)
    requires Ascending(w, sorted) && i <= |sorted|
    requires (forall j :: 0 <= j < i ==> Before(w, sorted[j], k)) && (i < |sorted| ==> Before(w, k, sorted[i]))
    ensures var r := sorted[..i] + [k] + sorted[i..]; Ascending(w, r) && forall x :: x in r <==> x in sorted || x == k
  {
    hide Before;
    InsertAdds(sorted, k, i);
    var r := sorted[..i] + [k] + sorted[i..];
    forall j | i <= j < |sorted| ensures Before(w, k, sorted[j]) {
      BeforeIsAStrictTotalOrder(w, k, sorted[i], sorted[j]);
    }
    forall a, b | 0 <= a < b < |r| ensures Before(w, r[a], r[b]) {
      assert r[a] == if a < i then sorted[a] else if a == i then k else sorted[a - 1];
      assert r[b] == if b < i then sorted[b] else if b == i then k else sorted[b - 1];
    }
  }

  lemma InsertAdds(sorted: seq<string>, k: string, i: nat)
    requires i <= |sorted|
    ensures forall x :: x in sorted[..i] + [k] + sorted[i..] <==> x in sorted || x == k
  {
    assert sorted == sorted[..i] + sorted[i..];
  }

  // sort.Slice under compareUTF16: whatever order the keys come in, the result is the same.
  method SortKeys(ghost w: Writer, keys: seq<string>, ghost s: set<string>) returns (r: seq<string>)
    requires w.Canonical? && Lists(keys, s) && forall i, j :: 0 <= i < j < |keys| ==> keys[i] != keys[j]
    ensures r == Keys(w, s)
  {
    hide Before, Keys, Ascending;
    r := [];
    assert Ascending(w, r) by { EmptyAscends(w); }
    for i := 0 to |keys|
      invariant Ascending(w, r) && forall k :: k in r <==> k in keys[..i]
    {
      assert keys[..i + 1] == keys[..i] + [keys[i]];
      r := Insert(w, r, keys[i]);
    }
    assert keys[..|keys|] == keys;
    OrderIsUnique(w, r, Keys(w, s));
  }

  lemma EmptyAscends(w: Writer)
    ensures Ascending(w, [])
  {
  }

  /** Appends the canonical print of t; fails exactly on a tree that has none. */
  method AppendCanonical(fl: Floats, output: Buffer, t: Json) returns (ok: bool)
    modifies output
    ensures ok == Printable(Canonical(fl), t)
    ensures ok ==> output.bytes == old(output.bytes) + Print(Canonical(fl), t)
    decreases t, 2
  {
    hide PrintItems, PrintMembers;
    ghost var w := Canonical(fl);
    match t
    case Null =>
      output.Write(NULL_TEXT);
      ok := true;
    case Bool(b) =>
      output.Write(if b then TRUE_TEXT else FALSE_TEXT);
      ok := true;
    case Num(raw) =>
      var text := CanonicalNumberText(fl, raw);
      if text.Some? {
        output.Write(text.value);
      }
      ok := text.Some?;
    case Str(s) =>
      ok := AppendString(Canonical(fl), output, s);
    case Arr(_) =>
      ok := AppendArray(fl, output, t);
      assert ok ==> old(output.bytes) + Print(w, t) == old(output.bytes) + [OPEN_BRACKET] + PrintItems(w, t, 0);
    case Obj(_) =>
      ok := AppendObject(fl, output, t);
      assert ok ==> old(output.bytes) + Print(w, t) == old(output.bytes) + [OPEN_BRACE] + PrintMembers(w, t, 0);
  }

  lemma {:induction false} PrintableIff(w: Writer, t: Json)
    ensures t.Arr? ==> (Printable(w, t) <==> forall i :: 0 <= i < |t.items| ==> Printable(w, t.items[i]))
    ensures t.Obj? ==> (Printable(w, t) <==> forall k :: k in t.fields ==> ValidScalars(k) && Printable(w, t.fields[k]))
  {
  }

  lemma NextItem(w: Writer, t: Json, i: nat, before: seq<byte>)
    requires t.Arr? && Printable(w, t) && i < |t.items| && Printable(w, t.items[i])
    ensures before + PrintItems(w, t, i) == before + Lead(i) + Print(w, t.items[i]) + PrintItems(w, t, i + 1)
  {
    hide Print, Printable;
    var a, b, c := Lead(i), Print(w, t.items[i]), PrintItems(w, t, i + 1);
    assert before + (a + (b + c)) == before + a + b + c;
  }

  lemma NextMember(w: Writer, t: Json, i: nat, before: seq<byte>)
    requires t.Obj? && Printable(w, t) && i < |Keys(w, t.fields.Keys)|
    requires var k := Keys(w, t.fields.Keys)[i]; k in t.fields && Printable(w, t.fields[k])
    ensures var k := Keys(w, t.fields.Keys)[i];
            before + PrintMembers(w, t, i) ==
            before + Lead(i) + StringText(w, k) + [COLON] + Print(w, t.fields[k]) + PrintMembers(w, t, i + 1)
  {
    hide Print, Printable, Keys, StringText, Ascending, Lists;
    var k := Keys(w, t.fields.Keys)[i];
    var a, b, c, d := Lead(i), StringText(w, k), Print(w, t.fields[k]), PrintMembers(w, t, i + 1);
    assert before + (a + (b + ([COLON] + (c + d)))) == before + a + b + [COLON] + c + d;
  }

  method AppendItem(fl: Floats, output: Buffer, t: Json, i: nat) returns (ok: bool)
    requires t.Arr? && i < |t.items|
    modifies output
    ensures ok == Printable(Canonical(fl), t.items[i])
    ensures ok ==> output.bytes == old(output.bytes) + Lead(i) + Print(Canonical(fl), t.items[i])
    decreases t, 0
  {
    hide Print, Printable;
    if i > 0 {
      output.Write([COMMA]);
    }
    assert output.bytes == old(output.bytes) + Lead(i);
    ok := AppendCanonical(fl, output, t.items[i]);
  }

  method AppendMember(fl: Floats, output: Buffer, t: Json, i: nat, k: string) returns (ok: bool)
    requires t.Obj? && k in t.fields
    modifies output
    ensures ok == (ValidScalars(k) && Printable(Canonical(fl), t.fields[k]))
    ensures ok ==> output.bytes ==
                   old(output.bytes) + Lead(i) + StringText(Canonical(fl), k) + [COLON]
                   + Print(Canonical(fl), t.fields[k])
    decreases t, 0
  {
    hide Print, Printable, StringText, ValidScalars;
    if i > 0 {
      output.Write([COMMA]);
    }
    assert output.bytes == old(output.bytes) + Lead(i);
    ok := AppendString(Canonical(fl), output, k);
    if ok {
      output.Write([COLON]);
      ok := AppendCanonical(fl, output, t.fields[k]);
    }
  }

  method AppendArray(fl: Floats, output: Buffer, t: Json) returns (ok: bool)
    requires t.Arr?
    modifies output
    ensures ok == Printable(Canonical(fl), t)
    ensures ok ==> output.bytes == old(output.bytes) + [OPEN_BRACKET] + PrintItems(Canonical(fl), t, 0)
    decreases t, 1
  {
    hide Print, Printable;
    ghost var w := Canonical(fl);
    PrintableIff(w, t);
    output.Write([OPEN_BRACKET]);
    ghost var start := output.bytes;
    for i := 0 to |t.items|
      invariant forall j :: 0 <= j < i ==> Printable(w, t.items[j])
      invariant Printable(w, t) ==> output.bytes + PrintItems(w, t, i) == start + PrintItems(w, t, 0)
    {
      ghost var before := output.bytes;
      ok := AppendItem(fl, output, t, i);
      if !ok {
        return;
      }
      if Printable(w, t) {
        NextItem(w, t, i, before);
      }
    }
    output.Write([CLOSE_BRACKET]);
    ok := true;
  }

  method AppendObject(fl: Floats, output: Buffer, t: Json) returns (ok: bool)
    requires t.Obj?
    modifies output
    ensures ok == Printable(Canonical(fl), t)
    ensures ok ==> output.bytes == old(output.bytes) + [OPEN_BRACE] + PrintMembers(Canonical(fl), t, 0)
    decreases t, 1
  {
    hide Print, Printable, Keys, Ascending, ValidScalars, StringText;
    ghost var w := Canonical(fl);
    PrintableIff(w, t);
    var keys := MapKeys(t.fields);
    keys := SortKeys(w, keys, t.fields.Keys);
    output.Write([OPEN_BRACE]);
    ghost var start := output.bytes;
    for i := 0 to |keys|
      invariant forall k <- keys[..i] :: k in t.fields && ValidScalars(k) && Printable(w, t.fields[k])
      invariant Printable(w, t) ==> output.bytes + PrintMembers(w, t, i) == start + PrintMembers(w, t, 0)
    {
      KeyIn(w, t.fields, i);
      ghost var before := output.bytes;
      ok := AppendMember(fl, output, t, i, keys[i]);
      if !ok {
        return;
      }
      assert keys[..i + 1] == keys[..i] + [keys[i]];
      if Printable(w, t) {
        NextMember(w, t, i, before);
      }
    }
    assert keys[..|keys|] == keys;
    output.Write([CLOSE_BRACE]);
    ok := true;
  }
}
