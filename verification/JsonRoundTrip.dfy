/** Reading undoes writing, for every tree and either writer. */
module JsonRoundTrip {
  import opened Common
  import opened Unicode
  import opened NumberText
  import opened JsonText
  import opened JsonTree

  // The tree that reading gives back: the same one, with every number as it was written.
  ghost function Renumber(w: Writer, t: Json): (r: Json)
    requires Printable(w, t)
    ensures t.Arr? ==> r.Arr? && |r.items| == |t.items|
    ensures t.Obj? ==> r.Obj? && r.fields.Keys == t.fields.Keys
  {
    match t
    case Null => Null
    case Bool(b) => Bool(b)
    case Num(raw) => Num(NumberOut(w, raw).value)
    case Str(s) => Str(s)
    case Arr(items) => Arr(seq(|items|, i requires 0 <= i < |items| => Renumber(w, items[i])))
    case Obj(m) => Obj(map k | k in m :: Renumber(w, m[k]))
  }

  ghost predicate LawfulWriter(w: Writer) { w.Canonical? ==> Lawful(w.fl) }

  // A byte that can only start a value.
  predicate StartsValue(b: byte) {
    !IsJsonSpace(b) && b != COMMA && b != COLON && b != CLOSE_BRACKET && b != CLOSE_BRACE && b < 0x80
  }

  predicate Opens(b: byte) { b == OPEN_BRACKET || b == OPEN_BRACE || b == QUOTE }

  lemma NumberReads(w: Writer, raw: seq<byte>, rest: seq<byte>)
    requires LawfulWriter(w) && NumberOut(w, raw).Some? && EndsNumber(rest)
    ensures var t := NumberOut(w, raw).value;
            && ScanNumber(t + rest) == Some(|t|) && IsNumberText(t) && NumberOut(w, t) == Some(t)
            && t != [] && NumberBytes(t) && StartsValue(t[0]) && !Opens(t[0])
  {
    hide ScanNumber, CanonicalNumberText, NumberBytes, EndsNumber;
    var t := NumberOut(w, raw).value;
    NumberOutIsNumber(w, raw);
    NumberTextScans(t, rest);
    ScannedBytes(t);
    assert t[..|t|] == t;
  }

  lemma NumberOutIsNumber(w: Writer, raw: seq<byte>)
    requires LawfulWriter(w) && NumberOut(w, raw).Some?
    ensures var t := NumberOut(w, raw).value; IsNumberText(t) && NumberOut(w, t) == Some(t)
  {
    hide ScanNumber, CanonicalNumberText;
    if w.Canonical? {
      CanonicalNumberIdempotent(w.fl, raw);
    } else if raw == [] {
      ZeroScans([]);
      assert ZERO_TEXT + [] == ZERO_TEXT;
    }
  }

  lemma PrintStarts(w: Writer, t: Json)
    requires LawfulWriter(w) && Printable(w, t)
    ensures Print(w, t) != [] && StartsValue(Print(w, t)[0])
  {
    hide NumberOut, BodyText, PrintItems, PrintMembers;
    if t.Num? {
      NumberReads(w, t.raw, []);
    }
  }

  lemma ItemsStart(w: Writer, t: Json, i: nat, rest: seq<byte>)
    requires t.Arr? && Printable(w, t) && 0 < i <= |t.items|
    ensures var s := PrintItems(w, t, i) + rest;
            s != [] && (s[0] == CLOSE_BRACKET || s[0] == COMMA) && EndsNumber(s)
  {
  }

  lemma MembersStart(w: Writer, t: Json, i: nat, rest: seq<byte>)
    requires t.Obj? && Printable(w, t) && 0 < i <= |Keys(w, t.fields.Keys)|
    ensures var s := PrintMembers(w, t, i) + rest;
            s != [] && (s[0] == CLOSE_BRACE || s[0] == COMMA) && EndsNumber(s)
  {
  }

  lemma LiteralReads(strict: bool, w: Writer, t: Json, rest: seq<byte>)
    requires LawfulWriter(w) && Printable(w, t) && EndsNumber(rest) && (t.Null? || t.Bool? || t.Num?)
    ensures ReadValue(strict, Print(w, t) + rest) == Some((Renumber(w, t), rest))
  {
    hide NumberOut, ScanNumber, EndsNumber, ReadItems, ReadMembers;
    var s := Print(w, t) + rest;
    PrintStarts(w, t);
    assert s[0] == Print(w, t)[0];
    if t.Num? {
      NumberReads(w, t.raw, rest);
      var x := NumberOut(w, t.raw).value;
      assert s[..|x|] == x && s[|x|..] == rest;
      assert !(NULL_TEXT <= s) && !(TRUE_TEXT <= s) && !(FALSE_TEXT <= s) by {
        assert IsNumberByte(x[0]);
      }
    } else if t.Null? {
      assert s[4..] == rest;
    } else if t.value {
      assert s[4..] == rest;
    } else {
      assert s[5..] == rest;
    }
  }

  lemma StringReads(strict: bool, w: Writer, text: string, rest: seq<byte>)
    requires ValidScalars(text)
    ensures ReadString(strict, StringText(w, text) + rest) == Some((text, rest))
  {
    hide BodyText, ReadBody;
    var s := StringText(w, text) + rest;
    assert s[1..] == BodyText(w.Marshal?, text) + rest;
    BodyReads(strict, w.Marshal?, text, rest);
  }

  lemma KeyReads(strict: bool, w: Writer, k: string, seen: set<string>, rest: seq<byte>)
    requires ValidScalars(k) && k !in seen
    ensures ReadKey(strict, StringText(w, k) + ([COLON] + rest), seen) == Some((k, rest))
  {
    hide ReadString;
    StringReads(strict, w, k, [COLON] + rest);
    assert ([COLON] + rest)[1..] == rest;
  }

  /** Reading what either writer wrote gives the tree back, with its numbers as written. */
  lemma {:induction false} ValueReads(strict: bool, w: Writer, t: Json, rest: seq<byte>)
    requires LawfulWriter(w) && Printable(w, t) && EndsNumber(rest)
    ensures ReadValue(strict, Print(w, t) + rest) == Some((Renumber(w, t), rest))
    decreases t
  {
    match t
    case Null => LiteralReads(strict, w, t, rest);
    case Bool(_) => LiteralReads(strict, w, t, rest);
    case Num(_) => LiteralReads(strict, w, t, rest);
    case Str(text) =>
      TextReads(strict, w, text, rest);
    case Arr(_) =>
      hide Print, ReadValue, Printable;
      ItemsRead(strict, w, t, 0, rest);
      assert Renumber(w, t).items[..0] == [];
      ArrayReads(strict, w, t, rest);
    case Obj(_) =>
      hide Print, ReadValue, Printable;
      MembersRead(strict, w, t, 0, rest);
      assert Written(w, t, 0) == map[];
      ObjectReads(strict, w, t, rest);
  }

  lemma TextReads(strict: bool, w: Writer, text: string, rest: seq<byte>)
    requires Printable(w, Str(text))
    ensures ReadValue(strict, Print(w, Str(text)) + rest) == Some((Renumber(w, Str(text)), rest))
  {
    StringReads(strict, w, text, rest);
  }

  lemma ArrayReads(strict: bool, w: Writer, t: Json, rest: seq<byte>)
    requires t.Arr? && Printable(w, t)
    requires ReadItems(strict, PrintItems(w, t, 0) + rest, []) == Some((Renumber(w, t), rest))
    ensures ReadValue(strict, Print(w, t) + rest) == Some((Renumber(w, t), rest))
  {
    hide ReadValue, ReadItems, PrintItems, Renumber;
    ArrayOpens(strict, PrintItems(w, t, 0), rest);
  }

  lemma ObjectReads(strict: bool, w: Writer, t: Json, rest: seq<byte>)
    requires t.Obj? && Printable(w, t)
    requires ReadMembers(strict, PrintMembers(w, t, 0) + rest, map[]) == Some((Renumber(w, t), rest))
    ensures ReadValue(strict, Print(w, t) + rest) == Some((Renumber(w, t), rest))
  {
    hide ReadValue, ReadMembers, PrintMembers, Renumber;
    ObjectOpens(strict, PrintMembers(w, t, 0), rest);
  }

  lemma ArrayOpens(strict: bool, body: seq<byte>, rest: seq<byte>)
    ensures ReadValue(strict, [OPEN_BRACKET] + body + rest) == ReadItems(strict, body + rest, [])
  {
    assert ([OPEN_BRACKET] + body + rest)[1..] == body + rest;
  }

  lemma ObjectOpens(strict: bool, body: seq<byte>, rest: seq<byte>)
    ensures ReadValue(strict, [OPEN_BRACE] + body + rest) == ReadMembers(strict, body + rest, map[])
  {
    assert ([OPEN_BRACE] + body + rest)[1..] == body + rest;
  }

  lemma {:induction false} ItemsRead(strict: bool, w: Writer, t: Json, i: nat, rest: seq<byte>)
    requires LawfulWriter(w) && t.Arr? && Printable(w, t) && i <= |t.items|
    ensures ReadItems(strict, PrintItems(w, t, i) + rest, Renumber(w, t).items[..i]) == Some((Renumber(w, t), rest))
    decreases t, |t.items| - i
  {
    hide Print, Renumber, Printable, ReadValue, ReadItems;
    var s := PrintItems(w, t, i) + rest;
    var done := Renumber(w, t).items;
    if i == |t.items| {
      ArrayCloses(strict, done, rest);
      assert done[..i] == done;
    } else {
      ItemPrintable(w, t, i);
      var tail := PrintItems(w, t, i + 1) + rest;
      ItemsStart(w, t, i + 1, rest);
      ValueReads(strict, w, t.items[i], tail);
      ItemsRead(strict, w, t, i + 1, rest);
      PrintStarts(w, t.items[i]);
      Regroup(Lead(i), Print(w, t.items[i]), PrintItems(w, t, i + 1), rest);
      assert done[..i + 1] == done[..i] + [Renumber(w, t.items[i])];
      NextItem(strict, i, Print(w, t.items[i]) + tail, done[..i], Renumber(w, t.items[i]), tail);
    }
  }

  lemma ItemPrintable(w: Writer, t: Json, i: nat)
    requires t.Arr? && Printable(w, t) && i < |t.items|
    ensures Printable(w, t.items[i]) && Renumber(w, t).items[i] == Renumber(w, t.items[i])
  {
  }

  lemma Regroup(a: seq<byte>, b: seq<byte>, c: seq<byte>, d: seq<byte>)
    ensures (a + (b + c)) + d == a + (b + (c + d))
  {
  }

  lemma ArrayCloses(strict: bool, items: seq<Json>, rest: seq<byte>)
    ensures ReadItems(strict, [CLOSE_BRACKET] + rest, items) == Some((Arr(items), rest))
  {
  }

  lemma ObjectCloses(strict: bool, fields: map<string, Json>, rest: seq<byte>)
    ensures ReadMembers(strict, [CLOSE_BRACE] + rest, fields) == Some((Obj(fields), rest))
  {
  }

  lemma NextItem(strict: bool, i: nat, s: seq<byte>, items: seq<Json>, v: Json, tail: seq<byte>)
    requires |items| == i && s != [] && StartsValue(s[0]) && ReadValue(strict, s) == Some((v, tail))
    ensures ReadItems(strict, Lead(i) + s, items) == ReadItems(strict, tail, items + [v])
  {
    hide ReadValue;
    var x := Lead(i) + s;
    if i > 0 {
      assert x[1..] == s;
    } else {
      assert x == s;
    }
  }

  ghost function Restricted(m: map<string, Json>, ks: seq<string>): map<string, Json> {
    map k | k in m && k in ks :: m[k]
  }

  lemma RestrictedGrows(m: map<string, Json>, ks: seq<string>, i: nat)
    requires i < |ks| && (forall k <- ks :: k in m) && forall a, b :: 0 <= a < b < |ks| ==> ks[a] != ks[b]
    ensures ks[i] !in Restricted(m, ks[..i])
    ensures Restricted(m, ks[..i]) == map[] <==> i == 0
    ensures Restricted(m, ks[..i + 1]) == Restricted(m, ks[..i])[ks[i] := m[ks[i]]]
  {
    assert ks[..i + 1] == ks[..i] + [ks[i]];
    if i > 0 {
      assert ks[..i][0] == ks[0] && ks[0] in Restricted(m, ks[..i]);
    }
  }

  // The members written before index i.
  ghost function Written(w: Writer, t: Json, i: nat): map<string, Json>
    requires t.Obj? && Printable(w, t) && i <= |Keys(w, t.fields.Keys)|
  {
    Restricted(Renumber(w, t).fields, Keys(w, t.fields.Keys)[..i])
  }

  lemma WrittenGrows(w: Writer, t: Json, i: nat)
    requires t.Obj? && Printable(w, t) && i < |Keys(w, t.fields.Keys)| && Keys(w, t.fields.Keys)[i] in t.fields
    ensures var k := Keys(w, t.fields.Keys)[i];
            && ValidScalars(k) && Printable(w, t.fields[k])
            && k !in Written(w, t, i) && (Written(w, t, i) == map[] <==> i == 0)
            && Written(w, t, i + 1) == Written(w, t, i)[k := Renumber(w, t.fields[k])]
  {
    hide Renumber, Keys, Printable, ValidScalars, Before, Restricted;
    var ks := Keys(w, t.fields.Keys);
    KeysDistinct(w, ks);
    MemberPrintable(w, t, ks[i]);
    RestrictedGrows(Renumber(w, t).fields, ks, i);
  }

  lemma AllWritten(w: Writer, t: Json)
    requires t.Obj? && Printable(w, t)
    ensures Obj(Written(w, t, |Keys(w, t.fields.Keys)|)) == Renumber(w, t)
  {
    hide Keys, Before;
    var ks := Keys(w, t.fields.Keys);
    assert ks[..|ks|] == ks;
    assert Written(w, t, |ks|) == Renumber(w, t).fields;
  }

  lemma MemberPrintable(w: Writer, t: Json, k: string)
    requires t.Obj? && Printable(w, t) && k in t.fields
    ensures ValidScalars(k) && Printable(w, t.fields[k]) && Renumber(w, t).fields[k] == Renumber(w, t.fields[k])
  {
  }

  lemma {:induction false} MembersRead(strict: bool, w: Writer, t: Json, i: nat, rest: seq<byte>)
    requires LawfulWriter(w) && t.Obj? && Printable(w, t) && i <= |Keys(w, t.fields.Keys)|
    ensures ReadMembers(strict, PrintMembers(w, t, i) + rest, Written(w, t, i)) == Some((Renumber(w, t), rest))
    decreases t, |Keys(w, t.fields.Keys)| - i
  {
    hide Keys, Ascending, Lists, Renumber, Written, Printable, Print, ReadValue, ReadMembers, StringText, ValidScalars;
    var ks := Keys(w, t.fields.Keys);
    var s := PrintMembers(w, t, i) + rest;
    if i == |ks| {
      AllWritten(w, t);
      ObjectCloses(strict, Written(w, t, i), rest);
    } else {
      KeyIn(w, t.fields, i);
      WrittenGrows(w, t, i);
      var v := t.fields[ks[i]];
      var tail := PrintMembers(w, t, i + 1) + rest;
      MembersStart(w, t, i + 1, rest);
      ValueReads(strict, w, v, tail);
      MembersRead(strict, w, t, i + 1, rest);
      RegroupMember(Lead(i), StringText(w, ks[i]), Print(w, v), PrintMembers(w, t, i + 1), rest);
      NextMember(strict, w, i, ks[i], Print(w, v) + tail, Written(w, t, i), Renumber(w, v), tail);
    }
  }

  lemma RegroupMember(a: seq<byte>, b: seq<byte>, c: seq<byte>, d: seq<byte>, e: seq<byte>)
    ensures (a + (b + ([COLON] + (c + d)))) + e == a + (b + ([COLON] + (c + (d + e))))
  {
  }

  lemma NextMember(strict: bool, w: Writer, i: nat, k: string, s: seq<byte>, fields: map<string, Json>, v: Json,
                   tail: seq<byte>)
    requires (i == 0 <==> fields == map[]) && ValidScalars(k) && k !in fields && ReadValue(strict, s) == Some((v, tail))
    ensures ReadMembers(strict, Lead(i) + (StringText(w, k) + ([COLON] + s)), fields) ==
            ReadMembers(strict, tail, fields[k := v])
  {
    hide ReadValue, ReadKey;
    var x := StringText(w, k) + ([COLON] + s);
    KeyReads(strict, w, k, fields.Keys, s);
    if i > 0 {
      assert (Lead(i) + x)[1..] == x;
    } else {
      assert Lead(i) + x == x;
    }
  }
}
