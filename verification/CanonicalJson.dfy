/** Canonical JSON: what is written is accepted, what is accepted was written, and bytes stand for trees. */
module CanonicalJson {
  import opened Common
  import opened Unicode
  import opened NumberText
  import opened JsonText
  import opened JsonTree
  import opened JsonRoundTrip

  // --- Text that is valid UTF-8 and passes the scalar screen, wherever it stands ---

  ghost predicate Clean(x: seq<byte>) { ValidUtf8(x) && forall rest :: Outside(x + rest) == Outside(rest) }

  lemma DecodeRuneExtends(a: seq<byte>, b: seq<byte>)
    requires a != [] && !IsBad(DecodeRune(a))
    ensures DecodeRune(a + b) == DecodeRune(a)
  {
  }

  lemma {:induction false} ValidUtf8Append(a: seq<byte>, b: seq<byte>)
    requires ValidUtf8(a) && ValidUtf8(b)
    ensures ValidUtf8(a + b)
    decreases |a|
  {
    hide DecodeRune;
    if a == [] {
      assert a + b == b;
    } else {
      var n := DecodeRune(a).1;
      DecodeRuneExtends(a, b);
      assert (a + b)[n..] == a[n..] + b;
      ValidUtf8Append(a[n..], b);
    }
  }

  lemma CleanAppend(a: seq<byte>, b: seq<byte>)
    requires Clean(a) && Clean(b)
    ensures Clean(a + b)
  {
    hide ValidUtf8, Outside;
    ValidUtf8Append(a, b);
    forall rest ensures Outside(a + b + rest) == Outside(rest) {
      assert a + b + rest == a + (b + rest);
    }
  }

  predicate Plain(x: seq<byte>) { forall k :: 0 <= k < |x| ==> x[k] < 0x80 && x[k] != QUOTE }

  lemma {:induction false} PlainIsClean(x: seq<byte>)
    requires Plain(x)
    ensures Clean(x)
    decreases |x|
  {
    if x == [] {
      assert forall rest :: x + rest == rest;
    } else {
      PlainIsClean(x[1..]);
      forall rest ensures Outside(x + rest) == Outside(rest) {
        assert (x + rest)[1..] == x[1..] + rest;
      }
    }
  }

  lemma {:induction false} BodyIsUtf8(html: bool, text: string)
    ensures ValidUtf8(BodyText(html, text))
    decreases |text|
  {
    hide Escape, ValidUtf8;
    if text == [] {
      PlainAscii([QUOTE]);
    } else {
      BodyIsUtf8(html, text[1..]);
      EscapeIsUtf8(html, text[0]);
      ValidUtf8Append(Escape(html, text[0]), BodyText(html, text[1..]));
    }
  }

  lemma EscapeIsUtf8(html: bool, c: char)
    ensures ValidUtf8(Escape(html, c))
  {
    hide ValidUtf8, DecodeRune;
    var e := Escape(html, c);
    if e[0] == BACKSLASH {
      PlainAscii(e);
    } else {
      DecodeEncoded(c, []);
      OneRune(c);
    }
  }

  lemma OneRune(c: char)
    ensures ValidUtf8(EncodeRune(c))
  {
    hide DecodeRune;
    DecodeEncoded(c, []);
    assert EncodeRune(c) + [] == EncodeRune(c);
    assert ValidUtf8([]);
  }

  lemma {:induction false} PlainAscii(x: seq<byte>)
    requires forall k :: 0 <= k < |x| ==> x[k] < 0x80
    ensures ValidUtf8(x)
    decreases |x|
  {
    if x != [] {
      PlainAscii(x[1..]);
    }
  }

  lemma StringIsClean(w: Writer, text: string)
    requires ValidScalars(text)
    ensures Clean(StringText(w, text))
  {
    hide ValidUtf8, BodyText, Inside;
    var body := BodyText(w.Marshal?, text);
    var x := StringText(w, text);
    PlainAscii([QUOTE]);
    BodyIsUtf8(w.Marshal?, text);
    ValidUtf8Append([QUOTE], body);
    forall rest ensures Outside(x + rest) == Outside(rest) {
      assert (x + rest)[1..] == body + rest;
      BodyPasses(w.Marshal?, text, rest);
    }
  }

  lemma NumberIsClean(w: Writer, raw: seq<byte>)
    requires LawfulWriter(w) && NumberOut(w, raw).Some?
    ensures Clean(NumberOut(w, raw).value)
  {
    hide NumberOut, ScanNumber;
    NumberReads(w, raw, []);
    PlainIsClean(NumberOut(w, raw).value);
  }

  lemma {:induction false} PrintIsClean(w: Writer, t: Json)
    requires LawfulWriter(w) && Printable(w, t)
    ensures Clean(Print(w, t))
    decreases t
  {
    hide Clean, NumberOut, StringText, PrintItems, PrintMembers;
    match t
    case Null => PlainIsClean(NULL_TEXT);
    case Bool(b) => PlainIsClean(if b then TRUE_TEXT else FALSE_TEXT);
    case Num(raw) => NumberIsClean(w, raw);
    case Str(text) => StringIsClean(w, text);
    case Arr(_) =>
      PlainIsClean([OPEN_BRACKET]);
      ItemsAreClean(w, t, 0);
      CleanAppend([OPEN_BRACKET], PrintItems(w, t, 0));
    case Obj(_) =>
      PlainIsClean([OPEN_BRACE]);
      MembersAreClean(w, t, 0);
      CleanAppend([OPEN_BRACE], PrintMembers(w, t, 0));
  }

  lemma {:induction false} ItemsAreClean(w: Writer, t: Json, i: nat)
    requires LawfulWriter(w) && t.Arr? && Printable(w, t) && i <= |t.items|
    ensures Clean(PrintItems(w, t, i))
    decreases t, |t.items| - i
  {
    hide Clean, Print, Printable;
    if i == |t.items| {
      PlainIsClean([CLOSE_BRACKET]);
    } else {
      ItemPrintable(w, t, i);
      PrintIsClean(w, t.items[i]);
      ItemsAreClean(w, t, i + 1);
      CleanAppend(Print(w, t.items[i]), PrintItems(w, t, i + 1));
      PlainIsClean(Lead(i));
      CleanAppend(Lead(i), Print(w, t.items[i]) + PrintItems(w, t, i + 1));
    }
  }

  lemma {:induction false} MembersAreClean(w: Writer, t: Json, i: nat)
    requires LawfulWriter(w) && t.Obj? && Printable(w, t) && i <= |Keys(w, t.fields.Keys)|
    ensures Clean(PrintMembers(w, t, i))
    decreases t, |Keys(w, t.fields.Keys)| - i
  {
    hide Clean, Print, Printable, Keys, StringText, ValidScalars, Ascending, Lists;
    if i == |Keys(w, t.fields.Keys)| {
      PlainIsClean([CLOSE_BRACE]);
    } else {
      KeyIn(w, t.fields, i);
      var k := Keys(w, t.fields.Keys)[i];
      MemberPrintable(w, t, k);
      PrintIsClean(w, t.fields[k]);
      MembersAreClean(w, t, i + 1);
      var x := Print(w, t.fields[k]) + PrintMembers(w, t, i + 1);
      CleanAppend(Print(w, t.fields[k]), PrintMembers(w, t, i + 1));
      PlainIsClean([COLON]);
      CleanAppend([COLON], x);
      StringIsClean(w, k);
      CleanAppend(StringText(w, k), [COLON] + x);
      PlainIsClean(Lead(i));
      CleanAppend(Lead(i), StringText(w, k) + ([COLON] + x));
    }
  }

  // --- Writing twice ---

  /** The tree read back prints to the same bytes and reads back to itself. */
  lemma {:induction false} RenumberSettles(w: Writer, t: Json)
    requires LawfulWriter(w) && Printable(w, t)
    ensures Printable(w, Renumber(w, t)) && Renumber(w, Renumber(w, t)) == Renumber(w, t)
    decreases t
  {
    var r := Renumber(w, t);
    match t
    case Null =>
    case Bool(_) =>
    case Num(raw) => NumberOutIsNumber(w, raw);
    case Str(_) =>
    case Arr(items) =>
      forall i | 0 <= i < |items|
        ensures Printable(w, r.items[i]) && Renumber(w, r.items[i]) == r.items[i]
      {
        RenumberSettles(w, items[i]);
      }
      assert Renumber(w, r).items == r.items;
    case Obj(m) =>
      forall k | k in m
        ensures Printable(w, r.fields[k]) && Renumber(w, r.fields[k]) == r.fields[k]
      {
        RenumberSettles(w, m[k]);
      }
      assert Renumber(w, r).fields == r.fields;
  }

  lemma {:induction false} RenumberPrints(w: Writer, t: Json)
    requires LawfulWriter(w) && Printable(w, t) && Printable(w, Renumber(w, t))
    ensures Print(w, Renumber(w, t)) == Print(w, t)
    decreases t
  {
    hide PrintItems, PrintMembers;
    match t
    case Null =>
    case Bool(_) =>
    case Num(raw) => NumberOutIsNumber(w, raw);
    case Str(_) =>
    case Arr(_) => RenumberPrintsItems(w, t, 0);
    case Obj(_) => RenumberPrintsMembers(w, t, 0);
  }

  lemma {:induction false} RenumberPrintsItems(w: Writer, t: Json, i: nat)
    requires LawfulWriter(w) && t.Arr? && Printable(w, t) && Printable(w, Renumber(w, t)) && i <= |t.items|
    ensures PrintItems(w, Renumber(w, t), i) == PrintItems(w, t, i)
    decreases t, |t.items| - i
  {
    hide Renumber, Printable, Print;
    if i < |t.items| {
      ItemPrintable(w, t, i);
      ItemPrintable(w, Renumber(w, t), i);
      RenumberPrints(w, t.items[i]);
      RenumberPrintsItems(w, t, i + 1);
    }
  }

  lemma {:induction false} RenumberPrintsMembers(w: Writer, t: Json, i: nat)
    requires LawfulWriter(w) && t.Obj? && Printable(w, t) && Printable(w, Renumber(w, t))
             && i <= |Keys(w, t.fields.Keys)|
    ensures PrintMembers(w, Renumber(w, t), i) == PrintMembers(w, t, i)
    decreases t, |Keys(w, t.fields.Keys)| - i
  {
    hide Renumber, Printable, Print, Keys, StringText, Ascending, Lists;
    if i < |Keys(w, t.fields.Keys)| {
      KeyIn(w, t.fields, i);
      var k := Keys(w, t.fields.Keys)[i];
      MemberPrintable(w, t, k);
      MemberPrintable(w, Renumber(w, t), k);
      RenumberPrints(w, t.fields[k]);
      RenumberPrintsMembers(w, t, i + 1);
    }
  }
}
