/** What canonical text looks like, in the characters of JSON. */
module PrintedForms {
  import opened Common
  import opened Unicode
  import opened Decimal
  import opened CanonicalNumber
  import opened JsonText
  import opened JsonTree

  function Ascii(s: string): seq<byte>
    requires forall i :: 0 <= i < |s| ==> s[i] as int < 0x80
  {
    seq(|s|, i requires 0 <= i < |s| => s[i] as int)
  }

  // --- Structure ---

  function Joined(parts: seq<seq<byte>>): seq<byte> {
    if parts == [] then []
    else if |parts| == 1 then parts[0]
    else parts[0] + Ascii(",") + Joined(parts[1..])
  }

  ghost function ItemTexts(w: Writer, items: seq<Json>): seq<seq<byte>>
    requires Printable(w, Arr(items))
  {
    seq(|items|, i requires 0 <= i < |items| => Print(w, items[i]))
  }

  ghost function MemberText(w: Writer, m: map<string, Json>, k: string): seq<byte>
    requires Printable(w, Obj(m)) && k in m
  {
    Ascii("\"") + JsonText.BodyText(w.Marshal?, k) + Ascii(":") + Print(w, m[k])
  }

  ghost function MemberTexts(w: Writer, m: map<string, Json>): seq<seq<byte>>
    requires Printable(w, Obj(m))
  {
    var ks := Keys(w, m.Keys);
    KeysAreMembers(w, m);
    seq(|ks|, i requires 0 <= i < |ks| => MemberText(w, m, ks[i]))
  }

  lemma KeysAreMembers(w: Writer, m: map<string, Json>)
    ensures forall i :: 0 <= i < |Keys(w, m.Keys)| ==> Keys(w, m.Keys)[i] in m
  {
    forall i | 0 <= i < |Keys(w, m.Keys)| ensures Keys(w, m.Keys)[i] in m {
      KeyIn(w, m, i);
    }
  }

  lemma Punctuation()
    ensures Ascii(",") == [COMMA] && Ascii(":") == [COLON] && Ascii("\"") == [QUOTE]
    ensures Ascii("[") == [OPEN_BRACKET] && Ascii("]") == [CLOSE_BRACKET]
    ensures Ascii("{") == [OPEN_BRACE] && Ascii("}") == [CLOSE_BRACE]
  {
  }

  lemma JoinedFrom(parts: seq<seq<byte>>, i: nat)
    requires i < |parts|
    ensures Joined(parts[i..]) == parts[i] + ((if i + 1 < |parts| then Ascii(",") else []) + Joined(parts[i + 1..]))
  {
    hide Ascii;
    assert parts[i..][1..] == parts[i + 1..] && parts[i..][0] == parts[i];
  }

  // From the i-th part on, each but the first led by a comma.
  function LedParts(parts: seq<seq<byte>>, i: nat): seq<byte>
    requires i <= |parts|
  {
    (if 0 < i < |parts| then Ascii(",") else []) + Joined(parts[i..])
  }

  lemma LedPartsUnfold(parts: seq<seq<byte>>, i: nat)
    requires i <= |parts|
    ensures LedParts(parts, i) == if i == |parts| then [] else Lead(i) + (parts[i] + LedParts(parts, i + 1))
  {
    hide Ascii, Joined;
    Punctuation();
    if i < |parts| {
      JoinedFrom(parts, i);
    } else {
      assert Joined(parts[i..]) == [] by { JoinedNothing(parts); }
    }
  }

  lemma JoinedNothing(parts: seq<seq<byte>>)
    ensures Joined(parts[|parts|..]) == []
  {
  }

  lemma {:induction false} ItemsAreJoined(w: Writer, items: seq<Json>, i: nat)
    requires Printable(w, Arr(items)) && i <= |items|
    ensures PrintItems(w, Arr(items), i) == LedParts(ItemTexts(w, items), i) + Ascii("]")
    decreases |items| - i
  {
    hide Print, Printable, Ascii, LedParts;
    Punctuation();
    var texts := ItemTexts(w, items);
    LedPartsUnfold(texts, i);
    if i < |items| {
      ItemsAreJoined(w, items, i + 1);
      ItemPrints(w, items, i);
      Reassociated(Lead(i), texts[i], LedParts(texts, i + 1), Ascii("]"));
    } else {
      assert [] + Ascii("]") == Ascii("]");
    }
  }

  lemma Reassociated(a: seq<byte>, b: seq<byte>, c: seq<byte>, d: seq<byte>)
    ensures a + (b + (c + d)) == a + (b + c) + d
  {
  }

  lemma {:induction false} MembersAreJoined(w: Writer, m: map<string, Json>, i: nat)
    requires Printable(w, Obj(m)) && i <= |Keys(w, m.Keys)|
    ensures PrintMembers(w, Obj(m), i) == LedParts(MemberTexts(w, m), i) + Ascii("}")
    decreases |Keys(w, m.Keys)| - i
  {
    hide Print, Printable, Ascii, Keys, Ascending, Lists, LedParts, StringText, MemberText;
    Punctuation();
    var ks := Keys(w, m.Keys);
    var texts := MemberTexts(w, m);
    LedPartsUnfold(texts, i);
    if i < |ks| {
      MembersAreJoined(w, m, i + 1);
      KeyIn(w, m, i);
      var rest := LedParts(texts, i + 1) + Ascii("}");
      MemberIs(w, m, ks[i], rest);
      Reassociated(Lead(i), texts[i], LedParts(texts, i + 1), Ascii("}"));
    } else {
      assert [] + Ascii("}") == Ascii("}");
    }
  }

  lemma MemberIs(w: Writer, m: map<string, Json>, k: string, rest: seq<byte>)
    requires Printable(w, Obj(m)) && k in m
    ensures StringText(w, k) + ([COLON] + (Print(w, m[k]) + rest)) == MemberText(w, m, k) + rest
  {
    hide Print, Ascii, JsonText.BodyText;
    Punctuation();
  }

  lemma ItemPrints(w: Writer, items: seq<Json>, i: nat)
    requires Printable(w, Arr(items)) && i < |items|
    ensures Printable(w, items[i])
  {
  }

  lemma AllParts(parts: seq<seq<byte>>)
    ensures LedParts(parts, 0) == Joined(parts)
  {
    hide Joined;
    assert parts[0..] == parts;
  }

  /** Literals are written by name, and a string is quoted. */
  lemma LeafIsJson(w: Writer, s: string)
    ensures Print(w, Null) == Ascii("null")
    ensures Print(w, Bool(true)) == Ascii("true") && Print(w, Bool(false)) == Ascii("false")
    ensures ValidScalars(s) ==> Print(w, Str(s)) == Ascii("\"") + JsonText.BodyText(w.Marshal?, s)
  {
    hide JsonText.BodyText;
    Punctuation();
  }

  /** Items stand between brackets, with single commas and no white space. */
  lemma ArrayIsJson(w: Writer, items: seq<Json>)
    requires Printable(w, Arr(items))
    ensures Print(w, Arr(items)) == Ascii("[") + Joined(ItemTexts(w, items)) + Ascii("]")
  {
    hide Printable, Ascii, Joined, ItemTexts;
    Punctuation();
    ItemsAreJoined(w, items, 0);
    AllParts(ItemTexts(w, items));
  }

  /** Members stand between braces, each as quoted key, colon and value, in the order of their keys. */
  lemma ObjectIsJson(w: Writer, m: map<string, Json>)
    requires Printable(w, Obj(m))
    ensures Print(w, Obj(m)) == Ascii("{") + Joined(MemberTexts(w, m)) + Ascii("}")
  {
    hide Printable, Ascii, Joined, MemberTexts, Keys;
    Punctuation();
    MembersAreJoined(w, m, 0);
    AllParts(MemberTexts(w, m));
  }

  /** White space before a value is of no account. */
  lemma {:induction false} SpaceIsSkipped(strict: bool, space: string, s: seq<byte>)
    requires forall i :: 0 <= i < |space| ==> space[i] in " \t\n\r"
    ensures ReadValue(strict, Ascii(space) + s) == ReadValue(strict, s)
    decreases |space|
  {
    hide ReadItems, ReadMembers, ReadString, ReadLiteral;
    var x := Ascii(space) + s;
    if space == [] {
      assert x == s;
    } else {
      SpaceIsSkipped(strict, space[1..], s);
      assert x[1..] == Ascii(space[1..]) + s;
      assert x[0] == space[0] as int && space[0] in " \t\n\r";
      assert SkipSpace(x) == SkipSpace(x[1..]);
    }
  }

  // --- Numerals ---

  /** The signs, the point and the exponent mark of a numeral, in its characters. */
  lemma NumeralIsText(n: Numeral)
    ensures Text(n) == Ascii(if n.neg then "-" else "") + n.whole
                       + (if n.frac == [] then [] else Ascii(".") + n.frac)
                       + (if n.exp.None? then []
                          else Ascii(if n.exp.value.0 then "e-" else "e+") + n.exp.value.1)
  {
  }

  /** The digits of an integer: its decimal digits in their characters, the last being its remainder by ten. */
  lemma ItoaIsDecimal(n: nat)
    ensures Itoa(n) == (if n < 10 then [] else Itoa(n / 10)) + Ascii(["0123456789"[n % 10]])
  {
    hide NatOf, IsDigits;
    DigitIs(n % 10);
  }

  lemma DigitIs(d: nat)
    requires d < 10
    ensures "0123456789"[d] as int == 0x30 + d && Ascii(["0123456789"[d]]) == [0x30 + d]
  {
  }
}
