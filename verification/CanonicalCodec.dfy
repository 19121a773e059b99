/** canonicalBytes, decodeCanonicalRecord and hashRecord on JSON trees. */
module CanonicalCodec {
  import opened Common
  import opened Unicode
  import opened Hashing
  import opened NumberText
  import opened JsonText
  import opened JsonTree
  import opened JsonRoundTrip
  import opened CanonicalJson

  // --- The scalar screen makes reading lossless ---

  lemma {:induction false} OutsideDrops(s: seq<byte>, n: nat)
    requires n <= |s| && Outside(s) && QUOTE !in s[..n]
    ensures Outside(s[n..])
    decreases n
  {
    if n == 0 {
      assert s[0..] == s;
    } else {
      assert s[0] in s[..n];
      assert s[1..][..n - 1] == s[..n][1..];
      OutsideDrops(s[1..], n - 1);
      assert s[1..][n - 1..] == s[n..];
    }
  }

  lemma {:induction false} OutsideSkips(s: seq<byte>)
    requires Outside(s)
    ensures Outside(SkipSpace(s))
    decreases |s|
  {
    if s != [] && IsJsonSpace(s[0]) {
      OutsideSkips(s[1..]);
    }
  }

  lemma ScreenedLiteral(s: seq<byte>)
    requires Outside(s) && ReadLiteral(s).Some?
    ensures Outside(ReadLiteral(s).value.1)
  {
    hide ScanNumber, Outside;
    if NULL_TEXT <= s || TRUE_TEXT <= s {
      OutsideDrops(s, 4);
    } else if FALSE_TEXT <= s {
      OutsideDrops(s, 5);
    } else {
      ScannedBytes(s);
      OutsideDrops(s, ScanNumber(s).value);
    }
  }

  lemma ScreenedString(s: seq<byte>)
    requires Outside(s)
    ensures ReadString(false, s) == ReadString(true, s)
    ensures ReadString(true, s).Some? ==> Outside(ReadString(true, s).value.1)
  {
    if s != [] && s[0] == QUOTE {
      ScreenedBody(s[1..]);
    }
  }

  lemma ScreenedKey(s: seq<byte>, seen: set<string>)
    requires Outside(s)
    ensures ReadKey(false, s, seen) == ReadKey(true, s, seen)
    ensures ReadKey(true, s, seen).Some? ==> Outside(ReadKey(true, s, seen).value.1)
  {
    hide ReadString;
    OutsideSkips(s);
    ScreenedString(SkipSpace(s));
    var r := ReadString(true, SkipSpace(s));
    if r.Some? {
      OutsideSkips(r.value.1);
    }
  }

  lemma {:induction false} ScreenedValue(s: seq<byte>)
    requires Outside(s)
    ensures ReadValue(false, s) == ReadValue(true, s)
    ensures ReadValue(true, s).Some? ==> Outside(ReadValue(true, s).value.1)
    decreases |s|, 0
  {
    hide ReadItems, ReadMembers, ReadLiteral, ReadString, Inside;
    OutsideSkips(s);
    var s := SkipSpace(s);
    if s != [] {
      if s[0] == OPEN_BRACKET {
        ScreenedItems(s[1..], []);
      } else if s[0] == OPEN_BRACE {
        ScreenedMembers(s[1..], map[]);
      } else if s[0] == QUOTE {
        ScreenedString(s);
      } else if ReadLiteral(s).Some? {
        ScreenedLiteral(s);
      }
    }
  }

  lemma {:induction false} ScreenedItems(s: seq<byte>, items: seq<Json>)
    requires Outside(s)
    ensures ReadItems(false, s, items) == ReadItems(true, s, items)
    ensures ReadItems(true, s, items).Some? ==> Outside(ReadItems(true, s, items).value.1)
    decreases |s|, 1
  {
    hide ReadValue, Inside;
    OutsideSkips(s);
    var s := SkipSpace(s);
    if Separated(items == [], s).Some? {
      var x := Separated(items == [], s).value;
      ScreenedValue(x);
      if ReadValue(true, x).Some? {
        var (v, rest) := ReadValue(true, x).value;
        ScreenedItems(rest, items + [v]);
      }
    }
  }

  lemma {:induction false} ScreenedMembers(s: seq<byte>, fields: map<string, Json>)
    requires Outside(s)
    ensures ReadMembers(false, s, fields) == ReadMembers(true, s, fields)
    ensures ReadMembers(true, s, fields).Some? ==> Outside(ReadMembers(true, s, fields).value.1)
    decreases |s|, 1
  {
    hide ReadValue, ReadKey, Inside;
    OutsideSkips(s);
    var s := SkipSpace(s);
    if Separated(fields == map[], s).Some? {
      var x := Separated(fields == map[], s).value;
      ScreenedKey(x, fields.Keys);
      if ReadKey(true, x, fields.Keys).Some? {
        var (k, y) := ReadKey(true, x, fields.Keys).value;
        ScreenedValue(y);
        if ReadValue(true, y).Some? {
          var (v, rest) := ReadValue(true, y).value;
          ScreenedMembers(rest, fields[k := v]);
        }
      }
    }
  }

  /** A document that passed the screen is read without putting U+FFFD for anything. */
  lemma ScreenedDocument(raw: seq<byte>)
    requires Outside(raw)
    ensures ReadDocument(false, raw) == ReadDocument(true, raw)
  {
    hide ReadValue;
    ScreenedValue(raw);
  }

  // --- canonicalBytes and decodeCanonicalRecord ---

  const BYTE_ORDER_MARK: seq<byte> := [0xef, 0xbb, 0xbf]

  // validateGoStrings and json.Marshal, decodeUniqueJSON, appendCanonicalJSON.
  ghost function CanonicalBytes(fl: Floats, t: Json): Option<seq<byte>> {
    if !Printable(Marshal, t) then None
    else
      match ReadDocument(false, Print(Marshal, t))
      case None => None
      case Some(u) => if Printable(Canonical(fl), u) then Some(Print(Canonical(fl), u)) else None
  }

  // decodeCanonicalRecord, up to the unmarshalling into a Go struct.
  ghost function DecodeCanonical(fl: Floats, raw: seq<byte>): Option<Json> {
    if !ValidUtf8(raw) || raw == [] || BYTE_ORDER_MARK <= raw || !Outside(raw) then None
    else
      match ReadDocument(false, raw)
      case None => None
      case Some(t) => if CanonicalBytes(fl, t) == Some(raw) then Some(t) else None
  }

  lemma DocumentReads(strict: bool, w: Writer, t: Json)
    requires LawfulWriter(w) && Printable(w, t)
    ensures ReadDocument(strict, Print(w, t)) == Some(Renumber(w, t))
  {
    hide ReadValue, Print, Renumber;
    ValueReads(strict, w, t, []);
    assert Print(w, t) + [] == Print(w, t);
  }

  /** A document is one value: after it, only white space may stand. */
  lemma DocumentStandsAlone(strict: bool, w: Writer, t: Json, rest: seq<byte>)
    requires LawfulWriter(w) && Printable(w, t) && EndsNumber(rest)
    ensures ReadDocument(strict, Print(w, t) + rest) == if SkipSpace(rest) == [] then Some(Renumber(w, t)) else None
  {
    hide ReadValue, Print, Renumber;
    ValueReads(strict, w, t, rest);
  }

  /** The detour through json.Marshal and back changes nothing: a tree of well-formed numbers and valid
      strings is printed as it is. */
  lemma {:induction false} MarshalKeepsCanonical(fl: Floats, t: Json)
    requires Printable(Canonical(fl), t)
    ensures Printable(Marshal, t) && Renumber(Marshal, t) == t
    decreases t
  {
    match t
    case Null =>
    case Bool(_) =>
    case Num(raw) =>
    case Str(_) =>
    case Arr(items) =>
      forall i | 0 <= i < |items| ensures Printable(Marshal, items[i]) && Renumber(Marshal, items[i]) == items[i] {
        MarshalKeepsCanonical(fl, items[i]);
      }
      assert Renumber(Marshal, t).items == items;
    case Obj(m) =>
      forall k | k in m ensures Printable(Marshal, m[k]) && Renumber(Marshal, m[k]) == m[k] {
        MarshalKeepsCanonical(fl, m[k]);
      }
      assert Renumber(Marshal, t).fields == m;
  }

  /** canonicalBytes is the canonical print, where there is one. */
  lemma CanonicalBytesIsPrint(fl: Floats, t: Json)
    requires Printable(Canonical(fl), t)
    ensures CanonicalBytes(fl, t) == Some(Print(Canonical(fl), t))
  {
    hide Print, Renumber, Printable, ReadDocument;
    MarshalKeepsCanonical(fl, t);
    DocumentReads(false, Marshal, t);
  }

  /** Every canonical print is accepted, and decodes to the tree it was printed from with its numbers in
      canonical form. */
  lemma CanonicalPrintDecodes(fl: Floats, t: Json)
    requires Lawful(fl) && Printable(Canonical(fl), t)
    ensures DecodeCanonical(fl, Print(Canonical(fl), t)) == Some(Renumber(Canonical(fl), t))
  {
    hide Print, Renumber, Printable, ReadDocument, ValidUtf8, Outside, CanonicalBytes;
    var w := Canonical(fl);
    var raw := Print(w, t);
    PrintIsClean(w, t);
    assert raw + [] == raw && Outside([]) by { EmptyPasses(); }
    PrintStarts(w, t);
    DocumentReads(false, w, t);
    RenumberSettles(w, t);
    RenumberPrints(w, t);
    CanonicalBytesIsPrint(fl, Renumber(w, t));
  }

  lemma EmptyPasses()
    ensures Outside([])
  {
  }

  /** What is accepted is exactly what is printed: raw decodes to t just when t is printable, its numbers
      are canonical, and raw is its print. */
  lemma DecodesExactlyPrints(fl: Floats, raw: seq<byte>, t: Json)
    requires Lawful(fl)
    ensures DecodeCanonical(fl, raw) == Some(t) <==>
            Printable(Canonical(fl), t) && Renumber(Canonical(fl), t) == t && raw == Print(Canonical(fl), t)
  {
    hide Print, Renumber, Printable, ReadDocument, ValidUtf8, Outside;
    var w := Canonical(fl);
    if DecodeCanonical(fl, raw) == Some(t) {
      var u := ReadDocument(false, Print(Marshal, t)).value;
      DocumentReads(false, w, u);
      RenumberSettles(w, u);
      RenumberPrints(w, u);
    }
    if Printable(w, t) {
      CanonicalPrintDecodes(fl, t);
    }
  }

  /** Canonicalisation is idempotent: canonical bytes decode, and canonicalise to themselves. */
  lemma CanonicalBytesIdempotent(fl: Floats, t: Json)
    requires Lawful(fl) && CanonicalBytes(fl, t).Some?
    ensures var b := CanonicalBytes(fl, t).value;
            DecodeCanonical(fl, b).Some? && CanonicalBytes(fl, DecodeCanonical(fl, b).value) == Some(b)
  {
    hide Print, Renumber, Printable, ReadDocument, ValidUtf8, Outside;
    CanonicalPrintDecodes(fl, ReadDocument(false, Print(Marshal, t)).value);
  }

  /** Two trees have the same canonical bytes exactly when they differ only in how their numbers are spelt. */
  lemma SameBytesIffSameTree(fl: Floats, t: Json, u: Json)
    requires Lawful(fl) && Printable(Canonical(fl), t) && Printable(Canonical(fl), u)
    ensures CanonicalBytes(fl, t) == CanonicalBytes(fl, u) <==> Renumber(Canonical(fl), t) == Renumber(Canonical(fl), u)
  {
    hide Print, Renumber, Printable, ReadDocument, CanonicalBytes;
    var w := Canonical(fl);
    CanonicalBytesIsPrint(fl, t);
    CanonicalBytesIsPrint(fl, u);
    DocumentReads(false, w, t);
    DocumentReads(false, w, u);
    RenumberSettles(w, t);
    RenumberSettles(w, u);
    RenumberPrints(w, t);
    RenumberPrints(w, u);
  }

  // --- Integers ---

  // Valid strings, and no number but an integer of at most 2^53 in plain decimal.
  ghost predicate IntegerTree(t: Json) {
    match t
    case Null => true
    case Bool(_) => true
    case Num(raw) => exists neg, n: nat :: n <= EXACT_LIMIT && (neg ==> n > 0) && raw == IntText(neg, n)
    case Str(s) => ValidScalars(s)
    case Arr(items) => forall i :: 0 <= i < |items| ==> IntegerTree(items[i])
    case Obj(m) => forall k :: k in m ==> ValidScalars(k) && IntegerTree(m[k])
  }

  lemma {:induction false} IntegerTreesAreCanonical(fl: Floats, t: Json)
    requires Lawful(fl) && ExactIntegers(fl) && IntegerTree(t)
    ensures Printable(Canonical(fl), t) && Renumber(Canonical(fl), t) == t
    decreases t
  {
    hide CanonicalNumberText, IntText;
    var w := Canonical(fl);
    match t
    case Null =>
    case Bool(_) =>
    case Num(raw) =>
      var neg, n: nat :| n <= EXACT_LIMIT && (neg ==> n > 0) && raw == IntText(neg, n);
      IntegersKeepTheirText(fl, neg, n);
    case Str(_) =>
    case Arr(items) =>
      forall i | 0 <= i < |items| ensures Printable(w, items[i]) && Renumber(w, items[i]) == items[i] {
        IntegerTreesAreCanonical(fl, items[i]);
      }
      assert Renumber(w, t).items == items;
    case Obj(m) =>
      forall k | k in m ensures Printable(w, m[k]) && Renumber(w, m[k]) == m[k] {
        IntegerTreesAreCanonical(fl, m[k]);
      }
      assert Renumber(w, t).fields == m;
  }

  /** Trees whose numbers are integers within 2^53 have equal bytes only if they are equal, and decode to
      themselves. */
  lemma IntegerTreesHaveTheirOwnBytes(fl: Floats, t: Json, u: Json)
    requires Lawful(fl) && ExactIntegers(fl) && IntegerTree(t) && IntegerTree(u)
    ensures CanonicalBytes(fl, t).Some? && DecodeCanonical(fl, CanonicalBytes(fl, t).value) == Some(t)
    ensures CanonicalBytes(fl, t) == CanonicalBytes(fl, u) ==> t == u
  {
    hide IntegerTree, Print, Renumber, Printable, CanonicalBytes, DecodeCanonical;
    IntegerTreesAreCanonical(fl, t);
    IntegerTreesAreCanonical(fl, u);
    CanonicalBytesIsPrint(fl, t);
    CanonicalPrintDecodes(fl, t);
    SameBytesIffSameTree(fl, t, u);
  }

  // --- Reading into a struct ---

  // A string member of a Go struct after Unmarshal: one that is not in the text is left empty.
  function TextMember(m: map<string, Json>, name: string): string {
    if name in m && m[name].Str? then m[name].text else ""
  }

  /** An object with an empty string member and the one without that member are both accepted, as different
      bytes, though no string member of a struct tells them apart. */
  lemma OmittedMemberIsForgiven(fl: Floats, m: map<string, Json>, name: string)
    requires Lawful(fl) && ExactIntegers(fl) && IntegerTree(Obj(m)) && name in m && m[name] == Str("")
    ensures var full, short := CanonicalBytes(fl, Obj(m)), CanonicalBytes(fl, Obj(m - {name}));
            && full.Some? && short.Some? && full != short
            && DecodeCanonical(fl, full.value) == Some(Obj(m))
            && DecodeCanonical(fl, short.value) == Some(Obj(m - {name}))
    ensures forall k :: TextMember(m, k) == TextMember(m - {name}, k)
  {
    hide CanonicalBytes, DecodeCanonical;
    assert IntegerTree(Obj(m - {name}));
    IntegerTreesHaveTheirOwnBytes(fl, Obj(m), Obj(m - {name}));
    IntegerTreesHaveTheirOwnBytes(fl, Obj(m - {name}), Obj(m));
    assert name !in m - {name};
  }

  // A struct in canonical bytes: `layout` gives its members, `read` makes it of those that are in the text.
  ghost function EncodeStruct<T>(fl: Floats, layout: T -> map<string, Json>, x: T): seq<byte> {
    match CanonicalBytes(fl, Obj(layout(x))) case Some(b) => b case None => []
  }

  ghost function DecodeStruct<T>(fl: Floats, read: map<string, Json> -> Option<T>, raw: seq<byte>): Option<T> {
    match DecodeCanonical(fl, raw)
    case Some(Obj(m)) => read(m)
    case _ => None
  }

  // The canonical bytes of the struct with one member left out.
  ghost function ShortStruct<T>(fl: Floats, layout: T -> map<string, Json>, x: T, name: string): seq<byte> {
    match CanonicalBytes(fl, Obj(layout(x) - {name})) case Some(b) => b case None => []
  }

  // `name` is a string member of the struct: leaving it out and leaving it empty read the same.
  ghost predicate Forgives<T(!new)>(read: map<string, Json> -> Option<T>, name: string) {
    forall m: map<string, Json> :: name in m && m[name] == Str("") ==> read(m - {name}) == read(m)
  }

  // Every member is a string or a small integer, and reading undoes the layout.
  ghost predicate LaidOut<T>(layout: T -> map<string, Json>, read: map<string, Json> -> Option<T>, x: T) {
    IntegerTree(Obj(layout(x))) && read(layout(x)) == Some(x)
  }

  lemma StructReads<T>(fl: Floats, layout: T -> map<string, Json>, read: map<string, Json> -> Option<T>, x: T)
    requires Lawful(fl) && ExactIntegers(fl) && LaidOut(layout, read, x)
    ensures DecodeStruct(fl, read, EncodeStruct(fl, layout, x)) == Some(x)
  {
    hide CanonicalBytes, DecodeCanonical, IntegerTree;
    IntegerTreesHaveTheirOwnBytes(fl, Obj(layout(x)), Obj(layout(x)));
  }

  /** A struct with an empty string member has two canonical texts. */
  lemma ShortStructReads<T(!new)>(
      fl: Floats, layout: T -> map<string, Json>, read: map<string, Json> -> Option<T>, x: T, name: string)
    requires Lawful(fl) && ExactIntegers(fl) && LaidOut(layout, read, x) && Forgives(read, name)
    requires name in layout(x) && layout(x)[name] == Str("")
    ensures DecodeStruct(fl, read, ShortStruct(fl, layout, x, name)) == Some(x)
    ensures ShortStruct(fl, layout, x, name) != EncodeStruct(fl, layout, x)
  {
    hide CanonicalBytes, DecodeCanonical, IntegerTree;
    OmittedMemberIsForgiven(fl, layout(x), name);
  }

  // --- hashRecord ---

  ghost function HashRecord(h: Hash, fl: Floats, t: Json, own: string): Option<string> {
    if own == "" || !Printable(Marshal, t) then None
    else
      match ReadDocument(false, Print(Marshal, t))
      case None => None
      case Some(u) =>
        if !u.Obj? || own !in u.fields then None
        else
          match CanonicalBytes(fl, Obj(u.fields - {own}))
          case None => None
          case Some(b) => Some(h(b))
  }

  lemma WithoutIsPrintable(w: Writer, m: map<string, Json>, own: string)
    requires Printable(w, Obj(m))
    ensures Printable(w, Obj(m - {own}))
    ensures Renumber(w, Obj(m - {own})) == Obj(Renumber(w, Obj(m)).fields - {own})
  {
  }

  lemma HashRecordIs(h: Hash, fl: Floats, m: map<string, Json>, own: string)
    requires Lawful(fl) && Printable(Canonical(fl), Obj(m))
    ensures own != "" && own in m ==>
              && Printable(Canonical(fl), Obj(m - {own}))
              && HashRecord(h, fl, Obj(m), own) == Some(h(Print(Canonical(fl), Obj(m - {own}))))
    ensures own == "" || own !in m ==> HashRecord(h, fl, Obj(m), own) == None
  {
    hide Print, Renumber, Printable, ReadDocument, CanonicalBytes;
    MarshalKeepsCanonical(fl, Obj(m));
    DocumentReads(false, Marshal, Obj(m));
    WithoutIsPrintable(Canonical(fl), m, own);
    CanonicalBytesIsPrint(fl, Obj(m - {own}));
  }

  /** A record's hash ignores exactly its own field and determines all the others. */
  lemma HashIgnoresExactlyItsOwnField(h: Hash, fl: Floats, m: map<string, Json>, n: map<string, Json>, own: string)
    requires Ideal(h) && Lawful(fl) && own != "" && own in m && own in n
    requires Printable(Canonical(fl), Obj(m)) && Printable(Canonical(fl), Obj(n))
    ensures HashRecord(h, fl, Obj(m), own) == HashRecord(h, fl, Obj(n), own) <==>
            Renumber(Canonical(fl), Obj(m)).fields - {own} == Renumber(Canonical(fl), Obj(n)).fields - {own}
  {
    hide Print, Renumber, Printable, ReadDocument, CanonicalBytes, HashRecord;
    var w := Canonical(fl);
    HashRecordIs(h, fl, m, own);
    HashRecordIs(h, fl, n, own);
    WithoutIsPrintable(w, m, own);
    WithoutIsPrintable(w, n, own);
    CanonicalBytesIsPrint(fl, Obj(m - {own}));
    CanonicalBytesIsPrint(fl, Obj(n - {own}));
    SameBytesIffSameTree(fl, Obj(m - {own}), Obj(n - {own}));
  }

  /** On records of strings and small integers, equal hashes mean equal records but for the hash field. */
  lemma IntegerRecordsHaveTheirOwnHash(h: Hash, fl: Floats, m: map<string, Json>, n: map<string, Json>, own: string)
    requires Ideal(h) && Lawful(fl) && ExactIntegers(fl) && own != "" && own in m && own in n
    requires IntegerTree(Obj(m)) && IntegerTree(Obj(n))
    ensures HashRecord(h, fl, Obj(m), own).Some?
    ensures HashRecord(h, fl, Obj(m), own) == HashRecord(h, fl, Obj(n), own) <==> m - {own} == n - {own}
  {
    hide IntegerTree, Renumber, Printable, HashRecord;
    IntegerTreesAreCanonical(fl, Obj(m));
    IntegerTreesAreCanonical(fl, Obj(n));
    HashRecordIs(h, fl, m, own);
    HashIgnoresExactlyItsOwnField(h, fl, m, n, own);
  }
}
