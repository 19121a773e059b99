/**
 Records of a transcript file: newline-framed, a last record without its newline counting as
 one record.
 */
module TranscriptRecords {
  import opened Common
  import opened RunStore

  // What json.Unmarshal makes of one line.
  datatype Envelope = Envelope(kind: string, payload: seq<byte>)
  type Unmarshal = seq<byte> -> Option<Envelope>

  datatype Record = Blank | Good(kind: string, payload: seq<byte>) | Malformed

  predicate IsUnicodeSpace(c: char) {
    c in "\t\n\r \U{0b}\U{0c}\U{85}\U{a0}\U{1680}\U{2028}\U{2029}\U{202f}\U{205f}\U{3000}"
    || '\U{2000}' <= c <= '\U{200a}'
  }

  function TrimSpace(b: seq<byte>): seq<byte> {
    if b == [] then []
    else if IsSpace(b[0]) then TrimSpace(b[1..])
    else if IsSpace(b[|b| - 1]) then TrimSpace(b[..|b| - 1])
    else b
  }

  function TrimNewline(line: seq<byte>): seq<byte> {
    if line != [] && line[|line| - 1] == LINE_FEED then line[..|line| - 1] else line
  }

  function Classify(u: Unmarshal, line: seq<byte>): Record {
    var trimmed := TrimNewline(line);
    if trimmed == [] then Blank
    else
      match u(trimmed)
      case None => Malformed
      case Some(e) =>
        if forall c <- e.kind :: IsUnicodeSpace(c) then Malformed
        else if TrimSpace(e.payload) in {[], NULL_TEXT} then Malformed
        else Good(e.kind, e.payload)
  }

  // --- Which lines make an event ---

  predicate IsSpace(b: byte) { b in {0x09, 0x0a, 0x0b, 0x0c, 0x0d, 0x20} }

  predicate AllSpace(s: seq<byte>) { forall i :: 0 <= i < |s| ==> IsSpace(s[i]) }

  // `core` with nothing but white space around it, from position i on.
  predicate Surrounded(s: seq<byte>, core: seq<byte>, i: int) {
    0 <= i <= |s| - |core| && AllSpace(s[..i]) && s[i..i + |core|] == core && AllSpace(s[i + |core|..])
  }

  lemma {:induction false} TrimSpaceAt(b: seq<byte>) returns (i: nat)
    ensures var t := TrimSpace(b); Surrounded(b, t, i) && (t != [] ==> !IsSpace(t[0]) && !IsSpace(t[|t| - 1]))
    decreases |b|
  {
    hide Surrounded, IsSpace;
    i := 0;
    if b != [] && IsSpace(b[0]) {
      var j := TrimSpaceAt(b[1..]);
      i := j + 1;
      SpaceBefore(b, TrimSpace(b[1..]), j);
    } else if b != [] && IsSpace(b[|b| - 1]) {
      i := TrimSpaceAt(b[..|b| - 1]);
      SpaceAfter(b, TrimSpace(b[..|b| - 1]), i);
    } else {
      SurroundedByNothing(b);
    }
  }

  lemma SurroundedByNothing(b: seq<byte>)
    ensures Surrounded(b, b, 0)
  {
    assert b[0..|b|] == b;
  }

  lemma SpaceBefore(b: seq<byte>, core: seq<byte>, j: nat)
    requires b != [] && IsSpace(b[0]) && Surrounded(b[1..], core, j)
    ensures Surrounded(b, core, j + 1)
  {
    hide IsSpace;
    var rest, k := b[1..], j + |core|;
    assert b[..j + 1] == [b[0]] + rest[..j] && b[j + 1..k + 1] == rest[j..k] && b[k + 1..] == rest[k..];
  }

  lemma SpaceAfter(b: seq<byte>, core: seq<byte>, i: nat)
    requires b != [] && IsSpace(b[|b| - 1]) && Surrounded(b[..|b| - 1], core, i)
    ensures Surrounded(b, core, i)
  {
    hide IsSpace;
    var front, k := b[..|b| - 1], i + |core|;
    assert b[..i] == front[..i] && b[i..k] == front[i..k] && b[k..] == front[k..] + [b[|b| - 1]];
  }

  // There is only one such core that is not empty and has no white space at its ends.
  lemma CoreIsUnique(s: seq<byte>, c: seq<byte>, i: int, d: seq<byte>, j: int)
    requires Surrounded(s, c, i) && Surrounded(s, d, j) && c != [] && d != []
    requires !IsSpace(c[0]) && !IsSpace(c[|c| - 1]) && !IsSpace(d[0]) && !IsSpace(d[|d| - 1])
    ensures c == d
  {
    hide IsSpace;
    EndsOfCore(s, c, i);
    EndsOfCore(s, d, j);
    assert i == j && i + |c| == j + |d|;
  }

  lemma EndsOfCore(s: seq<byte>, c: seq<byte>, i: int)
    requires Surrounded(s, c, i) && c != []
    ensures s[i] == c[0] && s[i + |c| - 1] == c[|c| - 1]
    ensures (forall k :: 0 <= k < i ==> IsSpace(s[k])) && forall k :: i + |c| <= k < |s| ==> IsSpace(s[k])
  {
    hide IsSpace;
    assert s[i..i + |c|][0] == s[i] && s[i..i + |c|][|c| - 1] == s[i + |c| - 1];
    forall k | 0 <= k < i ensures IsSpace(s[k]) {
      assert s[..i][k] == s[k];
    }
    forall k | i + |c| <= k < |s| ensures IsSpace(s[k]) {
      assert s[i + |c|..][k - (i + |c|)] == s[k];
    }
  }

  lemma TrimSpaceEmptyIff(b: seq<byte>)
    ensures TrimSpace(b) == [] <==> AllSpace(b)
  {
    var i := TrimSpaceAt(b);
    var t := TrimSpace(b);
    if t == [] {
      assert b == b[..i] + b[i..];
    } else {
      EndsOfCore(b, t, i);
    }
  }

  lemma TrimSpaceIs(b: seq<byte>, core: seq<byte>)
    requires core != [] && !IsSpace(core[0]) && !IsSpace(core[|core| - 1])
    ensures TrimSpace(b) == core <==> exists i :: Surrounded(b, core, i)
  {
    hide IsSpace;
    var i := TrimSpaceAt(b);
    if j :| Surrounded(b, core, j) {
      EndsOfCore(b, core, j);
      TrimSpaceEmptyIff(b);
      CoreIsUnique(b, TrimSpace(b), i, core, j);
    }
  }

  // An envelope that says something: a kind that is not all white space, and a payload that is more than white
  // space and not null.
  ghost predicate Meaningful(e: Envelope) {
    && (exists c <- e.kind :: !IsUnicodeSpace(c))
    && !AllSpace(e.payload) && !exists i :: Surrounded(e.payload, NULL_TEXT, i)
  }

  /** A line is blank exactly when it is empty but for its newline. Any other is an event exactly when the text before
      its newline unmarshals to an envelope that says something; kind and payload are taken as they are. */
  lemma ClassifyIs(u: Unmarshal, line: seq<byte>)
    ensures Classify(u, line).Blank? <==> line == [] || line == [LINE_FEED]
    ensures var text := if line != [] && line[|line| - 1] == LINE_FEED then line[..|line| - 1] else line;
            && (Classify(u, line).Good? <==> text != [] && u(text).Some? && Meaningful(u(text).value))
            && (Classify(u, line).Good? ==> Classify(u, line) == Good(u(text).value.kind, u(text).value.payload))
  {
    hide TrimSpace, IsUnicodeSpace;
    var text := TrimNewline(line);
    if text != [] && u(text).Some? {
      TrimSpaceEmptyIff(u(text).value.payload);
      TrimSpaceIs(u(text).value.payload, NULL_TEXT);
    }
    assert line != [] && line[|line| - 1] == LINE_FEED ==> line == line[..|line| - 1] + [LINE_FEED];
  }

  // The start of the line that holds position i.
  function LineStart(data: seq<byte>, i: nat): (s: nat)
    requires i <= |data|
    ensures s <= i && (s == 0 || data[s - 1] == LINE_FEED)
    ensures forall k :: s <= k < i ==> data[k] != LINE_FEED
  {
    if i == 0 || data[i - 1] == LINE_FEED then i else LineStart(data, i - 1)
  }

  function EventOf(u: Unmarshal, line: seq<byte>, end: nat): seq<Event> {
    match Classify(u, line)
    case Good(kind, payload) => [Event(kind, payload, end)]
    case _ => []
  }

  /** The events a transcript with exactly these bytes stands for: those of everything before
      its last record, then its last record's, each with the offset its record ends at. */
  ghost function Events(u: Unmarshal, data: seq<byte>): seq<Event>
    decreases |data|
  {
    if data == [] then []
    else
      var s := LineStart(data, |data| - 1);
      Events(u, data[..s]) + EventOf(u, data[s..], |data|)
  }

  ghost predicate Corrupt(u: Unmarshal, data: seq<byte>)
    decreases |data|
  {
    data != [] &&
    var s := LineStart(data, |data| - 1);
    Classify(u, data[s..]).Malformed? || Corrupt(u, data[..s])
  }

  predicate Boundary(data: seq<byte>, o: nat) { o <= |data| && (o == 0 || data[o - 1] == LINE_FEED) }

  // Length of the record that starts at p: through its newline, or to the end of the data.
  function RecordLength(data: seq<byte>, p: nat): (n: nat)
    requires p <= |data|
    ensures p + n <= |data|
    ensures p < |data| ==> n > 0
    ensures forall k :: p <= k < p + n - 1 ==> data[k] != LINE_FEED
    ensures p + n < |data| ==> n > 0 && data[p + n - 1] == LINE_FEED
    decreases |data| - p
  {
    if p == |data| then 0
    else if data[p] == LINE_FEED then 1
    else 1 + RecordLength(data, p + 1)
  }

  lemma LineStartIs(data: seq<byte>, i: nat, s: nat)
    requires s <= i <= |data| && Boundary(data, s)
    requires forall k :: s <= k < i ==> data[k] != LINE_FEED
    ensures LineStart(data, i) == s
  {
  }

  lemma NextRecord(u: Unmarshal, data: seq<byte>, o: nat, e: nat)
    requires Boundary(data, o) && o < e <= |data|
    requires forall k :: o <= k < e - 1 ==> data[k] != LINE_FEED
    ensures Events(u, data[..e]) == Events(u, data[..o]) + EventOf(u, data[o..e], e)
    ensures Corrupt(u, data[..e]) <==> Corrupt(u, data[..o]) || Classify(u, data[o..e]).Malformed?
  {
    hide Classify, EventOf, LineStart;
    LineStartIs(data[..e], e - 1, o);
    assert data[..e][..o] == data[..o];
    assert data[..e][o..] == data[o..e];
  }

  /** What a boundary settles stays settled: later bytes only add events after it. */
  lemma {:induction false} BoundaryIsAPrefix(u: Unmarshal, data: seq<byte>, a: nat, b: nat)
    requires Boundary(data, a) && a <= b <= |data|
    ensures Events(u, data[..a]) <= Events(u, data[..b])
    ensures Corrupt(u, data[..a]) ==> Corrupt(u, data[..b])
    decreases b
  {
    hide Events, Corrupt, Classify, EventOf, LineStart;
    if a < b {
      var s := LineStart(data[..b], b - 1);
      if a > 0 {
        assert data[..b][a - 1] == LINE_FEED;
      }
      assert Boundary(data, s);
      BoundaryIsAPrefix(u, data, a, s);
      NextRecord(u, data, s, b);
    }
  }

  /** Every stored event has its own end offset, in file order: no record is counted twice. */
  lemma {:induction false} EventsEndInOrder(u: Unmarshal, data: seq<byte>)
    ensures forall i :: 0 <= i < |Events(u, data)| ==> 0 < Events(u, data)[i].offset <= |data|
    ensures forall i, j :: 0 <= i < j < |Events(u, data)| ==> Events(u, data)[i].offset < Events(u, data)[j].offset
    decreases |data|
  {
    if data != [] {
      EventsEndInOrder(u, data[..LineStart(data, |data| - 1)]);
    }
  }
}
