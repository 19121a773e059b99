/** validateRawJSONStringScalars and decodeUniqueValue as loops over the raw bytes. */
module CanonicalDecoder {
  import opened Common
  import opened Unicode
  import opened JsonText
  import opened JsonTree

  // --- The scalar screen ---

  // readHexCodeUnit
  method ReadHexCodeUnit(raw: seq<byte>, start: nat) returns (value: nat, next: nat, ok: bool)
    ensures ok <==> start + 4 <= |raw| && HexNumber(raw[start..start + 4]).Some?
    ensures ok ==> next == start + 4 && HexNumber(raw[start..start + 4]) == Some(value) && value < 0x1_0000
  {
    value, next, ok := 0, start, false;
    if start + 4 > |raw| {
      return;
    }
    var s := raw[start..start + 4];
    for i := 0 to 4
      invariant HexNumber(s[..i]) == Some(value)
    {
      var character := s[i];
      assert s[..i + 1][..i] == s[..i];
      var digit := HexValue(character);
      if digit.None? {
        HexNeedsEach(s, i);
        return;
      }
      value := value * 16 + digit.value;
    }
    assert s[..4] == s && Pow16(4) == 0x1_0000;
    next, ok := start + 4, true;
  }

  lemma {:induction false} HexNeedsEach(s: seq<byte>, i: nat)
    requires i < |s| && HexValue(s[i]).None?
    ensures HexNumber(s).None?
    decreases |s|
  {
    if i < |s| - 1 {
      HexNeedsEach(s[..|s| - 1], i);
    }
  }

  // The \uXXXX escape, or pair of escapes, whose hexadecimal digits start two bytes after `at`.
  method ScreenUnits(raw: seq<byte>, at: nat) returns (next: nat, ok: bool)
    requires at + 1 < |raw| && raw[at] == BACKSLASH && raw[at + 1] == LOWER_U
    ensures ok <==> Screened(raw[at..])
    ensures ok ==> next == at + NextChar(true, raw[at..]).value.1
  {
    var first, index, read := ReadHexCodeUnit(raw, at + 2);
    UnitIn(raw, at);
    next, ok := index, false;
    if !read {
      return;
    }
    if IsHigh(first) {
      UnitIn(raw, at + 6);
      assert raw[at..][6..] == raw[at + 6..];
      if index + 2 > |raw| || raw[index] != BACKSLASH || raw[index + 1] != LOWER_U {
        return;
      }
      var second, afterSecond, readSecond := ReadHexCodeUnit(raw, index + 2);
      if !readSecond || !IsLow(second) {
        return;
      }
      next, ok := afterSecond, !IsNoncharacter(Combine(first, second) as int);
    } else if IsLow(first) {
    } else {
      ok := !IsNoncharacter(first);
    }
  }

  // The escape at `at` seen in the rest of the text.
  lemma UnitIn(raw: seq<byte>, at: nat)
    requires at <= |raw|
    ensures UnitAt(raw[at..]) ==
            if at + 6 <= |raw| && raw[at] == BACKSLASH && raw[at + 1] == LOWER_U
            then HexNumber(raw[at + 2..at + 6]) else None
  {
    if at + 6 <= |raw| {
      assert raw[at..][2..6] == raw[at + 2..at + 6];
    }
  }

  predicate Screened(s: seq<byte>)
    requires s != []
  {
    NextChar(true, s).Some? && !IsNoncharacter(NextChar(true, s).value.0 as int)
  }

  // One character of a string literal.
  method ScreenChar(raw: seq<byte>, at: nat) returns (next: nat, ok: bool)
    requires at < |raw|
    ensures ok <==> Screened(raw[at..])
    ensures ok ==> next == at + NextChar(true, raw[at..]).value.1
  {
    hide DecodeRune, EscapedUnits;
    next, ok := at, false;
    if raw[at] < 0x20 {
      return;
    }
    if raw[at] != BACKSLASH {
      var r := DecodeRune(raw[at..]);
      next, ok := at + r.1, !IsBad(r) && !IsNoncharacter(r.0 as int);
      return;
    }
    if at + 1 >= |raw| {
      return;
    }
    if raw[at + 1] != LOWER_U {
      next, ok := at + 2, Unescape(raw[at + 1]).Some?;
      return;
    }
    next, ok := ScreenUnits(raw, at);
  }

  // validateRawJSONStringScalars
  method ValidateRawStringScalars(raw: seq<byte>) returns (ok: bool)
    ensures ok <==> Outside(raw)
  {
    hide NextChar, IsNoncharacter;
    var index := 0;
    while index < |raw|
      invariant 0 <= index <= |raw|
      invariant Outside(raw) == Outside(raw[index..])
      decreases |raw| - index
    {
      assert raw[index..][1..] == raw[index + 1..];
      if raw[index] != QUOTE {
        index := index + 1;
        continue;
      }
      index := index + 1;
      while index < |raw| && raw[index] != QUOTE
        invariant 0 <= index <= |raw|
        invariant Outside(raw) == Inside(raw[index..])
        decreases |raw| - index
      {
        var next, good := ScreenChar(raw, index);
        if !good {
          return false;
        }
        assert raw[index..][NextChar(true, raw[index..]).value.1..] == raw[next..];
        index := next;
      }
      if index >= |raw| {
        return false;
      }
      assert raw[index..][1..] == raw[index + 1..];
      index := index + 1;
    }
    return true;
  }

  // --- The decoder ---

  // What reading gives when `text` was read before.
  function Ahead(text: string, r: Option<(string, seq<byte>)>): Option<(string, seq<byte>)> {
    match r
    case None => None
    case Some((tail, rest)) => Some((text + tail, rest))
  }

  lemma EmptyAhead(r: Option<(string, seq<byte>)>)
    ensures Ahead("", r) == r
  {
    assert r.Some? ==> "" + r.value.0 == r.value.0;
  }

  lemma OneAhead(text: string, c: char, r: Option<(string, seq<byte>)>)
    ensures Ahead(text + [c], r) == Ahead(text, Ahead([c], r))
  {
    assert r.Some? ==> text + [c] + r.value.0 == text + ([c] + r.value.0);
  }

  // encoding/json's Decoder with UseNumber: the bytes still to be read.
  class Decoder {
    var unread: seq<byte>

    constructor (raw: seq<byte>)
      ensures unread == raw
    {
      unread := raw;
    }

    // Skips white space; the byte that comes next, if any.
    method Peek() returns (b: Option<byte>)
      modifies this
      ensures unread == SkipSpace(old(unread))
      ensures b == if unread == [] then None else Some(unread[0])
    {
      while unread != [] && IsJsonSpace(unread[0])
        invariant SkipSpace(unread) == SkipSpace(old(unread))
        decreases |unread|
      {
        unread := unread[1..];
      }
      b := if unread == [] then None else Some(unread[0]);
    }

    method Skip(n: nat)
      requires n <= |unread|
      modifies this
      ensures unread == old(unread)[n..]
    {
      unread := unread[n..];
    }

    // A string token.
    method StringToken() returns (s: Option<string>)
      modifies this
      ensures s.Some? <==> ReadString(false, old(unread)).Some?
      ensures s.Some? ==> ReadString(false, old(unread)) == Some((s.value, unread))
    {
      s := None;
      if unread == [] || unread[0] != QUOTE {
        return;
      }
      hide NextChar, ValidScalars;
      var text, rest := "", unread[1..];
      EmptyAhead(ReadBody(false, rest));
      while rest != [] && rest[0] != QUOTE
        invariant ReadBody(false, old(unread)[1..]) == Ahead(text, ReadBody(false, rest))
        decreases |rest|
      {
        var next := NextChar(false, rest);
        if next.None? {
          return;
        }
        OneAhead(text, next.value.0, ReadBody(false, rest[next.value.1..]));
        text, rest := text + [next.value.0], rest[next.value.1..];
      }
      assert text + [] == text;
      if rest == [] || !ValidScalars(text) {
        return;
      }
      unread := rest[1..];
      s := Some(text);
    }

    method Comma(first: bool) returns (ok: bool)
      modifies this
      ensures ok == Separated(first, old(unread)).Some?
      ensures ok ==> Separated(first, old(unread)) == Some(unread)
    {
      ok := first || (unread != [] && unread[0] == COMMA);
      if ok && !first {
        unread := unread[1..];
      }
    }

    method KeyToken(seen: set<string>) returns (k: Option<string>)
      modifies this
      ensures k.Some? <==> ReadKey(false, old(unread), seen).Some?
      ensures k.Some? ==> ReadKey(false, old(unread), seen) == Some((k.value, unread))
    {
      hide ReadString;
      var _ := Peek();
      k := StringToken();
      if k.None? || k.value in seen {
        return None;
      }
      var c := Peek();
      if c != Some(COLON) {
        return None;
      }
      Skip(1);
    }

    method LiteralToken() returns (v: Option<Json>)
      modifies this
      ensures v.Some? <==> ReadLiteral(old(unread)).Some?
      ensures v.Some? ==> ReadLiteral(old(unread)) == Some((v.value, unread))
    {
      var r := ReadLiteral(unread);
      if r.None? {
        return None;
      }
      unread := r.value.1;
      v := Some(r.value.0);
    }

    // decodeUniqueValue
    method Value() returns (v: Option<Json>)
      modifies this
      ensures v.Some? <==> ReadValue(false, old(unread)).Some?
      ensures v.Some? ==> ReadValue(false, old(unread)) == Some((v.value, unread))
      decreases |unread|, 0
    {
      hide ReadString, ReadLiteral;
      ghost var s := unread;
      var b := Peek();
      if b.None? {
        return None;
      }
      if b.value == OPEN_BRACKET {
        Skip(1);
        v := Items();
      } else if b.value == OPEN_BRACE {
        Skip(1);
        v := Members();
      } else if b.value == QUOTE {
        var text := StringToken();
        v := if text.None? then None else Some(Str(text.value));
      } else {
        v := LiteralToken();
      }
    }

    method Items() returns (v: Option<Json>)
      modifies this
      ensures v.Some? <==> ReadItems(false, old(unread), []).Some?
      ensures v.Some? ==> ReadItems(false, old(unread), []) == Some((v.value, unread))
      decreases |unread|, 1
    {
      hide ReadValue;
      var elements: seq<Json> := [];
      while true
        invariant |unread| <= |old(unread)|
        invariant ReadItems(false, unread, elements) == ReadItems(false, old(unread), [])
        decreases |unread|
      {
        var b := Peek();
        if b == Some(CLOSE_BRACKET) {
          Skip(1);
          return Some(Arr(elements));
        }
        var separated := Comma(elements == []);
        if !separated {
          return None;
        }
        var item := Value();
        if item.None? {
          return None;
        }
        elements := elements + [item.value];
      }
    }

    method Members() returns (v: Option<Json>)
      modifies this
      ensures v.Some? <==> ReadMembers(false, old(unread), map[]).Some?
      ensures v.Some? ==> ReadMembers(false, old(unread), map[]) == Some((v.value, unread))
      decreases |unread|, 1
    {
      hide ReadValue, ReadKey;
      var fields: map<string, Json> := map[];
      while true
        invariant |unread| <= |old(unread)|
        invariant ReadMembers(false, unread, fields) == ReadMembers(false, old(unread), map[])
        decreases |unread|
      {
        var b := Peek();
        if b == Some(CLOSE_BRACE) {
          Skip(1);
          return Some(Obj(fields));
        }
        var separated := Comma(fields == map[]);
        if !separated {
          return None;
        }
        var key := KeyToken(fields.Keys);
        if key.None? {
          return None;
        }
        var value := Value();
        if value.None? {
          return None;
        }
        fields := fields[key.value := value.value];
      }
    }
  }

  // decodeUniqueJSON
  method DecodeUnique(raw: seq<byte>) returns (t: Option<Json>)
    ensures t == ReadDocument(false, raw)
  {
    hide ReadValue;
    var decoder := new Decoder(raw);
    t := decoder.Value();
    if t.Some? {
      var b := decoder.Peek();
      if b.Some? {
        t := None;
      }
    }
  }
}
