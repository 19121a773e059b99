/** decodeUniqueJSON against a reader that keeps every member as written: it refuses exactly the documents
    in which some object repeats a key, and else builds the maps those members stand for. */
module UniqueKeys {
  import opened Common
  import opened JsonText
  import opened JsonTree

  // A value with the members of its objects in the order they were written, repeated or not.
  datatype Listed = Leaf(json: Json) | List(items: seq<Listed>) | Members(members: seq<Member>)

  datatype Member = Member(key: string, value: Listed)

  function ListValue(strict: bool, s: seq<byte>): (r: Option<(Listed, seq<byte>)>)
    ensures r.Some? ==> |r.value.1| < |s|
    decreases |s|, 0
  {
    var s := SkipSpace(s);
    if s == [] then None
    else if s[0] == OPEN_BRACKET then ListItems(strict, s[1..], [])
    else if s[0] == OPEN_BRACE then ListMembers(strict, s[1..], [])
    else if s[0] == QUOTE then
      match ReadString(strict, s)
      case None => None
      case Some((text, rest)) => Some((Leaf(Str(text)), rest))
    else
      match ReadLiteral(s)
      case None => None
      case Some((v, rest)) => Some((Leaf(v), rest))
  }

  function ListItems(strict: bool, s: seq<byte>, items: seq<Listed>): (r: Option<(Listed, seq<byte>)>)
    ensures r.Some? ==> |r.value.1| < |s| && r.value.0.List? && items <= r.value.0.items
    decreases |s|, 1
  {
    var s := SkipSpace(s);
    if s != [] && s[0] == CLOSE_BRACKET then Some((List(items), s[1..]))
    else
      match Separated(items == [], s)
      case None => None
      case Some(s) =>
        match ListValue(strict, s)
        case None => None
        case Some((v, s)) => ListItems(strict, s, items + [v])
  }

  // No key is looked at twice here.
  function ListMembers(strict: bool, s: seq<byte>, members: seq<Member>): (r: Option<(Listed, seq<byte>)>)
    ensures r.Some? ==> |r.value.1| < |s| && r.value.0.Members? && members <= r.value.0.members
    decreases |s|, 1
  {
    var s := SkipSpace(s);
    if s != [] && s[0] == CLOSE_BRACE then Some((Members(members), s[1..]))
    else
      match Separated(members == [], s)
      case None => None
      case Some(s) =>
        match ReadKey(strict, s, {})
        case None => None
        case Some((k, s)) =>
          match ListValue(strict, s)
          case None => None
          case Some((v, s)) => ListMembers(strict, s, members + [Member(k, v)])
  }

  // --- What a listed value stands for ---

  predicate Distinct(ms: seq<Member>) { forall i, j :: 0 <= i < j < |ms| ==> ms[i].key != ms[j].key }

  predicate Unique(l: Listed) {
    match l
    case Leaf(_) => true
    case List(items) => forall i :: 0 <= i < |items| ==> Unique(items[i])
    case Members(ms) => Distinct(ms) && forall i :: 0 <= i < |ms| ==> Unique(ms[i].value)
  }

  function Build(l: Listed): Json
    decreases l
  {
    match l
    case Leaf(v) => v
    case List(items) => Arr(seq(|items|, i requires 0 <= i < |items| => Build(items[i])))
    case Members(ms) => Obj(BuildFields(ms))
  }

  function BuildFields(ms: seq<Member>): map<string, Json>
    decreases ms
  {
    if ms == [] then map[]
    else
      var last := ms[|ms| - 1];
      BuildFields(ms[..|ms| - 1])[last.key := Build(last.value)]
  }

  function Meaning(r: Option<(Listed, seq<byte>)>): Option<(Json, seq<byte>)> {
    if r.Some? && Unique(r.value.0) then Some((Build(r.value.0), r.value.1)) else None
  }

  lemma {:induction false} FieldKeys(ms: seq<Member>)
    ensures forall k :: k in BuildFields(ms) <==> exists i :: 0 <= i < |ms| && ms[i].key == k
    ensures BuildFields(ms) == map[] <==> ms == []
    decreases |ms|
  {
    if ms != [] {
      var front, last := ms[..|ms| - 1], ms[|ms| - 1];
      FieldKeys(front);
      assert BuildFields(ms) == BuildFields(front)[last.key := Build(last.value)];
      assert forall i :: 0 <= i < |front| ==> front[i] == ms[i];
      assert last.key in BuildFields(ms);
    }
  }

  lemma FieldsGrow(ms: seq<Member>, k: string, v: Listed)
    ensures BuildFields(ms + [Member(k, v)]) == BuildFields(ms)[k := Build(v)]
  {
    assert (ms + [Member(k, v)])[..|ms|] == ms;
  }

  // A repeated key, or one inside a member, is there for good.
  lemma RepeatStays(ms: seq<Member>, all: seq<Member>)
    requires ms <= all
    ensures Unique(Members(all)) ==> Unique(Members(ms))
  {
    assert forall i :: 0 <= i < |ms| ==> ms[i] == all[i];
  }

  lemma InnerStays(items: seq<Listed>, all: seq<Listed>)
    requires items <= all
    ensures Unique(List(all)) ==> Unique(List(items))
  {
    assert forall i :: 0 <= i < |items| ==> items[i] == all[i];
  }

  lemma KeyWithoutSeen(strict: bool, s: seq<byte>, seen: set<string>)
    ensures var r := ReadKey(strict, s, {});
            ReadKey(strict, s, seen) == if r.Some? && r.value.0 !in seen then r else None
  {
    hide ReadString;
  }

  /** The decoder succeeds exactly when the document reads and no object in it repeats a key, with the value
      the members stand for. */
  lemma {:induction false} ValueIsUnique(strict: bool, s: seq<byte>)
    ensures ReadValue(strict, s) == Meaning(ListValue(strict, s))
    decreases |s|, 0
  {
    hide ReadItems, ReadMembers, ListItems, ListMembers, ReadString, ReadLiteral;
    var s := SkipSpace(s);
    if s != [] {
      if s[0] == OPEN_BRACKET {
        ItemsAreUnique(strict, s[1..], []);
        assert BuildItems([]) == [];
      } else if s[0] == OPEN_BRACE {
        MembersAreUnique(strict, s[1..], []);
      }
    }
  }

  function BuildItems(items: seq<Listed>): seq<Json> { seq(|items|, i requires 0 <= i < |items| => Build(items[i])) }

  lemma {:induction false} ItemsAreUnique(strict: bool, s: seq<byte>, items: seq<Listed>)
    requires Unique(List(items))
    ensures ReadItems(strict, s, BuildItems(items)) == Meaning(ListItems(strict, s, items))
    decreases |s|, 1
  {
    hide ReadValue, ListValue;
    var s := SkipSpace(s);
    if s != [] && s[0] == CLOSE_BRACKET {
      assert Build(List(items)) == Arr(BuildItems(items));
    } else if Separated(items == [], s).Some? {
      var x := Separated(items == [], s).value;
      ValueIsUnique(strict, x);
      if ListValue(strict, x).Some? {
        NextItem(strict, items, ListValue(strict, x).value.0, ListValue(strict, x).value.1);
      }
    }
  }

  lemma {:induction false} NextItem(strict: bool, items: seq<Listed>, v: Listed, rest: seq<byte>)
    requires Unique(List(items))
    ensures Unique(v) ==>
              ReadItems(strict, rest, BuildItems(items) + [Build(v)]) == Meaning(ListItems(strict, rest, items + [v]))
    ensures !Unique(v) ==> Meaning(ListItems(strict, rest, items + [v])) == None
    decreases |rest|, 2
  {
    hide ReadItems, ListItems;
    if Unique(v) {
      ItemsAreUnique(strict, rest, items + [v]);
      assert BuildItems(items + [v]) == BuildItems(items) + [Build(v)];
    } else {
      var all := ListItems(strict, rest, items + [v]);
      assert (items + [v])[|items|] == v;
      if all.Some? {
        InnerStays(items + [v], all.value.0.items);
      }
    }
  }

  lemma {:induction false} MembersAreUnique(strict: bool, s: seq<byte>, ms: seq<Member>)
    requires Unique(Members(ms))
    ensures ReadMembers(strict, s, BuildFields(ms)) == Meaning(ListMembers(strict, s, ms))
    decreases |s|, 1
  {
    hide ReadValue, ListValue, ReadKey, BuildFields;
    FieldKeys(ms);
    var s := SkipSpace(s);
    if !(s != [] && s[0] == CLOSE_BRACE) && Separated(ms == [], s).Some? {
      var x := Separated(ms == [], s).value;
      KeyWithoutSeen(strict, x, BuildFields(ms).Keys);
      if ReadKey(strict, x, {}).Some? {
        var (k, y) := ReadKey(strict, x, {}).value;
        ValueIsUnique(strict, y);
        if ListValue(strict, y).Some? {
          NextMember(strict, ms, k, ListValue(strict, y).value.0, ListValue(strict, y).value.1);
        }
      }
    }
  }

  lemma {:induction false} NextMember(strict: bool, ms: seq<Member>, k: string, v: Listed, rest: seq<byte>)
    requires Unique(Members(ms))
    ensures Unique(v) && k !in BuildFields(ms) ==>
              ReadMembers(strict, rest, BuildFields(ms)[k := Build(v)]) ==
              Meaning(ListMembers(strict, rest, ms + [Member(k, v)]))
    ensures !Unique(v) || k in BuildFields(ms) ==> Meaning(ListMembers(strict, rest, ms + [Member(k, v)])) == None
    decreases |rest|, 2
  {
    hide ReadMembers, ListMembers, BuildFields;
    FieldKeys(ms);
    FieldsGrow(ms, k, v);
    var more := ms + [Member(k, v)];
    if Unique(v) && k !in BuildFields(ms) {
      MembersAreUnique(strict, rest, more);
    } else {
      var all := ListMembers(strict, rest, more);
      assert more[|ms|] == Member(k, v) && forall i :: 0 <= i < |ms| ==> more[i] == ms[i];
      if all.Some? {
        RepeatStays(more, all.value.0.members);
      }
    }
  }
}
