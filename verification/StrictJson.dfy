/**
 * The strict JSON recognizer and the shape comparison of internal messages
 * (strictjson/decode.go), on the token stream that the standard decoder yields.
 */
module StrictJson {
  import opened Common

  datatype Token =
    | OpenObject | CloseObject | OpenArray | CloseArray
    | Text(s: string) | Number(text: string, fits: bool) | Truth(b: bool) | NullToken

  /** A document: its members in the order written. `fits` says that a number is in the range of a float64. */
  datatype Value =
    | Nothing
    | Flag(b: bool)
    | Numeral(text: string, fits: bool)
    | Str(s: string)
    | Arr(items: seq<Value>)
    | Obj(members: seq<Member>)

  datatype Member = Member(name: string, value: Value)

  const MAX_DEPTH: nat := 32

  // ---------- The language ----------

  function Flatten(v: Value): (ts: seq<Token>)
    ensures ts != [] && !IsCloser(ts[0])
  {
    match v
    case Nothing => [NullToken]
    case Flag(b) => [Truth(b)]
    case Numeral(text, fits) => [Number(text, fits)]
    case Str(s) => [Text(s)]
    case Arr(items) => [OpenArray] + FlattenItems(items) + [CloseArray]
    case Obj(members) => [OpenObject] + FlattenMembers(members) + [CloseObject]
  }

  function FlattenItems(items: seq<Value>): seq<Token> {
    if items == [] then [] else Flatten(items[0]) + FlattenItems(items[1..])
  }

  function FlattenMembers(members: seq<Member>): seq<Token> {
    if members == [] then []
    else [Text(members[0].name)] + Flatten(members[0].value) + FlattenMembers(members[1..])
  }

  predicate IsCloser(t: Token) {
    t.CloseObject? || t.CloseArray?
  }

  predicate DistinctNames(members: seq<Member>) {
    forall i, j :: 0 <= i < j < |members| ==> members[i].name != members[j].name
  }

  /** A value that may stand at this depth. */
  predicate Admissible(v: Value, depth: nat, allowNull: bool) {
    depth <= MAX_DEPTH &&
    match v
    case Nothing => allowNull
    case Numeral(_, fits) => allowNull ==> fits
    case Arr(items) => forall i :: 0 <= i < |items| ==> Admissible(items[i], depth + 1, allowNull)
    case Obj(members) =>
      DistinctNames(members) && forall i :: 0 <= i < |members| ==> Admissible(members[i].value, depth + 1, allowNull)
    case _ => true
  }

  // ---------- The recognizer as a function ----------

  /** Whether the decoder reports another element. */
  predicate More(ts: seq<Token>) {
    ts != [] && !IsCloser(ts[0])
  }

  /** What scanValue consumes, with the value it stands for and what is left. */
  function Parse(ts: seq<Token>, depth: nat, allowNull: bool): (r: Option<(Value, seq<Token>)>)
    ensures r.Some? ==> |r.value.1| < |ts|
    decreases |ts|, 0
  {
    if depth > MAX_DEPTH || ts == [] || (ts[0].NullToken? && !allowNull) then None
    else
      match ts[0]
      case OpenObject =>
        (match ParseMembers(ts[1..], depth, allowNull, {})
         case None => None
         case Some((members, rest)) =>
           if rest != [] && rest[0].CloseObject? then Some((Obj(members), rest[1..])) else None)
      case OpenArray =>
        (match ParseItems(ts[1..], depth, allowNull)
         case None => None
         case Some((items, rest)) =>
           if rest != [] && rest[0].CloseArray? then Some((Arr(items), rest[1..])) else None)
      case CloseObject => None
      case CloseArray => None
      case Number(text, fits) => if allowNull && !fits then None else Some((Numeral(text, fits), ts[1..]))
      case Text(s) => Some((Str(s), ts[1..]))
      case Truth(b) => Some((Flag(b), ts[1..]))
      case NullToken => Some((Nothing, ts[1..]))
  }

  function ParseItems(ts: seq<Token>, depth: nat, allowNull: bool): (r: Option<(seq<Value>, seq<Token>)>)
    ensures r.Some? ==> |r.value.1| <= |ts|
    decreases |ts|, 1
  {
    if !More(ts) then Some(([], ts))
    else
      match Parse(ts, depth + 1, allowNull)
      case None => None
      case Some((v, rest)) =>
        match ParseItems(rest, depth, allowNull)
        case None => None
        case Some((vs, end)) => Some(([v] + vs, end))
  }

  function ParseMembers(ts: seq<Token>, depth: nat, allowNull: bool, seen: set<string>): (r: Option<(seq<Member>, seq<Token>)>)
    ensures r.Some? ==> |r.value.1| <= |ts|
    decreases |ts|, 1
  {
    if !More(ts) then Some(([], ts))
    else if !ts[0].Text? || ts[0].s in seen then None
    else
      match Parse(ts[1..], depth + 1, allowNull)
      case None => None
      case Some((v, rest)) =>
        match ParseMembers(rest, depth, allowNull, seen + {ts[0].s})
        case None => None
        case Some((ms, end)) => Some(([Member(ts[0].s, v)] + ms, end))
  }

  // ---------- Soundness ----------

  lemma Bracketed(first: Token, middle: seq<Token>, last: Token, rest: seq<Token>)
    ensures [first] + (middle + ([last] + rest)) == [first] + middle + [last] + rest
    ensures ([first] + middle + [last] + rest)[1..] == middle + ([last] + rest)
  {
  }

  lemma Regroup(a: seq<Token>, b: seq<Token>, c: seq<Token>)
    ensures a + (b + c) == a + b + c
  {
  }

  predicate FreshNames(members: seq<Member>, seen: set<string>) {
    forall i :: 0 <= i < |members| ==> members[i].name !in seen
  }

  lemma {:induction false} ParseIsSound(ts: seq<Token>, depth: nat, allowNull: bool)
    requires Parse(ts, depth, allowNull).Some?
    ensures var (v, rest) := Parse(ts, depth, allowNull).value;
      Admissible(v, depth, allowNull) && ts == Flatten(v) + rest
    decreases |ts|, 0
  {
    assert ts == [ts[0]] + ts[1..];
    match ts[0] {
      case OpenObject =>
        ParseMembersIsSound(ts[1..], depth, allowNull, {});
        var (members, rest) := ParseMembers(ts[1..], depth, allowNull, {}).value;
        ClosedObject(ts, members, rest);
        hide Flatten, FlattenMembers, ParseMembers, DistinctNames;
      case OpenArray =>
        ParseItemsIsSound(ts[1..], depth, allowNull);
        var (items, rest) := ParseItems(ts[1..], depth, allowNull).value;
        ClosedArray(ts, items, rest);
        hide Flatten, FlattenItems, ParseItems;
      case _ =>
    }
  }

  lemma ClosedObject(ts: seq<Token>, members: seq<Member>, rest: seq<Token>)
    requires ts != [] && ts[0] == OpenObject && ts[1..] == FlattenMembers(members) + rest
    ensures rest != [] && rest[0].CloseObject? ==> ts == Flatten(Obj(members)) + rest[1..]
  {
    if rest != [] && rest[0].CloseObject? {
      assert ts == [OpenObject] + ts[1..] && rest == [CloseObject] + rest[1..];
      Bracketed(OpenObject, FlattenMembers(members), CloseObject, rest[1..]);
    }
  }

  lemma ClosedArray(ts: seq<Token>, items: seq<Value>, rest: seq<Token>)
    requires ts != [] && ts[0] == OpenArray && ts[1..] == FlattenItems(items) + rest
    ensures rest != [] && rest[0].CloseArray? ==> ts == Flatten(Arr(items)) + rest[1..]
  {
    if rest != [] && rest[0].CloseArray? {
      assert ts == [OpenArray] + ts[1..] && rest == [CloseArray] + rest[1..];
      Bracketed(OpenArray, FlattenItems(items), CloseArray, rest[1..]);
    }
  }

  lemma {:induction false} ParseItemsIsSound(ts: seq<Token>, depth: nat, allowNull: bool)
    requires ParseItems(ts, depth, allowNull).Some?
    ensures var (items, rest) := ParseItems(ts, depth, allowNull).value;
      (forall i :: 0 <= i < |items| ==> Admissible(items[i], depth + 1, allowNull)) && ts == FlattenItems(items) + rest && !More(rest)
    decreases |ts|, 1
  {
    if More(ts) {
      ParseIsSound(ts, depth + 1, allowNull);
      var (v, rest) := Parse(ts, depth + 1, allowNull).value;
      ParseItemsIsSound(rest, depth, allowNull);
      var (vs, end) := ParseItems(rest, depth, allowNull).value;
      hide Flatten, Admissible, Parse, ParseItems;
      assert ([v] + vs)[1..] == vs;
      assert ts == Flatten(v) + (FlattenItems(vs) + end);
    }
  }

  /** One more member in front, under a name that was not seen. */
  lemma OneMoreName(m: Member, ms: seq<Member>, seen: set<string>)
    requires DistinctNames(ms) && FreshNames(ms, seen + {m.name}) && m.name !in seen
    ensures DistinctNames([m] + ms) && FreshNames([m] + ms, seen) && ([m] + ms)[1..] == ms
  {
  }

  lemma FewerNames(members: seq<Member>, seen: set<string>)
    requires DistinctNames(members) && FreshNames(members, seen) && members != []
    ensures DistinctNames(members[1..]) && FreshNames(members[1..], seen + {members[0].name}) && members[0].name !in seen
  {
  }

  lemma {:induction false} ParseMembersIsSound(ts: seq<Token>, depth: nat, allowNull: bool, seen: set<string>)
    requires ParseMembers(ts, depth, allowNull, seen).Some?
    ensures var (members, rest) := ParseMembers(ts, depth, allowNull, seen).value;
      && (forall i :: 0 <= i < |members| ==> Admissible(members[i].value, depth + 1, allowNull))
      && DistinctNames(members) && FreshNames(members, seen) && ts == FlattenMembers(members) + rest && !More(rest)
    decreases |ts|, 1
  {
    hide Flatten, Admissible, Parse, DistinctNames, FreshNames;
    if More(ts) {
      var name := ts[0].s;
      ParseIsSound(ts[1..], depth + 1, allowNull);
      var (v, rest) := Parse(ts[1..], depth + 1, allowNull).value;
      ParseMembersIsSound(rest, depth, allowNull, seen + {name});
      var (ms, end) := ParseMembers(rest, depth, allowNull, seen + {name}).value;
      OneMoreName(Member(name, v), ms, seen);
      hide ParseMembers;
      assert ts == [Text(name)] + ts[1..];
      Regroup(Flatten(v), FlattenMembers(ms), end);
      Regroup([Text(name)], Flatten(v) + FlattenMembers(ms), end);
      Regroup([Text(name)], Flatten(v), FlattenMembers(ms));
    } else {
      NoNames(seen);
    }
  }

  lemma NoNames(seen: set<string>)
    ensures DistinctNames([]) && FreshNames([], seen)
  {
  }

  // ---------- Completeness ----------

  lemma {:induction false} ParseIsComplete(v: Value, rest: seq<Token>, depth: nat, allowNull: bool)
    requires Admissible(v, depth, allowNull)
    ensures Parse(Flatten(v) + rest, depth, allowNull) == Some((v, rest))
    decreases v, 1, 0
  {
    var ts := Flatten(v) + rest;
    match v {
      case Obj(members) =>
        AllFresh(members);
        ParseMembersIsComplete(v, members, [CloseObject] + rest, depth, allowNull, {});
        Bracketed(OpenObject, FlattenMembers(members), CloseObject, rest);
        hide FlattenMembers, ParseMembers, DistinctNames;
        assert ([CloseObject] + rest)[1..] == rest;
      case Arr(items) =>
        ParseItemsIsComplete(v, items, [CloseArray] + rest, depth, allowNull);
        Bracketed(OpenArray, FlattenItems(items), CloseArray, rest);
        hide FlattenItems, ParseItems;
        assert ([CloseArray] + rest)[1..] == rest;
      case _ =>
        assert ts[1..] == rest;
    }
  }

  lemma AllFresh(members: seq<Member>)
    ensures FreshNames(members, {})
  {
  }

  lemma {:induction false} ParseItemsIsComplete(v: Value, items: seq<Value>, rest: seq<Token>, depth: nat, allowNull: bool)
    requires forall i :: 0 <= i < |items| ==> items[i] < v && Admissible(items[i], depth + 1, allowNull)
    requires !More(rest)
    ensures ParseItems(FlattenItems(items) + rest, depth, allowNull) == Some((items, rest))
    decreases v, 0, |items|
  {
    hide Flatten, Parse, Admissible;
    if items == [] {
      assert FlattenItems(items) + rest == rest;
    } else {
      var tail := FlattenItems(items[1..]) + rest;
      ParseIsComplete(items[0], tail, depth + 1, allowNull);
      ParseItemsIsComplete(v, items[1..], rest, depth, allowNull);
      Regroup(Flatten(items[0]), FlattenItems(items[1..]), rest);
      StartsOpen(items[0], tail);
      assert items == [items[0]] + items[1..];
    }
  }

  lemma StartsOpen(v: Value, rest: seq<Token>)
    ensures More(Flatten(v) + rest)
  {
    hide FlattenItems, FlattenMembers;
  }

  lemma {:induction false} ParseMembersIsComplete(v: Value, members: seq<Member>, rest: seq<Token>, depth: nat, allowNull: bool, seen: set<string>)
    requires forall i :: 0 <= i < |members| ==> members[i].value < v && Admissible(members[i].value, depth + 1, allowNull)
    requires DistinctNames(members) && FreshNames(members, seen) && !More(rest)
    ensures ParseMembers(FlattenMembers(members) + rest, depth, allowNull, seen) == Some((members, rest))
    decreases v, 0, |members|
  {
    hide Flatten, Parse, Admissible, DistinctNames, FreshNames;
    if members == [] {
      assert FlattenMembers(members) + rest == rest;
    } else {
      var m, tail := members[0], FlattenMembers(members[1..]) + rest;
      FewerNames(members, seen);
      ParseIsComplete(m.value, tail, depth + 1, allowNull);
      ParseMembersIsComplete(v, members[1..], rest, depth, allowNull, seen + {m.name});
      MembersBegin(members, rest);
      assert members == [Member(m.name, m.value)] + members[1..];
    }
  }

  lemma MembersBegin(members: seq<Member>, rest: seq<Token>)
    requires members != []
    ensures var ts := FlattenMembers(members) + rest;
      ts[0] == Text(members[0].name) && ts[1..] == Flatten(members[0].value) + (FlattenMembers(members[1..]) + rest)
  {
    hide Flatten;
    assert FlattenMembers(members) + rest ==
      [Text(members[0].name)] + (Flatten(members[0].value) + (FlattenMembers(members[1..]) + rest));
  }

  // ---------- Main results ----------

  /** A scan followed by the end of the input. */
  predicate Accepts(ts: seq<Token>, allowNull: bool) {
    var r := Parse(ts, 0, allowNull);
    r.Some? && r.value.1 == []
  }

  /**
   * The recognizer accepts exactly the token sequences of values with nesting of
   * at most 32, distinct names in every object, and no null unless allowed.
   */
  lemma AcceptsExactlyTheValues(ts: seq<Token>, allowNull: bool)
    ensures Accepts(ts, allowNull) <==> exists v :: Admissible(v, 0, allowNull) && Flatten(v) == ts
  {
    if Accepts(ts, allowNull) {
      ParseIsSound(ts, 0, allowNull);
      var (v, rest) := Parse(ts, 0, allowNull).value;
      assert Flatten(v) + rest == Flatten(v);
    }
    if v :| Admissible(v, 0, allowNull) && Flatten(v) == ts {
      ParseIsComplete(v, [], 0, allowNull);
      assert Flatten(v) + [] == ts;
    }
  }

  /** A scan consumes exactly one value: no admissible value's tokens extend another's. */
  lemma ConsumesExactlyOneValue(v: Value, w: Value, rest: seq<Token>, rest': seq<Token>, depth: nat, allowNull: bool)
    requires Admissible(v, depth, allowNull) && Admissible(w, depth, allowNull) && Flatten(v) + rest == Flatten(w) + rest'
    ensures v == w && rest == rest'
  {
    ParseIsComplete(v, rest, depth, allowNull);
    ParseIsComplete(w, rest', depth, allowNull);
  }

  // ---------- The recognizer as code ----------

  /** The standard decoder: it hands out tokens and remembers where it is. */
  class Decoder {
    const tokens: seq<Token>
    var next: nat

    ghost predicate Valid()
      reads this
    {
      next <= |tokens|
    }

    ghost function Rest(): seq<Token>
      requires Valid()
      reads this
    {
      tokens[next..]
    }

    constructor (tokens: seq<Token>)
      ensures Valid() && Rest() == tokens
    {
      this.tokens := tokens;
      next := 0;
    }

    method HasMore() returns (more: bool)
      requires Valid()
      ensures more <==> More(Rest())
    {
      return next < |tokens| && !tokens[next].CloseObject? && !tokens[next].CloseArray?;
    }

    method Read() returns (t: Option<Token>)
      requires Valid()
      modifies this
      ensures Valid()
      ensures t.Some? <==> old(Rest()) != []
      ensures t.Some? ==> t.value == old(Rest())[0] && Rest() == old(Rest())[1..]
      ensures t.None? ==> Rest() == []
    {
      if next == |tokens| {
        return None;
      }
      next := next + 1;
      return Some(tokens[next - 1]);
    }
  }

  /** scanValue: no tree is built, only the names seen in the current object are remembered. */
  method ScanValue(d: Decoder, depth: nat, allowNull: bool) returns (ok: bool)
    requires d.Valid()
    modifies d
    ensures d.Valid()
    ensures ok <==> Parse(old(d.Rest()), depth, allowNull).Some?
    ensures ok ==> d.Rest() == Parse(old(d.Rest()), depth, allowNull).value.1
    decreases |d.Rest()|, 0
  {
    if depth > MAX_DEPTH {
      return false;
    }
    var t := d.Read();
    if t.None? || (t.value.NullToken? && !allowNull) {
      return false;
    }
    match t.value {
      case OpenObject =>
        ok := ScanMembers(d, depth, allowNull);
        if ok {
          var end := d.Read();
          ok := end == Some(CloseObject);
        }
      case OpenArray =>
        ok := ScanItems(d, depth, allowNull);
        if ok {
          var end := d.Read();
          ok := end == Some(CloseArray);
        }
      case Number(_, fits) => ok := !(allowNull && !fits);
      case CloseObject => ok := false;
      case CloseArray => ok := false;
      case _ => ok := true;
    }
  }

  /** The loop over the elements of an array. */
  method ScanItems(d: Decoder, depth: nat, allowNull: bool) returns (ok: bool)
    requires d.Valid()
    modifies d
    ensures d.Valid()
    ensures ok <==> ParseItems(old(d.Rest()), depth, allowNull).Some?
    ensures ok ==> d.Rest() == ParseItems(old(d.Rest()), depth, allowNull).value.1
    decreases |d.Rest()|, 1
  {
    hide Parse;
    ghost var start := d.Rest();
    var more := d.HasMore();
    while more
      invariant d.Valid() && |d.Rest()| <= |start| && (more <==> More(d.Rest()))
      invariant ParseItems(start, depth, allowNull).Some? <==> ParseItems(d.Rest(), depth, allowNull).Some?
      invariant ParseItems(start, depth, allowNull).Some? ==>
        ParseItems(start, depth, allowNull).value.1 == ParseItems(d.Rest(), depth, allowNull).value.1
      decreases |d.Rest()|
    {
      var one := ScanValue(d, depth + 1, allowNull);
      if !one {
        return false;
      }
      more := d.HasMore();
    }
    return true;
  }

  /** The loop over the members of an object. */
  method ScanMembers(d: Decoder, depth: nat, allowNull: bool) returns (ok: bool)
    requires d.Valid()
    modifies d
    ensures d.Valid()
    ensures ok <==> ParseMembers(old(d.Rest()), depth, allowNull, {}).Some?
    ensures ok ==> d.Rest() == ParseMembers(old(d.Rest()), depth, allowNull, {}).value.1
    decreases |d.Rest()|, 1
  {
    hide Parse;
    ghost var start := d.Rest();
    var seen: set<string> := {};
    var more := d.HasMore();
    while more
      invariant d.Valid() && |d.Rest()| <= |start| && (more <==> More(d.Rest()))
      invariant ParseMembers(start, depth, allowNull, {}).Some? <==> ParseMembers(d.Rest(), depth, allowNull, seen).Some?
      invariant ParseMembers(start, depth, allowNull, {}).Some? ==>
        ParseMembers(start, depth, allowNull, {}).value.1 == ParseMembers(d.Rest(), depth, allowNull, seen).value.1
      decreases |d.Rest()|
    {
      var key := d.Read();
      if key.None? || !key.value.Text? || key.value.s in seen {
        return false;
      }
      var one := ScanValue(d, depth + 1, allowNull);
      if !one {
        return false;
      }
      seen := seen + {key.value.s};
      more := d.HasMore();
    }
    return true;
  }

  /** The part of Decode and ReadValue that looks at tokens: one value and then the end of the input. */
  method Recognize(tokens: seq<Token>, allowNull: bool) returns (ok: bool)
    ensures ok <==> exists v :: Admissible(v, 0, allowNull) && Flatten(v) == tokens
  {
    AcceptsExactlyTheValues(tokens, allowNull);
    var d := new Decoder(tokens);
    ok := ScanValue(d, 0, allowNull);
    if ok {
      var end := d.Read();
      ok := end.None?;
    }
  }

  // ---------- Shape ----------

  datatype Json = JNull | JBool(b: bool) | JNumber(n: real) | JString(s: string) | JArray(items: seq<Json>) | JObject(members: map<string, Json>)

  predicate NullFree(a: Json) {
    match a
    case JNull => false
    case JArray(items) => forall i :: 0 <= i < |items| ==> NullFree(items[i])
    case JObject(m) => forall k :: k in m ==> NullFree(m[k])
    case _ => true
  }

  /** The same keys, the same lengths, the same kinds, and no null anywhere. */
  predicate SameShape(a: Json, b: Json) {
    match a
    case JNull => false
    case JBool(_) => b.JBool?
    case JNumber(_) => b.JNumber?
    case JString(_) => b.JString?
    case JArray(items) => b.JArray? && |b.items| == |items| && forall i :: 0 <= i < |items| ==> SameShape(items[i], b.items[i])
    case JObject(m) => b.JObject? && b.members.Keys == m.Keys && forall k :: k in m ==> k in b.members && SameShape(m[k], b.members[k])
  }

  lemma SubsetOfSameSize<T>(a: set<T>, b: set<T>)
    requires a <= b && |a| == |b|
    ensures a == b
  {
    assert b == a + (b - a) && |a + (b - a)| == |a| + |b - a|;
  }

  /** shape looks up the keys of one side in the other and compares sizes, in any order. */
  method Shape(a: Json, b: Json) returns (same: bool)
    ensures same <==> SameShape(a, b)
    decreases a
  {
    match a
    case JNull => return false;
    case JBool(_) => return b.JBool?;
    case JNumber(_) => return b.JNumber?;
    case JString(_) => return b.JString?;
    case JArray(items) =>
      if !b.JArray? || |items| != |b.items| {
        return false;
      }
      for i := 0 to |items|
        invariant forall j :: 0 <= j < i ==> SameShape(items[j], b.items[j])
      {
        var one := Shape(items[i], b.items[i]);
        if !one {
          return false;
        }
      }
      return true;
    case JObject(m) =>
      if !b.JObject? || |m| != |b.members| {
        DifferentSizes(m, b);
        return false;
      }
      var todo := m.Keys;
      while todo != {}
        invariant todo <= m.Keys
        invariant forall k :: k in m && k !in todo ==> k in b.members && SameShape(m[k], b.members[k])
        decreases |todo|
      {
        var k :| k in todo;
        todo := todo - {k};
        if k !in b.members {
          return false;
        }
        var one := Shape(m[k], b.members[k]);
        if !one {
          return false;
        }
      }
      assert m.Keys <= b.members.Keys && |m.Keys| == |m| && |b.members.Keys| == |b.members|;
      SubsetOfSameSize(m.Keys, b.members.Keys);
      return true;
  }

  lemma DifferentSizes(m: map<string, Json>, b: Json)
    requires b.JObject? ==> |m| != |b.members|
    ensures b.JObject? ==> b.members.Keys != m.Keys
  {
    if b.JObject? {
      assert |m| == |m.Keys| && |b.members| == |b.members.Keys|;
    }
  }

  /** A value has its own shape exactly when it holds no null. */
  lemma {:induction false} ShapeIsReflexiveWithoutNull(a: Json)
    ensures SameShape(a, a) <==> NullFree(a)
    decreases a
  {
    match a
    case JArray(items) =>
      forall i | 0 <= i < |items| ensures SameShape(items[i], items[i]) <==> NullFree(items[i]) { ShapeIsReflexiveWithoutNull(items[i]); }
    case JObject(m) =>
      forall k | k in m ensures SameShape(m[k], m[k]) <==> NullFree(m[k]) { ShapeIsReflexiveWithoutNull(m[k]); }
    case _ =>
  }

  lemma {:induction false} ShapeIsSymmetric(a: Json, b: Json)
    requires SameShape(a, b)
    ensures SameShape(b, a)
    decreases a
  {
    match a
    case JArray(items) =>
      forall i | 0 <= i < |items| ensures SameShape(b.items[i], items[i]) { ShapeIsSymmetric(items[i], b.items[i]); }
    case JObject(m) =>
      forall k | k in m ensures SameShape(b.members[k], m[k]) { ShapeIsSymmetric(m[k], b.members[k]); }
    case _ =>
  }

  lemma {:induction false} ShapeIsTransitive(a: Json, b: Json, c: Json)
    requires SameShape(a, b) && SameShape(b, c)
    ensures SameShape(a, c)
    decreases a
  {
    match a
    case JArray(items) =>
      forall i | 0 <= i < |items| ensures SameShape(items[i], c.items[i]) { ShapeIsTransitive(items[i], b.items[i], c.items[i]); }
    case JObject(m) =>
      forall k | k in m ensures SameShape(m[k], c.members[k]) { ShapeIsTransitive(m[k], b.members[k], c.members[k]); }
    case _ =>
  }
}
