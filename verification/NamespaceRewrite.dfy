/**
 * Namespace migration rewrites namespaces, secret identities and cluster DNS
 * names inside stored execution state, in place (namespace_migration.go).
 */
module NamespaceRewrite {
  import opened Common
  import opened ClusterDns

  datatype Json =
    | Null
    | Bool(b: bool)
    | Number(text: string)
    | Str(s: string)
    | Arr(items: seq<Json>)
    | Obj(members: map<string, Json>)

  datatype Move = Move(source: string, target: string, secret: string)

  ghost predicate Mentions(mv: Move, text: string) {
    mv.source != mv.target && Contains(text, Suffix(mv.source))
  }

  /** A member of an object. */
  ghost function Member(mv: Move, key: string, child: Json): Json
    decreases child, 1
  {
    if key == "namespace" && child == Str(mv.source) && mv.source != mv.target then Str(mv.target)
    else if key == "secret_uid" && mv.secret != "" && child.Str? && child.s != mv.secret then Str(mv.secret)
    else if child.Str? && Mentions(mv, child.s) then Str(ReplaceAll(child.s, Suffix(mv.source), Suffix(mv.target)))
    else Rewritten(mv, child)
  }

  ghost function Rewritten(mv: Move, v: Json): Json
    decreases v, 0
  {
    match v
    case Obj(m) => Obj(map k | k in m :: Member(mv, k, m[k]))
    case Arr(items) => Arr(seq(|items|, i requires 0 <= i < |items| => Rewritten(mv, items[i])))
    case _ => v
  }

  lemma SuffixInjective(a: string, b: string)
    requires Suffix(a) == Suffix(b)
    ensures a == b
  {
    assert Suffix(a)[1..|a| + 1] == a && Suffix(b)[1..|b| + 1] == b;
  }

  /** One member's turn: the branches in the order of the loop body. */
  method RewriteMember(mv: Move, key: string, child: Json) returns (changed: bool, r: Json)
    ensures r == Member(mv, key, child)
    ensures changed <==> r != child
    decreases child, 2
  {
    if key == "namespace" {
      if child == Str(mv.source) && mv.source != mv.target {
        return true, Str(mv.target);
      }
    }
    if key == "secret_uid" && mv.secret != "" {
      if child.Str? && child.s != mv.secret {
        return true, Str(mv.secret);
      }
    }
    if child.Str? && mv.source != mv.target {
      var found := IsIn(child.s, Suffix(mv.source));
      if found {
        if Suffix(mv.source) == Suffix(mv.target) { SuffixInjective(mv.source, mv.target); }
        ReplaceChanges(child.s, Suffix(mv.source), Suffix(mv.target));
        return true, Str(ReplaceAll(child.s, Suffix(mv.source), Suffix(mv.target)));
      }
    }
    changed, r := RewriteValue(mv, child);
  }

  /** The members of an object, in any order. */
  method RewriteMembers(mv: Move, m: map<string, Json>, ghost v: Json) returns (changed: bool, out: map<string, Json>)
    requires v == Obj(m)
    ensures out == map k | k in m :: Member(mv, k, m[k])
    ensures changed <==> out != m
    decreases v, 0
  {
    hide Member;
    changed, out := false, m;
    var todo := m.Keys;
    while todo != {}
      invariant todo <= m.Keys && out.Keys == m.Keys
      invariant forall k :: k in m ==> out[k] == if k in todo then m[k] else Member(mv, k, m[k])
      invariant changed <==> exists k :: k in m && out[k] != m[k]
      decreases |todo|
    {
      var k :| k in todo;
      todo := todo - {k};
      var different, child := RewriteMember(mv, k, m[k]);
      out := out[k := child];
      if different {
        changed := true;
      }
    }
  }

  method RewriteItems(mv: Move, items: seq<Json>, ghost v: Json) returns (changed: bool, out: seq<Json>)
    requires v == Arr(items)
    ensures out == seq(|items|, i requires 0 <= i < |items| => Rewritten(mv, items[i]))
    ensures changed <==> out != items
    decreases v, 0
  {
    hide Rewritten;
    changed, out := false, items;
    for i := 0 to |items|
      invariant |out| == |items|
      invariant forall j :: 0 <= j < |items| ==> out[j] == if j < i then Rewritten(mv, items[j]) else items[j]
      invariant changed <==> exists j :: 0 <= j < |items| && out[j] != items[j]
    {
      var different, child := RewriteValue(mv, items[i]);
      out := out[i := child];
      if different {
        changed := true;
      }
    }
  }

  /** The recursive walk. Objects are visited in any order, and the answer says whether anything changed. */
  method RewriteValue(mv: Move, v: Json) returns (changed: bool, r: Json)
    ensures r == Rewritten(mv, v)
    ensures changed <==> r != v
    decreases v, 1
  {
    match v
    case Obj(m) =>
      var out: map<string, Json>;
      changed, out := RewriteMembers(mv, m, v);
      r := Obj(out);
    case Arr(items) =>
      var out: seq<Json>;
      changed, out := RewriteItems(mv, items, v);
      r := Arr(out);
    case _ =>
      changed, r := false, v;
  }

  // ---------- What never changes ----------

  /** The same document up to the strings that are members of objects. */
  ghost predicate SameShape(a: Json, b: Json) {
    match a
    case Obj(m) =>
      b.Obj? && b.members.Keys == m.Keys
      && forall k :: k in m ==> if m[k].Str? then b.members[k].Str? else SameShape(m[k], b.members[k])
    case Arr(items) => b.Arr? && |b.items| == |items| && forall i :: 0 <= i < |items| ==> SameShape(items[i], b.items[i])
    case _ => b == a
  }

  /** Keys, array lengths, every non-string leaf and every string that stands directly in an array are kept. */
  lemma {:induction false} ShapeIsKept(mv: Move, v: Json)
    ensures SameShape(v, Rewritten(mv, v))
    decreases v
  {
    match v
    case Obj(m) =>
      forall k | k in m ensures if m[k].Str? then Member(mv, k, m[k]).Str? else SameShape(m[k], Member(mv, k, m[k])) {
        ShapeIsKept(mv, m[k]);
      }
    case Arr(items) =>
      forall i | 0 <= i < |items| ensures SameShape(items[i], Rewritten(mv, items[i])) { ShapeIsKept(mv, items[i]); }
    case _ =>
  }

  // ---------- What each string becomes ----------

  /** A stored secret identity is the new one, the source namespace is the target, and every DNS name is moved. */
  function MovedText(mv: Move, key: string, text: string): string {
    if key == "secret_uid" && mv.secret != "" then mv.secret
    else if key == "namespace" && text == mv.source then mv.target
    else ReplaceAll(text, Suffix(mv.source), Suffix(mv.target))
  }

  /** The document with each string that is a member of an object moved, and nothing else touched. */
  ghost predicate IsMoved(mv: Move, v: Json, r: Json) {
    match v
    case Obj(m) =>
      r.Obj? && r.members.Keys == m.Keys
      && forall k :: k in m ==>
           if m[k].Str? then r.members[k] == Str(MovedText(mv, k, m[k].s)) else IsMoved(mv, m[k], r.members[k])
    case Arr(items) => r.Arr? && |r.items| == |items| && forall i :: 0 <= i < |items| ==> IsMoved(mv, items[i], r.items[i])
    case _ => r == v
  }

  lemma {:induction false} ReplacedBySame(t: string, p: string)
    requires p != ""
    ensures ReplaceAll(t, p, p) == t
  {
    if t != "" {
      if At(t, p, 0) {
        ReplacedBySame(t[|p|..], p);
        assert t == t[..|p|] + t[|p|..] && t[..|p|] == p;
      } else {
        ReplacedBySame(t[1..], p);
      }
    }
  }

  lemma MemberIsMoved(mv: Move, key: string, text: string)
    requires NoDot(mv.secret)
    ensures Member(mv, key, Str(text)) == Str(MovedText(mv, key, text))
  {
    ReplacedBySame(text, Suffix(mv.source));
    if mv.source != mv.target && !Contains(text, Suffix(mv.source)) {
      if Suffix(mv.source) == Suffix(mv.target) { SuffixInjective(mv.source, mv.target); }
      ReplaceChanges(text, Suffix(mv.source), Suffix(mv.target));
    }
    DotlessIsClean(mv.secret, mv.source);
    hide Contains, ReplaceAll;
  }

  /** Whatever the document and the namespaces, the rewrite moves exactly these strings, wherever they stand. */
  lemma {:induction false} RewriteMoves(mv: Move, v: Json)
    requires NoDot(mv.secret)
    ensures IsMoved(mv, v, Rewritten(mv, v))
    decreases v
  {
    hide MovedText;
    match v
    case Obj(m) =>
      forall k | k in m
        ensures if m[k].Str? then Member(mv, k, m[k]) == Str(MovedText(mv, k, m[k].s)) else IsMoved(mv, m[k], Member(mv, k, m[k]))
      {
        if m[k].Str? { MemberIsMoved(mv, k, m[k].s); } else { RewriteMoves(mv, m[k]); }
      }
    case Arr(items) =>
      forall i | 0 <= i < |items| ensures IsMoved(mv, items[i], Rewritten(mv, items[i])) { RewriteMoves(mv, items[i]); }
    case _ =>
  }

  // ---------- What is gone ----------

  /** No string that is a member of an object contains the pattern. */
  ghost predicate Clean(p: string, v: Json) {
    match v
    case Obj(m) => forall k :: k in m ==> if m[k].Str? then !Contains(m[k].s, p) else Clean(p, m[k])
    case Arr(items) => forall i :: 0 <= i < |items| ==> Clean(p, items[i])
    case _ => true
  }

  /** Namespaces are DNS labels and secret identities UUIDs: neither has a dot. */
  predicate Valid(mv: Move) {
    NoDot(mv.source) && NoDot(mv.target) && NoDot(mv.secret) && mv.source != mv.target
  }

  lemma DotlessIsClean(text: string, namespace: string)
    requires NoDot(text)
    ensures !Contains(text, Suffix(namespace))
  {
    SuffixLetters(namespace, 0);
    forall i ensures !At(text, Suffix(namespace), i) {
    }
  }

  /** The string a member string becomes. */
  lemma MemberString(mv: Move, key: string, s: string)
    requires Valid(mv) && !StartsLocal(mv.source) && !StartsLocal(mv.target)
    ensures var r := Member(mv, key, Str(s)); r.Str? && !Contains(r.s, Suffix(mv.source))
  {
    hide Contains;
    DotlessIsClean(mv.target, mv.source);
    DotlessIsClean(mv.secret, mv.source);
    SuffixesAreApart(mv.source, mv.target);
    ReplacedIsClean(s, Suffix(mv.source), Suffix(mv.target));
  }

  lemma {:induction false} RewrittenIsClean(mv: Move, v: Json)
    requires Valid(mv) && !StartsLocal(mv.source) && !StartsLocal(mv.target)
    ensures Clean(Suffix(mv.source), Rewritten(mv, v))
    decreases v
  {
    match v
    case Obj(m) =>
      forall k | k in m
        ensures var r := Member(mv, k, m[k]);
          if r.Str? then !Contains(r.s, Suffix(mv.source)) else Clean(Suffix(mv.source), r)
      {
        if m[k].Str? { MemberString(mv, k, m[k].s); } else { RewrittenIsClean(mv, m[k]); }
      }
    case Arr(items) =>
      forall i | 0 <= i < |items| ensures Clean(Suffix(mv.source), Rewritten(mv, items[i])) { RewrittenIsClean(mv, items[i]); }
    case _ =>
  }

  // ---------- Running it again ----------

  /** Rewriting a clean member string again changes nothing. */
  lemma MemberStringTwice(mv: Move, key: string, s: string)
    requires Valid(mv) && !StartsLocal(mv.source) && !StartsLocal(mv.target)
    ensures Member(mv, key, Member(mv, key, Str(s))) == Member(mv, key, Str(s))
  {
    MemberString(mv, key, s);
    DotlessIsClean(mv.secret, mv.source);
    if key == "namespace" { ReplacedIsNoNamespace(mv, key, s); }
    hide Contains, ReplaceAll, StartsLocal;
    var r := Member(mv, key, Str(s));
    assert !Mentions(mv, r.s);
    assert key == "secret_uid" && mv.secret != "" ==> r.s == mv.secret;
  }

  lemma ReplacedIsNoNamespace(mv: Move, key: string, s: string)
    requires Valid(mv) && key == "namespace"
    ensures Member(mv, key, Str(s)) != Str(mv.source)
  {
    if Mentions(mv, s) {
      var k := FirstReplaced(s, Suffix(mv.source), Suffix(mv.target));
      SuffixLetters(mv.target, 0);
      assert k >= 0 ==> ReplaceAll(s, Suffix(mv.source), Suffix(mv.target))[k] == '.';
    }
  }

  lemma {:induction false} RewrittenTwice(mv: Move, v: Json)
    requires Valid(mv) && !StartsLocal(mv.source) && !StartsLocal(mv.target)
    ensures Rewritten(mv, Rewritten(mv, v)) == Rewritten(mv, v)
    decreases v
  {
    match v
    case Obj(m) =>
      forall k | k in m ensures Member(mv, k, Member(mv, k, m[k])) == Member(mv, k, m[k]) {
        if m[k].Str? { MemberStringTwice(mv, k, m[k].s); } else { RewrittenTwice(mv, m[k]); NotAString(mv, m[k]); }
      }
    case Arr(items) =>
      forall i | 0 <= i < |items| ensures Rewritten(mv, Rewritten(mv, items[i])) == Rewritten(mv, items[i]) { RewrittenTwice(mv, items[i]); }
    case _ =>
  }

  lemma NotAString(mv: Move, v: Json)
    ensures Rewritten(mv, v).Str? <==> v.Str?
  {
  }

  // ---------- Exactness ----------

  ghost predicate AlwaysCleans(mv: Move) {
    forall v :: Clean(Suffix(mv.source), Rewritten(mv, v))
  }

  ghost predicate AlwaysSettles(mv: Move) {
    forall v :: Rewritten(mv, Rewritten(mv, v)) == Rewritten(mv, v)
  }

  /** A document whose one member is this text. */
  function Document(text: string): Json {
    Obj(map["url" := Str(text)])
  }

  lemma DocumentIsReplaced(mv: Move, text: string)
    requires mv.source != mv.target && Contains(text, Suffix(mv.source))
    ensures Rewritten(mv, Document(text)) == Document(ReplaceAll(text, Suffix(mv.source), Suffix(mv.target)))
  {
    hide Contains, ReplaceAll;
    var m := map["url" := Str(text)];
    assert Member(mv, "url", m["url"]) == Str(ReplaceAll(text, Suffix(mv.source), Suffix(mv.target)));
    assert (map k | k in m :: Member(mv, k, m[k])) == map["url" := Str(ReplaceAll(text, Suffix(mv.source), Suffix(mv.target)))];
  }

  /** A text that mentions the source before and after the replacement. */
  lemma Survivor(mv: Move) returns (text: string)
    requires Valid(mv) && (StartsLocal(mv.source) || StartsLocal(mv.target))
    ensures Contains(text, Suffix(mv.source)) && Contains(ReplaceAll(text, Suffix(mv.source), Suffix(mv.target)), Suffix(mv.source))
  {
    hide Contains, ReplaceAll;
    if StartsLocal(mv.source) {
      text := OverlappingText(mv.source);
      OverlapSurvives(mv.source, mv.target);
    } else {
      text := Unfinished(mv.source) + Suffix(mv.source);
      CompletionAppears(mv.source, mv.target);
    }
  }

  /**
   * The migration removes every DNS name of the source, whatever the document,
   * exactly when neither namespace starts with `local`.
   */
  lemma CleansExactlyWithoutLocal(mv: Move)
    requires Valid(mv)
    ensures AlwaysCleans(mv) <==> !StartsLocal(mv.source) && !StartsLocal(mv.target)
  {
    hide StartsLocal, Contains, ReplaceAll;
    if StartsLocal(mv.source) || StartsLocal(mv.target) {
      var text := Survivor(mv);
      DocumentIsReplaced(mv, text);
      assert Document(ReplaceAll(text, Suffix(mv.source), Suffix(mv.target))).members["url"].Str?;
      assert !Clean(Suffix(mv.source), Rewritten(mv, Document(text)));
    } else {
      forall v ensures Clean(Suffix(mv.source), Rewritten(mv, v)) { RewrittenIsClean(mv, v); }
    }
  }

  /** Under exactly the same condition a second migration changes nothing. */
  lemma SettlesExactlyWithoutLocal(mv: Move)
    requires Valid(mv)
    ensures AlwaysSettles(mv) <==> !StartsLocal(mv.source) && !StartsLocal(mv.target)
  {
    hide StartsLocal, Contains, ReplaceAll;
    if StartsLocal(mv.source) || StartsLocal(mv.target) {
      var text := Survivor(mv);
      var once := ReplaceAll(text, Suffix(mv.source), Suffix(mv.target));
      var twice := ReplaceAll(once, Suffix(mv.source), Suffix(mv.target));
      DocumentIsReplaced(mv, text);
      DocumentIsReplaced(mv, once);
      if Suffix(mv.source) == Suffix(mv.target) { SuffixInjective(mv.source, mv.target); }
      ReplaceChanges(once, Suffix(mv.source), Suffix(mv.target));
      assert Document(twice).members["url"] != Document(once).members["url"];
      assert Rewritten(mv, Rewritten(mv, Document(text))) != Rewritten(mv, Document(text));
    } else {
      forall v ensures Rewritten(mv, Rewritten(mv, v)) == Rewritten(mv, v) { RewrittenTwice(mv, v); }
    }
  }
}
