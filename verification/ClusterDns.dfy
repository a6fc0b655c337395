/** Cluster DNS suffixes, and what replacing one by another leaves behind. */
module ClusterDns {
  import opened Common

  // ---------- Occurrences and their replacement ----------

  /** The pattern agrees with the text from `i` on, as far as both go. */
  predicate Fits(t: string, p: string, i: int) {
    0 <= i <= |t| && forall j :: 0 <= j < |p| && i + j < |t| ==> t[i + j] == p[j]
  }

  predicate At(t: string, p: string, i: int) {
    Fits(t, p, i) && i + |p| <= |t|
  }

  ghost predicate Contains(t: string, p: string) {
    exists i :: At(t, p, i)
  }

  /** strings.ReplaceAll for a non-empty pattern: leftmost occurrences that do not overlap. */
  function ReplaceAll(t: string, p: string, q: string): string
    requires p != ""
  {
    if t == "" then t
    else if At(t, p, 0) then q + ReplaceAll(t[|p|..], p, q)
    else [t[0]] + ReplaceAll(t[1..], p, q)
  }

  /** strings.Contains, which only asks whether there is an occurrence. */
  method IsIn(t: string, p: string) returns (found: bool)
    ensures found <==> Contains(t, p)
  {
    for i := 0 to |t| + 1
      invariant forall j :: 0 <= j < i ==> !At(t, p, j)
    {
      if i + |p| <= |t| && t[i..i + |p|] == p {
        forall j | 0 <= j < |p| ensures t[i + j] == p[j] {
          assert t[i..i + |p|][j] == p[j];
        }
        assert At(t, p, i);
        return true;
      }
    }
    return false;
  }

  lemma AtTail(t: string, p: string, i: int)
    requires t != "" && i >= 1
    ensures At(t, p, i) == At(t[1..], p, i - 1)
  {
    if At(t[1..], p, i - 1) {
      forall j | 0 <= j < |p| ensures t[i + j] == p[j] {
        assert t[1..][i - 1 + j] == p[j];
      }
    }
    if At(t, p, i) {
      forall j | 0 <= j < |p| ensures t[1..][i - 1 + j] == p[j] {
        assert t[i + j] == p[j];
      }
    }
  }

  lemma Regroup(a: string, b: string, c: string, d: string)
    ensures a + (b + c + d) == a + b + c + d
  {
  }

  /** The replacement of a tail, seen from one character earlier. */
  lemma OneEarlier(t: string, p: string, q: string, l: nat)
    requires p != "" && t != "" && !At(t, p, 0) && l + 1 + |p| <= |t|
    requires ReplaceAll(t[1..], p, q) == t[1..][..l] + q + ReplaceAll(t[1..][l + |p|..], p, q)
    ensures ReplaceAll(t, p, q) == t[..l + 1] + q + ReplaceAll(t[l + 1 + |p|..], p, q)
  {
    var rest := ReplaceAll(t[1..][l + |p|..], p, q);
    calc {
      ReplaceAll(t, p, q);
      [t[0]] + ReplaceAll(t[1..], p, q);
      { hide ReplaceAll; Regroup([t[0]], t[1..][..l], q, rest); }
      [t[0]] + t[1..][..l] + q + rest;
      { hide ReplaceAll; assert [t[0]] + t[1..][..l] == t[..l + 1]; }
      t[..l + 1] + q + rest;
      { hide ReplaceAll; assert t[1..][l + |p|..] == t[l + 1 + |p|..]; }
      t[..l + 1] + q + ReplaceAll(t[l + 1 + |p|..], p, q);
    }
  }

  lemma ReplacedAtFront(t: string, p: string, q: string)
    requires p != "" && t != "" && At(t, p, 0)
    ensures |p| <= |t| && ReplaceAll(t, p, q) == t[..0] + q + ReplaceAll(t[0 + |p|..], p, q)
  {
    assert t[..0] + q == q;
  }

  /** Nothing was replaced when `k` is negative; otherwise `k` is the first place where something was. */
  ghost predicate FirstIs(t: string, p: string, q: string, k: int)
    requires p != ""
  {
    if k < 0 then ReplaceAll(t, p, q) == t && !Contains(t, p)
    else
      && At(t, p, k) && (forall i :: 0 <= i < k ==> !At(t, p, i))
      && ReplaceAll(t, p, q) == t[..k] + q + ReplaceAll(t[k + |p|..], p, q)
  }

  lemma {:induction false} FirstReplaced(t: string, p: string, q: string) returns (k: int)
    requires p != ""
    ensures FirstIs(t, p, q, k)
    decreases |t|
  {
    if t == "" {
      k := -1;
    } else if At(t, p, 0) {
      k := 0;
      ReplacedAtFront(t, p, q);
    } else {
      hide FirstIs, At, ReplaceAll;
      k := FirstReplaced(t[1..], p, q);
      FirstOfTail(t, p, q, k);
      k := if k < 0 then k else k + 1;
    }
  }

  lemma FirstOfTail(t: string, p: string, q: string, k: int)
    requires p != "" && t != "" && !At(t, p, 0) && FirstIs(t[1..], p, q, k)
    ensures FirstIs(t, p, q, if k < 0 then k else k + 1)
  {
    hide At, ReplaceAll, Contains;
    forall i | i >= 1 ensures At(t, p, i) == At(t[1..], p, i - 1) {
      AtTail(t, p, i);
    }
    if k >= 0 {
      InText(t[1..], p, k);
      OneEarlier(t, p, q, k);
      assert forall i :: 1 <= i < k + 1 ==> !At(t, p, i);
    } else {
      NothingReplaced(t, p, q);
      NotBefore(t, p);
    }
  }

  lemma InText(t: string, p: string, k: int)
    requires At(t, p, k)
    ensures 0 <= k && k + |p| <= |t|
  {
  }

  lemma NothingReplaced(t: string, p: string, q: string)
    requires p != "" && t != "" && !At(t, p, 0) && ReplaceAll(t[1..], p, q) == t[1..]
    ensures ReplaceAll(t, p, q) == t
  {
    hide At;
  }

  lemma NotBefore(t: string, p: string)
    requires t != "" && !At(t, p, 0) && !Contains(t[1..], p)
    requires forall i :: i >= 1 ==> At(t, p, i) == At(t[1..], p, i - 1)
    ensures !Contains(t, p)
  {
  }

  /** Replacing a pattern by something else changes exactly the texts that contain it. */
  lemma ReplaceChanges(t: string, p: string, q: string)
    requires p != "" && p != q
    ensures ReplaceAll(t, p, q) != t <==> Contains(t, p)
  {
    var k := FirstReplaced(t, p, q);
    if k >= 0 {
      if |p| == |q| {
        var r := ReplaceAll(t, p, q);
        var j :| 0 <= j < |p| && p[j] != q[j];
        assert r[k + j] == q[j] && t[k + j] == p[j];
      } else {
        ReplacedLength(t[k + |p|..], p, q);
      }
    }
  }

  lemma {:induction false} ReplacedLength(t: string, p: string, q: string)
    requires p != ""
    ensures |p| <= |q| ==> |ReplaceAll(t, p, q)| >= |t|
    ensures |p| >= |q| ==> |ReplaceAll(t, p, q)| <= |t|
    decreases |t|
  {
    if t != "" {
      if At(t, p, 0) { ReplacedLength(t[|p|..], p, q); } else { ReplacedLength(t[1..], p, q); }
    }
  }

  /** One pattern begins inside another, after its start. */
  predicate Overlaps(a: string, b: string, k: int) {
    1 <= k < |a| && Fits(a, b, k)
  }

  ghost predicate Apart(p: string, q: string) {
    && (exists j :: 0 <= j < |p| && j < |q| && p[j] != q[j])
    && (forall k :: !Overlaps(p, q, k)) && (forall k :: !Overlaps(q, p, k))
  }

  /** When pattern and replacement cannot overlap either way, no occurrence is left. */
  lemma {:induction false} ReplacedIsClean(t: string, p: string, q: string)
    requires p != "" && Apart(p, q)
    ensures !Contains(ReplaceAll(t, p, q), p)
    decreases |t|
  {
    if t == "" {
    } else if At(t, p, 0) {
      var s := ReplaceAll(t[|p|..], p, q);
      ReplacedIsClean(t[|p|..], p, q);
      forall i ensures !At(q + s, p, i) {
        if i >= |q| { AtAfter(q, s, p, i); } else if 0 <= i { NotInside(q, s, p, i); }
      }
    } else {
      var r := ReplaceAll(t, p, q);
      ReplacedIsClean(t[1..], p, q);
      NotAtFront(t, p, q);
      assert r[1..] == ReplaceAll(t[1..], p, q);
      forall i ensures !At(r, p, i) {
        if i >= 1 { AtTail(r, p, i); }
      }
    }
  }

  lemma AtAfter(q: string, s: string, p: string, i: int)
    requires i >= |q|
    ensures At(q + s, p, i) ==> At(s, p, i - |q|)
  {
    if At(q + s, p, i) {
      forall j | 0 <= j < |p| ensures s[i - |q| + j] == p[j] {
        assert (q + s)[i + j] == p[j];
      }
    }
  }

  lemma InsideFits(q: string, s: string, p: string, i: int)
    requires 0 <= i < |q| && At(q + s, p, i)
    ensures if i == 0 then Fits(q, p, 0) else Overlaps(q, p, i)
  {
    forall j | 0 <= j < |p| && i + j < |q| ensures q[i + j] == p[j] {
      assert (q + s)[i + j] == p[j];
    }
  }

  lemma NotInside(q: string, s: string, p: string, i: int)
    requires 0 <= i < |q| && Apart(p, q)
    ensures !At(q + s, p, i)
  {
    if At(q + s, p, i) {
      InsideFits(q, s, p, i);
    }
  }

  /** An occurrence at the front that was not there overlaps the first replacement. */
  lemma FrontOverlaps(t: string, p: string, q: string) returns (k: int)
    requires p != "" && !At(t, p, 0) && At(ReplaceAll(t, p, q), p, 0)
    ensures Overlaps(p, q, k)
  {
    var r := ReplaceAll(t, p, q);
    k := FirstReplaced(t, p, q);
    assert k >= 0;
    assert forall j :: 0 <= j < k ==> t[j] == r[j];
    assert 1 <= k < |p|;
    assert forall j :: 0 <= j < |q| && k + j < |p| ==> p[k + j] == r[k + j] == q[j];
  }

  lemma NotAtFront(t: string, p: string, q: string)
    requires p != "" && Apart(p, q) && !At(t, p, 0)
    ensures !At(ReplaceAll(t, p, q), p, 0)
  {
    if At(ReplaceAll(t, p, q), p, 0) {
      var k := FrontOverlaps(t, p, q);
    }
  }

  // ---------- Namespace suffixes ----------

  const ZONE := ".svc.cluster.local"

  /** ".<namespace>.svc.cluster.local". */
  function Suffix(namespace: string): (s: string)
    ensures |s| == |namespace| + 19
  {
    "." + namespace + ZONE
  }

  predicate StartsLocal(namespace: string) {
    |namespace| >= 5 && namespace[..5] == "local"
  }

  predicate NoDot(s: string) {
    forall i :: 0 <= i < |s| ==> s[i] != '.'
  }

  lemma SuffixLetters(n: string, i: nat)
    requires i < |n| + 19
    ensures Suffix(n)[i] == if i == 0 then '.' else if i <= |n| then n[i - 1] else ZONE[i - |n| - 1]
  {
  }

  /** Where a suffix has dots. */
  lemma SuffixDots(n: string, i: nat)
    requires NoDot(n) && i < |n| + 19
    ensures Suffix(n)[i] == '.' <==> i in {0, |n| + 1, |n| + 5, |n| + 13}
  {
    SuffixLetters(n, i);
  }

  /** A suffix that fits where a text has one dotted word is the suffix of that word, and `svc` follows. */
  lemma FirstWord(t: string, n: string, i: nat, m: nat)
    requires NoDot(n) && Fits(t, Suffix(n), i) && i + m + 2 < |t| && t[i + m + 1] == '.'
    requires forall j :: i < j <= i + m ==> t[j] != '.'
    ensures |n| == m && t[i + m + 2] == 's'
  {
    var l := if |n| < m then |n| + 1 else m + 1;
    SuffixLetters(n, l);
    SuffixLetters(n, l + 1);
    assert t[i + l] == Suffix(n)[l] && t[i + (l + 1)] == Suffix(n)[l + 1];
  }

  predicate LocalAt(t: string, i: nat) {
    i + 5 <= |t| && t[i] == 'l' && t[i + 1] == 'o' && t[i + 2] == 'c' && t[i + 3] == 'a' && t[i + 4] == 'l'
  }

  /** A suffix that fits where a text goes on with `.local` belongs to a namespace that starts so. */
  lemma LocalWord(t: string, n: string, i: nat)
    requires NoDot(n) && Fits(t, Suffix(n), i) && LocalAt(t, i + 1)
    ensures StartsLocal(n)
  {
    var l := if |n| < 5 then |n| + 1 else 5;
    SuffixLetters(n, l);
    assert t[i + l] == Suffix(n)[l];
    SuffixLetters(n, 1);
    SuffixLetters(n, 2);
    SuffixLetters(n, 3);
    SuffixLetters(n, 4);
    SuffixLetters(n, 5);
    assert n[..5] == "local";
  }

  /** The letters that follow the namespace in its suffix. */
  lemma ZoneLetters(n: string)
    ensures var s, m := Suffix(n), |n| + 1;
      && s[m] == '.' && s[m + 1] == 's' && s[m + 2] == 'v' && s[m + 3] == 'c' && s[m + 4] == '.' && s[m + 5] == 'c'
      && (forall j :: m + 4 < j < m + 12 ==> s[j] != '.') && s[m + 12] == '.' && LocalAt(s, m + 13)
  {
    var m := |n| + 1;
    forall j: nat | j < 18 ensures Suffix(n)[m + j] == ZONE[j] { SuffixLetters(n, m + j); }
    assert Suffix(n)[m + 0] == '.' && Suffix(n)[m + 5] == 'c';
    forall j | m + 4 < j < m + 12 ensures Suffix(n)[j] != '.' {
      assert Suffix(n)[m + (j - m)] == ZONE[j - m];
    }
  }

  lemma OverlapIsLocal(a: string, b: string, k: int)
    requires NoDot(a) && NoDot(b) && Overlaps(Suffix(a), Suffix(b), k)
    ensures StartsLocal(b)
  {
    SuffixLetters(b, 0);
    assert Suffix(a)[k + 0] == Suffix(b)[0];
    SuffixDots(a, k);
    ZoneLetters(a);
    hide Suffix, StartsLocal, LocalAt;
    if k == |a| + 1 {
      FirstWord(Suffix(a), b, k, 3);
    } else if k == |a| + 5 {
      FirstWord(Suffix(a), b, k, 7);
    } else {
      LocalWord(Suffix(a), b, k);
    }
  }

  lemma SuffixesDiffer(a: string, b: string)
    requires NoDot(a) && NoDot(b) && a != b
    ensures exists j :: 0 <= j < |Suffix(a)| && j < |Suffix(b)| && Suffix(a)[j] != Suffix(b)[j]
  {
    var j := if |a| < |b| then |a| + 1 else if |b| < |a| then |b| + 1
             else (var i :| 0 <= i < |a| && a[i] != b[i]; i + 1);
    SuffixLetters(a, j);
    SuffixLetters(b, j);
    assert Suffix(a)[j] != Suffix(b)[j];
  }

  /** Unless one of the namespaces starts with `local`, their suffixes are apart. */
  lemma SuffixesAreApart(source: string, target: string)
    requires NoDot(source) && NoDot(target) && source != target && !StartsLocal(source) && !StartsLocal(target)
    ensures Apart(Suffix(source), Suffix(target))
  {
    SuffixesDiffer(source, target);
    forall k ensures !Overlaps(Suffix(source), Suffix(target), k) && !Overlaps(Suffix(target), Suffix(source), k) {
      if Overlaps(Suffix(source), Suffix(target), k) { OverlapIsLocal(source, target, k); }
      if Overlaps(Suffix(target), Suffix(source), k) { OverlapIsLocal(target, source, k); }
    }
  }

  // ---------- The texts that are not cleaned ----------

  /** For a source that starts with `local`: two overlapping suffixes, of which one survives. */
  function OverlappingText(source: string): string
    requires StartsLocal(source)
  {
    Suffix(source) + (source[5..] + ZONE)
  }

  lemma OverlapSurvives(source: string, target: string)
    requires StartsLocal(source)
    ensures Contains(OverlappingText(source), Suffix(source))
    ensures Contains(ReplaceAll(OverlappingText(source), Suffix(source), Suffix(target)), Suffix(source))
  {
    var p, q := Suffix(source), Suffix(target);
    var rest := source[5..] + ZONE;
    var t := p + rest;
    assert At(t, p, 0) && t[|p|..] == rest;
    TooShort(rest, p, q);
    assert ReplaceAll(t, p, q) == q + rest;
    LocalSplits(source);
    assert q + rest == ("." + target + ".svc.cluster") + p by { assert q == ("." + target + ".svc.cluster") + ".local"; }
    assert At(q + rest, p, |"." + target + ".svc.cluster"|);
  }

  lemma {:induction false} TooShort(t: string, p: string, q: string)
    requires |t| < |p|
    ensures ReplaceAll(t, p, q) == t
    decreases |t|
  {
    if t != "" { TooShort(t[1..], p, q); }
  }

  /** The suffix of a namespace that starts with `local` starts with the last label of every suffix. */
  lemma LocalSplits(namespace: string)
    requires StartsLocal(namespace)
    ensures Suffix(namespace) == ".local" + (namespace[5..] + ZONE)
  {
    assert namespace == "local" + namespace[5..];
  }

  /** For a target that starts with `local`: the replacement completes a suffix that was not there. */
  function Unfinished(source: string): string {
    "." + source + ".svc.cluster"
  }

  lemma CompletionAppears(source: string, target: string)
    requires StartsLocal(target) && !StartsLocal(source) && NoDot(source)
    ensures Contains(Unfinished(source) + Suffix(source), Suffix(source))
    ensures Contains(ReplaceAll(Unfinished(source) + Suffix(source), Suffix(source), Suffix(target)), Suffix(source))
  {
    var p, q, head := Suffix(source), Suffix(target), Unfinished(source);
    var t := head + p;
    assert At(t, p, |head|);
    assert p == head + ".local";
    var k := FirstReplaced(t, p, q);
    if k < |head| { NoneBefore(source, k); }
    assert k == |head| && t[k + |p|..] == "" && t[..k] == head;
    var r := ReplaceAll(t, p, q);
    assert r == head + q;
    LocalSplits(target);
    assert r == p + (target[5..] + ZONE);
    assert At(r, p, 0);
  }

  lemma NoneBefore(source: string, k: int)
    requires NoDot(source) && !StartsLocal(source) && 0 <= k < |Unfinished(source)|
    ensures !At(Unfinished(source) + Suffix(source), Suffix(source), k)
  {
    var p, n := Suffix(source), |source|;
    var head := Unfinished(source);
    var t := head + p;
    if At(t, p, k) {
      assert forall i :: 0 <= i < n + 13 ==> t[i] == p[i] by { assert p == head + ".local"; }
      assert forall i :: 0 <= i < |p| ==> t[n + 13 + i] == p[i];
      SuffixLetters(source, 0);
      SuffixDots(source, k);
      assert t[k + 0] == p[0];
      ZoneLetters(source);
      hide Suffix, StartsLocal, Unfinished;
      if k == 0 {
        assert LocalAt(t, n + 14);
        LocalWord(t, source, n + 13);
      }
    }
  }

}
