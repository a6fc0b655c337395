/** Canonical three-part versions and the digit-length comparison of managed transitions. */
module TransitionVersions {
  import opened Common

  /** strings.Split for a one-character separator. */
  function Split(s: string, sep: char): (parts: seq<string>)
    ensures |parts| >= 1
    ensures forall p, c :: p in parts && c in p ==> c in s && c != sep
  {
    if s == "" then [""]
    else if s[0] == sep then [""] + Split(s[1..], sep)
    else
      var rest := Split(s[1..], sep);
      [[s[0]] + rest[0]] + rest[1..]
  }

  lemma {:induction false} SplitWhole(s: string, sep: char)
    requires sep !in s
    ensures Split(s, sep) == [s]
  {
    if s != "" {
      SplitWhole(s[1..], sep);
      assert s == [s[0]] + s[1..];
    }
  }

  /** A component of one character is split off the front. */
  lemma SplitStep(c: char, rest: string)
    requires c != '.'
    ensures Split([c] + "." + rest, '.') == [[c]] + Split(rest, '.')
  {
    var dotted := "." + rest;
    assert dotted[1..] == rest && ([c] + dotted)[1..] == dotted;
    assert Split(dotted, '.') == [""] + Split(rest, '.');
    var s := [c] + dotted;
    assert s == [c] + "." + rest && s[0] == c && s[1..] == dotted;
    assert Split(s, '.') == [[c] + ""] + Split(rest, '.');
    assert [c] + "" == [c];
  }

  function Join(parts: seq<string>, sep: char): string
    requires |parts| >= 1
  {
    if |parts| == 1 then parts[0] else parts[0] + [sep] + Join(parts[1..], sep)
  }

  predicate IsDigit(c: char) { '0' <= c <= '9' }

  predicate AllDigits(s: string) { forall i :: 0 <= i < |s| ==> IsDigit(s[i]) }

  /** `0` or a digit string without a leading zero. */
  predicate IsCanonicalNumber(s: string) {
    s != "" && AllDigits(s) && (|s| > 1 ==> s[0] != '0')
  }

  /** The expression matched by transitionVersion, with the 64-byte limit. */
  predicate IsVersion(v: string) {
    var parts := Split(v, '.');
    |v| <= 64 && |parts| == 3 && forall i :: 0 <= i < 3 ==> IsCanonicalNumber(parts[i])
  }

  /** The number a digit string denotes, of any length. */
  function Value(s: string): (n: nat)
    requires AllDigits(s)
  {
    if s == "" then 0 else 10 * Value(s[..|s| - 1]) + (s[|s| - 1] as int - '0' as int)
  }

  /** Go's byte order on strings. */
  predicate LexLess(a: string, b: string) {
    b != "" && (a == "" || a[0] < b[0] || (a[0] == b[0] && LexLess(a[1..], b[1..])))
  }

  /** Numeric order of two equally long rows of numbers: the meaning of a version comparison. */
  function NumbersOrder(x: seq<nat>, y: seq<nat>): int
    requires |x| == |y|
  {
    if x == [] then 0
    else if x[0] != y[0] then Sign((x[0] as int) - (y[0] as int))
    else NumbersOrder(x[1..], y[1..])
  }

  function Numbers(parts: seq<string>): (n: seq<nat>)
    requires forall i :: 0 <= i < |parts| ==> AllDigits(parts[i])
    ensures |n| == |parts|
    ensures forall i :: 0 <= i < |parts| ==> n[i] == Value(parts[i])
  {
    seq(|parts|, i requires 0 <= i < |parts| => Value(parts[i]))
  }

  function VersionOrder(a: string, b: string): int
    requires IsVersion(a) && IsVersion(b)
  {
    NumbersOrder(Numbers(Split(a, '.')), Numbers(Split(b, '.')))
  }

  function Pow10(n: nat): (p: nat)
    ensures p > 0
  {
    if n == 0 then 1 else 10 * Pow10(n - 1)
  }

  lemma {:induction false} ValueBounds(s: string)
    requires AllDigits(s)
    ensures Value(s) < Pow10(|s|)
    ensures s != "" && s[0] != '0' ==> Pow10(|s| - 1) <= Value(s)
  {
    if |s| > 1 {
      ValueBounds(s[..|s| - 1]);
    } else if |s| == 1 {
      assert s[..0] == "";
    }
  }

  lemma {:induction false} Pow10Monotone(m: nat, n: nat)
    requires m <= n
    ensures Pow10(m) <= Pow10(n)
  {
    if m < n { Pow10Monotone(m, n - 1); }
  }

  /** Among canonical numbers more digits mean a larger number. */
  lemma ShorterIsSmaller(a: string, b: string)
    requires IsCanonicalNumber(a) && IsCanonicalNumber(b) && |a| < |b|
    ensures Value(a) < Value(b)
  {
    ValueBounds(a);
    ValueBounds(b);
    Pow10Monotone(|a|, |b| - 1);
  }

  lemma Distribute(c: int, p: int, w: int)
    ensures 10 * (c * p + w) == c * (10 * p) + 10 * w
  {
  }

  lemma {:induction false} ValueSplitsFront(s: string)
    requires s != "" && AllDigits(s)
    ensures Value(s) == (s[0] as int - '0' as int) * Pow10(|s| - 1) + Value(s[1..])
  {
    if |s| == 1 {
      assert s[..0] == "" == s[1..];
    } else {
      var init := s[..|s| - 1];
      ValueSplitsFront(init);
      assert init[1..] == s[1..][..|s| - 2];
      Distribute(s[0] as int - '0' as int, Pow10(|s| - 2), Value(init[1..]));
    }
  }

  lemma LeadingDigitDecides(x: int, r: nat, y: int, s: nat, p: nat)
    requires x < y && r < p
    ensures x * p + r < y * p + s
  {
    assert (x + 1) * p <= y * p;
  }

  /** Among digit strings of one length the byte order is the numeric order. */
  lemma {:induction false} LexIsNumeric(a: string, b: string)
    requires AllDigits(a) && AllDigits(b) && |a| == |b|
    ensures LexLess(a, b) <==> Value(a) < Value(b)
    ensures a == b <==> Value(a) == Value(b)
  {
    if a != "" {
      ValueSplitsFront(a);
      ValueSplitsFront(b);
      LexIsNumeric(a[1..], b[1..]);
      ValueBounds(a[1..]);
      ValueBounds(b[1..]);
      var x, y, p := a[0] as int - '0' as int, b[0] as int - '0' as int, Pow10(|a| - 1);
      if x < y {
        LeadingDigitDecides(x, Value(a[1..]), y, Value(b[1..]), p);
      } else if y < x {
        LeadingDigitDecides(y, Value(b[1..]), x, Value(a[1..]), p);
      } else {
        assert a == [a[0]] + a[1..] && b == [b[0]] + b[1..];
      }
    }
  }

  lemma {:induction false} NumbersOrderAt(x: seq<nat>, y: seq<nat>, i: nat)
    requires |x| == |y| && i <= |x| && x[..i] == y[..i]
    ensures NumbersOrder(x, y) == NumbersOrder(x[i..], y[i..])
  {
    if i > 0 {
      assert x[0] == x[..i][0] == y[..i][0] == y[0];
      assert x[1..][..i - 1] == x[..i][1..] && y[1..][..i - 1] == y[..i][1..];
      NumbersOrderAt(x[1..], y[1..], i - 1);
      assert x[1..][i - 1..] == x[i..] && y[1..][i - 1..] == y[i..];
    }
  }

  /**
   * The comparison by digit length and then by bytes. It is the numeric order of
   * the three components, however many digits they have.
   */
  method CompareTransitionVersions(a: string, b: string) returns (order: int)
    requires IsVersion(a) && IsVersion(b)
    ensures order == VersionOrder(a, b)
  {
    var x, y := Split(a, '.'), Split(b, '.');
    for i := 0 to |x|
      invariant x[..i] == y[..i]
      invariant Numbers(x)[..i] == Numbers(y)[..i]
    {
      NumbersOrderAt(Numbers(x), Numbers(y), i);
      if |x[i]| < |y[i]| {
        ShorterIsSmaller(x[i], y[i]);
        return -1;
      }
      if |x[i]| > |y[i]| {
        ShorterIsSmaller(y[i], x[i]);
        return 1;
      }
      LexIsNumeric(x[i], y[i]);
      LexIsNumeric(y[i], x[i]);
      if LexLess(x[i], y[i]) {
        return -1;
      }
      if LexLess(y[i], x[i]) {
        return 1;
      }
    }
    NumbersOrderAt(Numbers(x), Numbers(y), |x|);
    return 0;
  }

  lemma {:induction false} JoinSplits(s: string, sep: char)
    ensures Join(Split(s, sep), sep) == s
  {
    if s != "" {
      JoinSplits(s[1..], sep);
      var rest := Split(s[1..], sep);
      if s[0] == sep {
        assert ([""] + rest)[1..] == rest;
        assert s == [s[0]] + s[1..];
      } else {
        var all := [[s[0]] + rest[0]] + rest[1..];
        assert all[1..] == rest[1..];
        assert s == [s[0]] + s[1..];
        if |rest| > 1 {
          assert Join(rest, sep) == rest[0] + [sep] + Join(rest[1..], sep);
          assert Join(all, sep) == [s[0]] + (rest[0] + [sep] + Join(rest[1..], sep));
        }
      }
    }
  }

  /** The order identifies no two versions: canonical versions compare equal only when they are the same string. */
  lemma EqualOnlyWhenSame(a: string, b: string)
    requires IsVersion(a) && IsVersion(b)
    ensures VersionOrder(a, b) == 0 <==> a == b
  {
    var p, q := Split(a, '.'), Split(b, '.');
    var x, y := Numbers(p), Numbers(q);
    NumbersOrderAt(x, y, 0);
    if x[0] == y[0] {
      assert x[..1] == y[..1];
      NumbersOrderAt(x, y, 1);
      if x[1] == y[1] {
        assert x[..2] == y[..2];
        NumbersOrderAt(x, y, 2);
      }
    }
    if VersionOrder(a, b) == 0 {
      assert x[2..] == [x[2]] && y[2..] == [y[2]];
      forall i | 0 <= i < 3 ensures p[i] == q[i] {
        CanonicalIsUnique(p[i], q[i]);
      }
      assert p == q;
      JoinSplits(a, '.');
      JoinSplits(b, '.');
    }
  }

  /** Canonical numbers of one value are the same string. */
  lemma CanonicalIsUnique(a: string, b: string)
    requires IsCanonicalNumber(a) && IsCanonicalNumber(b) && Value(a) == Value(b)
    ensures a == b
  {
    if |a| < |b| { ShorterIsSmaller(a, b); } else if |b| < |a| { ShorterIsSmaller(b, a); } else { LexIsNumeric(a, b); }
  }
}
