/** The version comparison that offers upgrades (version.go), and what it orders. */
module AppVersions {
  import opened Common
  import opened TransitionVersions

  // ---------- Library functions ----------

  /** unicode.IsSpace. */
  predicate IsSpace(c: char) {
    var n := c as int;
    9 <= n <= 13 || n in {0x20, 0x85, 0xA0, 0x1680, 0x2028, 0x2029, 0x202F, 0x205F, 0x3000} || 0x2000 <= n <= 0x200A
  }

  function TrimSpace(s: string): string {
    if s != "" && IsSpace(s[0]) then TrimSpace(s[1..])
    else if s != "" && IsSpace(s[|s| - 1]) then TrimSpace(s[..|s| - 1])
    else s
  }

  function TrimPrefix(s: string): string {
    if s != "" && s[0] == 'v' then s[1..] else s
  }

  /** strings.Cut: what stands before the first separator, and what after it. */
  function Cut(s: string, sep: char): (string, string) {
    if s == "" then ("", "")
    else if s[0] == sep then ("", s[1..])
    else
      var rest := Cut(s[1..], sep);
      ([s[0]] + rest.0, rest.1)
  }

  /** strconv.Atoi: an optional sign and decimal digits, within a 64-bit int. */
  function Atoi(s: string): Option<int> {
    var signed := s != "" && (s[0] == '-' || s[0] == '+');
    var digits := if signed then s[1..] else s;
    if digits == "" || !AllDigits(digits) then None
    else
      var v: int := Value(digits);
      var n := if s[0] == '-' then -v else v;
      if n > MAX_INT64 || n < -MAX_INT64 - 1 then None else Some(n)
  }

  // ---------- Parsing ----------

  datatype Parsed = Parsed(core: seq<int>, pre: string)

  /** What parseSemVer accepts as a core component. */
  predicate IsComponent(part: string) {
    Atoi(part).Some? && Atoi(part).value >= 0 && (|part| > 1 ==> part[0] != '0')
  }

  function Body(value: string): (string, string) {
    Cut(Cut(TrimPrefix(TrimSpace(value)), '+').0, '-')
  }

  function Parse(value: string): (r: Option<Parsed>)
    ensures r.Some? ==> |r.value.core| == 3
  {
    var (core, pre) := Body(value);
    var parts := Split(core, '.');
    if |parts| == 3 && IsComponent(parts[0]) && IsComponent(parts[1]) && IsComponent(parts[2])
    then Some(Parsed([Atoi(parts[0]).value, Atoi(parts[1]).value, Atoi(parts[2]).value], pre))
    else None
  }

  /** parseSemVer, component by component into an array. */
  method ParseSemVer(value: string) returns (core: array<int>, pre: string, ok: bool)
    ensures core.Length == 3
    ensures ok <==> Parse(value).Some?
    ensures ok ==> Parse(value).value == Parsed(core[..], pre)
  {
    hide Cut, Split, TrimSpace, TrimPrefix, Atoi;
    core := new int[3](_ => 0);
    pre, ok := "", false;
    var text := Cut(TrimPrefix(TrimSpace(value)), '+').0;
    var (base, rest) := Cut(text, '-');
    var parts := Split(base, '.');
    if |parts| != 3 {
      return;
    }
    for k := 0 to |parts|
      invariant forall i :: 0 <= i < k ==> IsComponent(parts[i]) && core[i] == Atoi(parts[i]).value
    {
      var part := parts[k];
      var n := Atoi(part);
      if n.None? || n.value < 0 || part == "" || (|part| > 1 && part[0] == '0') {
        EmptyIsNoNumber();
        return;
      }
      core[k] := n.value;
    }
    assert core[..] == [core[0], core[1], core[2]];
    return core, rest, true;
  }

  lemma EmptyIsNoNumber()
    ensures Atoi("").None?
  {
  }

  // ---------- The order ----------

  /** What a pre-release identifier counts as. */
  datatype Ident = Number(n: int) | Word(s: string)

  function IdentOf(s: string): Ident {
    if Atoi(s).Some? then Number(Atoi(s).value) else Word(s)
  }

  predicate IdentLess(a: Ident, b: Ident) {
    match (a, b)
    case (Number(x), Number(y)) => x < y
    case (Number(_), Word(_)) => true
    case (Word(_), Number(_)) => false
    case (Word(x), Word(y)) => LexLess(x, y)
  }

  predicate IdentsLess(a: seq<Ident>, b: seq<Ident>) {
    b != [] && (a == [] || IdentLess(a[0], b[0]) || (a[0] == b[0] && IdentsLess(a[1..], b[1..])))
  }

  /** A version as the order sees it; a release has no identifiers and stands above all its pre-releases. */
  datatype Key = Key(core: seq<int>, pre: Option<seq<Ident>>)

  function Idents(parts: seq<string>): seq<Ident> {
    seq(|parts|, i requires 0 <= i < |parts| => IdentOf(parts[i]))
  }

  function KeyOf(p: Parsed): Key {
    Key(p.core, if p.pre == "" then None else Some(Idents(Split(p.pre, '.'))))
  }

  predicate CoreLess(a: seq<int>, b: seq<int>)
    requires |a| == |b| == 3
  {
    a[0] < b[0] || (a[0] == b[0] && (a[1] < b[1] || (a[1] == b[1] && a[2] < b[2])))
  }

  predicate KeyLess(a: Key, b: Key)
    requires |a.core| == |b.core| == 3
  {
    CoreLess(a.core, b.core)
    || (a.core == b.core && a.pre.Some? && (b.pre.None? || IdentsLess(a.pre.value, b.pre.value)))
  }

  lemma {:induction false} LexTotal(a: string, b: string)
    ensures LexLess(a, b) || LexLess(b, a) || a == b
    ensures !(LexLess(a, b) && LexLess(b, a)) && (a == b ==> !LexLess(a, b))
  {
    if a != "" && b != "" {
      LexTotal(a[1..], b[1..]);
      assert a == [a[0]] + a[1..] && b == [b[0]] + b[1..];
    }
  }

  lemma {:induction false} LexTransitive(a: string, b: string, c: string)
    requires LexLess(a, b) && LexLess(b, c)
    ensures LexLess(a, c)
  {
    if a != "" && a[0] == b[0] == c[0] { LexTransitive(a[1..], b[1..], c[1..]); }
  }

  lemma IdentTotal(a: Ident, b: Ident)
    ensures IdentLess(a, b) || IdentLess(b, a) || a == b
    ensures !(IdentLess(a, b) && IdentLess(b, a)) && (a == b ==> !IdentLess(a, b))
  {
    if a.Word? && b.Word? { LexTotal(a.s, b.s); }
  }

  lemma IdentTransitive(a: Ident, b: Ident, c: Ident)
    requires IdentLess(a, b) && IdentLess(b, c)
    ensures IdentLess(a, c)
  {
    if a.Word? && b.Word? && c.Word? { LexTransitive(a.s, b.s, c.s); }
  }

  lemma {:induction false} IdentsTotal(a: seq<Ident>, b: seq<Ident>)
    ensures IdentsLess(a, b) || IdentsLess(b, a) || a == b
    ensures !(IdentsLess(a, b) && IdentsLess(b, a)) && (a == b ==> !IdentsLess(a, b))
  {
    if a != [] && b != [] {
      IdentTotal(a[0], b[0]);
      IdentsTotal(a[1..], b[1..]);
      assert a == [a[0]] + a[1..] && b == [b[0]] + b[1..];
    }
  }

  lemma {:induction false} IdentsTransitive(a: seq<Ident>, b: seq<Ident>, c: seq<Ident>)
    requires IdentsLess(a, b) && IdentsLess(b, c)
    ensures IdentsLess(a, c)
  {
    if a != [] {
      if IdentLess(a[0], b[0]) && IdentLess(b[0], c[0]) { IdentTransitive(a[0], b[0], c[0]); }
      if a[0] == b[0] == c[0] && IdentsLess(a[1..], b[1..]) && IdentsLess(b[1..], c[1..]) {
        IdentsTransitive(a[1..], b[1..], c[1..]);
      }
    }
  }

  // ---------- The comparison ----------

  /** comparePreRelease on pre-releases that are not empty. */
  method ComparePreRelease(a: string, b: string) returns (order: int)
    ensures order < 0 <==> IdentsLess(Idents(Split(a, '.')), Idents(Split(b, '.')))
    ensures order > 0 <==> IdentsLess(Idents(Split(b, '.')), Idents(Split(a, '.')))
  {
    hide Split, Atoi;
    var x, y := Split(a, '.'), Split(b, '.');
    ghost var ix, iy := Idents(x), Idents(y);
    for k := 0 to if |x| < |y| then |x| else |y|
      invariant IdentsLess(ix, iy) == IdentsLess(ix[k..], iy[k..]) && IdentsLess(iy, ix) == IdentsLess(iy[k..], ix[k..])
    {
      var an, bn := Atoi(x[k]), Atoi(y[k]);
      assert ix[k..][0] == IdentOf(x[k]) && iy[k..][0] == IdentOf(y[k]);
      assert ix[k..][1..] == ix[k + 1..] && iy[k..][1..] == iy[k + 1..];
      IdentTotal(IdentOf(x[k]), IdentOf(y[k]));
      if an.Some? && bn.Some? && an.value != bn.value {
        return if an.value > bn.value then 1 else -1;
      } else if an.Some? && bn.None? {
        return -1;
      } else if an.None? && bn.Some? {
        return 1;
      } else if an.None? && x[k] != y[k] {
        return if LexLess(x[k], y[k]) then -1 else 1;
      }
    }
    return |x| - |y|;
  }

  /**
   * VersionNewer. The comparison is by keys, and keys are totally ordered, so
   * this is a strict weak order on the strings that parse.
   */
  method VersionNewer(target: string, installed: string) returns (newer: bool)
    ensures newer <==> Newer(target, installed)
  {
    hide Parse, IdentsLess, Idents;
    var t, tPre, tOk := ParseSemVer(target);
    if !tOk {
      return false;
    }
    var i, iPre, iOk := ParseSemVer(installed);
    if !iOk {
      return false;
    }
    for k := 0 to 3
      invariant t[..k] == i[..k]
    {
      if t[k] != i[k] {
        assert forall j :: 0 <= j < k ==> t[..k][j] == i[..k][j];
        return t[k] > i[k];
      }
    }
    assert t[..] == i[..];
    if tPre == iPre {
      IdentsTotal(Idents(Split(tPre, '.')), Idents(Split(tPre, '.')));
      return false;
    }
    if tPre == "" {
      return true;
    }
    if iPre == "" {
      return false;
    }
    var order := ComparePreRelease(tPre, iPre);
    return order > 0;
  }

  predicate Newer(target: string, installed: string) {
    Parse(target).Some? && Parse(installed).Some? && KeyLess(KeyOf(Parse(installed).value), KeyOf(Parse(target).value))
  }

  lemma KeyTotal(a: Key, b: Key)
    requires |a.core| == |b.core| == 3
    ensures KeyLess(a, b) || KeyLess(b, a) || a == b
    ensures !(KeyLess(a, b) && KeyLess(b, a)) && (a == b ==> !KeyLess(a, b))
  {
    if a.core[0] == b.core[0] && a.core[1] == b.core[1] && a.core[2] == b.core[2] {
      assert a.core == b.core;
    }
    if a.pre.Some? && b.pre.Some? { IdentsTotal(a.pre.value, b.pre.value); }
  }

  lemma KeyTransitive(a: Key, b: Key, c: Key)
    requires |a.core| == |b.core| == |c.core| == 3 && KeyLess(a, b) && KeyLess(b, c)
    ensures KeyLess(a, c)
  {
    if a.core == b.core == c.core && a.pre.Some? && b.pre.Some? && c.pre.Some? {
      IdentsTransitive(a.pre.value, b.pre.value, c.pre.value);
    }
  }

  /** Two strings that parse, neither of them newer: they have one key. */
  predicate Tied(a: string, b: string) {
    Parse(a).Some? && Parse(b).Some? && !Newer(a, b) && !Newer(b, a)
  }

  /** A strict weak order: no version is newer than itself, newness chains, and so does being tied. */
  lemma NewerIsStrictWeakOrder(a: string, b: string, c: string)
    ensures !Newer(a, a) && !(Newer(a, b) && Newer(b, a))
    ensures Newer(a, b) && Newer(b, c) ==> Newer(a, c)
    ensures Tied(a, b) && Tied(b, c) ==> Tied(a, c)
  {
    hide Parse, KeyLess, KeyOf;
    var p, q, r := Parse(a), Parse(b), Parse(c);
    if p.Some? { ParsedCore(a); KeyTotal(KeyOf(p.value), KeyOf(p.value)); }
    if p.Some? && q.Some? { ParsedCore(a); ParsedCore(b); KeyTotal(KeyOf(p.value), KeyOf(q.value)); }
    if q.Some? && r.Some? { ParsedCore(b); ParsedCore(c); KeyTotal(KeyOf(q.value), KeyOf(r.value)); }
    if Newer(a, b) && Newer(b, c) {
      ParsedCore(a);
      ParsedCore(b);
      ParsedCore(c);
      KeyTransitive(KeyOf(r.value), KeyOf(q.value), KeyOf(p.value));
    }
  }

  lemma ParsedCore(a: string)
    requires Parse(a).Some?
    ensures |KeyOf(Parse(a).value).core| == 3
  {
    hide Split, Idents;
  }

  // ---------- Semantic Versioning 2.0.0, section 11 ----------

  /** Rules 11.4.1 to 11.4.3: numeric identifiers by value, others in ASCII order, numeric ones lower. */
  predicate IdentifierPrecedes(a: string, b: string) {
    if AllDigits(a) && AllDigits(b) then Value(a) < Value(b)
    else if AllDigits(a) != AllDigits(b) then AllDigits(a)
    else LexLess(a, b)
  }

  /** Rules 11.4 and 11.4.4: left to right until a difference, and then the longer list. */
  predicate PreReleasePrecedes(a: seq<string>, b: seq<string>) {
    b != [] && (a == [] || IdentifierPrecedes(a[0], b[0]) || (a[0] == b[0] && PreReleasePrecedes(a[1..], b[1..])))
  }

  /** Rules 11.2 and 11.3: the three numbers, and a pre-release below its release. */
  predicate Precedes(a: Parsed, b: Parsed)
    requires |a.core| == |b.core| == 3
  {
    CoreLess(a.core, b.core)
    || (a.core == b.core && a.pre != ""
        && (b.pre == "" || PreReleasePrecedes(Split(a.pre, '.'), Split(b.pre, '.'))))
  }

  /** A number without leading zeros that fits an int, or no number at all, with or without a sign. */
  predicate IsPlain(s: string) {
    if AllDigits(s) then IsCanonicalNumber(s) && Value(s) <= MAX_INT64 else Atoi(s).None?
  }

  predicate IsPlainPreRelease(pre: string) {
    forall s :: s in Split(pre, '.') ==> IsPlain(s)
  }

  lemma PlainIdent(s: string)
    requires IsPlain(s)
    ensures IdentOf(s) == if AllDigits(s) then Number(Value(s)) else Word(s)
  {
    if AllDigits(s) {
      assert IsDigit(s[0]);
    }
  }

  lemma PlainIdentOrder(a: string, b: string)
    requires IsPlain(a) && IsPlain(b)
    ensures IdentLess(IdentOf(a), IdentOf(b)) <==> IdentifierPrecedes(a, b)
    ensures IdentOf(a) == IdentOf(b) <==> a == b
  {
    PlainIdent(a);
    PlainIdent(b);
    if AllDigits(a) && AllDigits(b) && Value(a) == Value(b) { CanonicalIsUnique(a, b); }
  }

  lemma {:induction false} PlainPreReleaseOrder(a: seq<string>, b: seq<string>)
    requires (forall s :: s in a ==> IsPlain(s)) && (forall s :: s in b ==> IsPlain(s))
    ensures IdentsLess(Idents(a), Idents(b)) <==> PreReleasePrecedes(a, b)
    decreases |a|
  {
    hide IsPlain, IdentOf, IdentLess, IdentifierPrecedes;
    if a != [] && b != [] {
      assert a[0] in a && b[0] in b;
      PlainIdentOrder(a[0], b[0]);
      forall s | s in a[1..] ensures IsPlain(s) { assert s in a; }
      forall s | s in b[1..] ensures IsPlain(s) { assert s in b; }
      PlainPreReleaseOrder(a[1..], b[1..]);
      assert Idents(a)[1..] == Idents(a[1..]) && Idents(b)[1..] == Idents(b[1..]);
    }
  }

  /** On versions whose pre-release identifiers are plain, newer means higher precedence. */
  lemma NewerFollowsPrecedence(target: string, installed: string)
    requires Parse(target).Some? && Parse(installed).Some?
    requires IsPlainPreRelease(Parse(target).value.pre) && IsPlainPreRelease(Parse(installed).value.pre)
    ensures Newer(target, installed) <==> Precedes(Parse(installed).value, Parse(target).value)
  {
    hide Parse, Split, IdentsLess, PreReleasePrecedes, IsPlain;
    var t, i := Parse(target).value, Parse(installed).value;
    PlainPreReleaseOrder(Split(i.pre, '.'), Split(t.pre, '.'));
  }

  // ---------- Which identifiers follow the standard ----------

  /** Both orders compare the two identifiers alike, and take them for one only when they are. */
  predicate ComparedAlike(a: string, b: string) {
    && (IdentLess(IdentOf(a), IdentOf(b)) <==> IdentifierPrecedes(a, b))
    && (IdentLess(IdentOf(b), IdentOf(a)) <==> IdentifierPrecedes(b, a))
    && (IdentOf(a) == IdentOf(b) <==> a == b)
  }

  /** A digit string without its leading zeros. */
  function Stripped(s: string): string {
    if |s| > 1 && s[0] == '0' then Stripped(s[1..]) else s
  }

  lemma {:induction false} StrippedIsCanonical(s: string)
    requires s != "" && AllDigits(s)
    ensures AllDigits(Stripped(s)) && IsCanonicalNumber(Stripped(s)) && Value(Stripped(s)) == Value(s)
  {
    if |s| > 1 && s[0] == '0' {
      ValueSplitsFront(s);
      StrippedIsCanonical(s[1..]);
    }
  }

  lemma ZeroIsPlain()
    ensures AllDigits("0") && Value("0") == 0 && IsPlain("0")
  {
    assert "0"[..0] == "";
  }

  lemma HyphenIsPlain()
    ensures IsPlain("-") && !AllDigits("-") && IdentOf("-") == Word("-")
  {
    assert !IsDigit("-"[0]);
    assert "-"[1..] == "";
  }

  /** The digits of a signed number. */
  lemma SignedDigits(s: string)
    requires !AllDigits(s) && Atoi(s).Some?
    ensures s != "" && (s[0] == '-' || s[0] == '+') && s[1..] != "" && AllDigits(s[1..])
    ensures Atoi(s).value == if s[0] == '-' then 0 - Value(s[1..]) else Value(s[1..])
  {
    hide Value;
  }

  /** An identifier that the two orders compare differently. */
  function Partner(s: string): string {
    if s == "" then "0"
    else if AllDigits(s) then if Value(s) > MAX_INT64 then "-" else Stripped(s)
    else if Atoi(s).Some? && Atoi(s).value >= 0 && |s| > 1 then Stripped(s[1..])
    else "0"
  }

  lemma PartnerOfDigits(s: string)
    requires AllDigits(s) && !IsPlain(s)
    ensures IsPlain(Partner(s)) && !ComparedAlike(s, Partner(s))
  {
    ZeroIsPlain();
    if s != "" {
      assert IsDigit(s[0]);
      if Value(s) > MAX_INT64 {
        HyphenIsPlain();
        assert IdentOf(s) == Word(s);
      } else {
        StrippedIsCanonical(s);
        hide Value, Stripped;
        PlainIdent(Stripped(s));
        assert IdentOf(s) == Number(Value(s));
      }
    }
  }

  lemma PartnerOfSigned(s: string)
    requires !AllDigits(s) && !IsPlain(s)
    ensures IsPlain(Partner(s)) && !ComparedAlike(s, Partner(s))
  {
    ZeroIsPlain();
    SignedDigits(s);
    hide Value;
    var n := Atoi(s).value;
    if n >= 0 {
      StrippedIsCanonical(s[1..]);
      hide Stripped;
      assert AllDigits(Partner(s));
      assert Value(Partner(s)) >= n;
    }
    PlainIdent(Partner(s));
    assert IdentifierPrecedes(Partner(s), s);
  }

  /**
   * An identifier is compared as the standard says, with every plain identifier,
   * exactly when it is plain itself: not empty, no leading zeros, within an int
   * when it is a number, and not a number with a sign.
   */
  lemma ComparedAlikeExactlyWhenPlain(s: string)
    ensures IsPlain(s) <==> forall t | IsPlain(t) :: ComparedAlike(s, t)
  {
    hide IsPlain, ComparedAlike, Partner;
    if IsPlain(s) {
      forall t | IsPlain(t) ensures ComparedAlike(s, t) {
        PlainIdentOrder(s, t);
        PlainIdentOrder(t, s);
        AlikeFromOrders(s, t);
      }
    } else if AllDigits(s) {
      PartnerOfDigits(s);
    } else {
      PartnerOfSigned(s);
    }
  }

  lemma AlikeFromOrders(s: string, t: string)
    requires IdentLess(IdentOf(s), IdentOf(t)) <==> IdentifierPrecedes(s, t)
    requires IdentLess(IdentOf(t), IdentOf(s)) <==> IdentifierPrecedes(t, s)
    requires IdentOf(s) == IdentOf(t) <==> s == t
    ensures ComparedAlike(s, t)
  {
  }

  // ---------- The same on version strings ----------

  predicate IsIdentChar(c: char) {
    IsDigit(c) || 'a' <= c <= 'z' || 'A' <= c <= 'Z' || c == '-'
  }

  /** Section 9: a valid pre-release identifier. */
  predicate IsIdentifier(s: string) {
    s != "" && (forall i :: 0 <= i < |s| ==> IsIdentChar(s[i])) && (AllDigits(s) ==> IsCanonicalNumber(s))
  }

  /** The pre-release of 1.0.0 with this one identifier. */
  function Release(s: string): string {
    "1.0.0-" + s
  }

  lemma {:induction false} CutAt(a: string, b: string, sep: char)
    requires sep !in a
    ensures Cut(a + [sep] + b, sep) == (a, b)
  {
    var s := a + [sep] + b;
    if a == "" {
      assert s[1..] == b;
    } else {
      assert s[1..] == a[1..] + [sep] + b;
      CutAt(a[1..], b, sep);
      assert a == [a[0]] + a[1..];
    }
  }

  lemma BaseParts()
    ensures Split("1.0.0", '.') == ["1", "0", "0"] && Atoi("1") == Some(1) && Atoi("0") == Some(0)
  {
    SplitWhole("0", '.');
    SplitStep('0', "0");
    SplitStep('1', "0.0");
    assert "1"[..0] == "" && "0"[..0] == "";
    assert Value("1") == 1 && Value("0") == 0;
  }

  lemma ReleaseIsTrimmed(s: string)
    requires IsIdentifier(s)
    ensures TrimPrefix(TrimSpace(Release(s))) == Release(s) && '+' !in Release(s)
  {
    var v := Release(s);
    assert v[0] == '1' && v[|v| - 1] == s[|s| - 1] && IsIdentChar(s[|s| - 1]);
    assert '+' !in s;
    assert '+' !in "1.0.0-";
  }

  lemma ReleaseParts(s: string)
    requires IsIdentifier(s)
    ensures Body(Release(s)) == ("1.0.0", s) && Split(s, '.') == [s]
  {
    ReleaseIsTrimmed(s);
    assert '.' !in s && '-' !in "1.0.0";
    SplitWhole(s, '.');
    hide Cut, Split, TrimSpace, TrimPrefix, IsIdentifier;
    CutMisses(Release(s), '+');
    assert Release(s) == "1.0.0" + ['-'] + s;
    CutAt("1.0.0", s, '-');
  }

  lemma ReleaseParses(s: string)
    requires IsIdentifier(s)
    ensures Parse(Release(s)) == Some(Parsed([1, 0, 0], s)) && Split(s, '.') == [s]
  {
    ReleaseParts(s);
    BaseParts();
    hide Body, Split, Atoi, Release, IsIdentifier;
  }

  lemma OneIdentifier(s: string, t: string)
    ensures IdentsLess(Idents([t]), Idents([s])) <==> IdentLess(IdentOf(t), IdentOf(s))
    ensures PreReleasePrecedes([t], [s]) <==> IdentifierPrecedes(t, s)
  {
    hide IdentOf, IdentLess, IdentifierPrecedes;
    assert [s][1..] == [] && [t][1..] == [];
    assert Idents([s]) == [IdentOf(s)] && Idents([t]) == [IdentOf(t)];
    assert Idents([s])[1..] == [] && Idents([t])[1..] == [];
  }

  /** On two releases of one identifier each, both orders are those of the identifiers. */
  lemma ReleasesCompare(s: string, t: string)
    requires IsIdentifier(s) && IsIdentifier(t)
    ensures Parse(Release(s)).Some? && Parse(Release(t)).Some?
    ensures Newer(Release(s), Release(t)) <==> IdentLess(IdentOf(t), IdentOf(s))
    ensures Precedes(Parse(Release(t)).value, Parse(Release(s)).value) <==> IdentifierPrecedes(t, s)
  {
    ReleaseParses(s);
    ReleaseParses(t);
    OneIdentifier(s, t);
    assert s != "" && t != "";
    hide Parse, Split, Idents, IdentOf, IdentLess, IdentsLess, PreReleasePrecedes, IdentifierPrecedes, Release, IsIdentifier;
  }

  /** VersionNewer orders these two releases as section 11 does, both ways. */
  ghost predicate OrderedAlike(s: string, t: string) {
    var a, b := Parse(Release(s)), Parse(Release(t));
    && a.Some? && b.Some?
    && (Newer(Release(s), Release(t)) <==> Precedes(b.value, a.value))
    && (Newer(Release(t), Release(s)) <==> Precedes(a.value, b.value))
  }

  lemma PartnerIsIdentifier(s: string)
    requires IsIdentifier(s) && !IsPlain(s)
    ensures IsIdentifier(Partner(s))
  {
    ZeroIsPlain();
    if !AllDigits(s) {
      SignedDigits(s);
      StrippedIsCanonical(s[1..]);
    }
  }

  /** The partner of a valid identifier is not only told apart, it is ordered the wrong way. */
  lemma PartnerIsMisordered(s: string)
    requires IsIdentifier(s) && !IsPlain(s)
    ensures !(IdentLess(IdentOf(s), IdentOf(Partner(s))) <==> IdentifierPrecedes(s, Partner(s)))
            || !(IdentLess(IdentOf(Partner(s)), IdentOf(s)) <==> IdentifierPrecedes(Partner(s), s))
  {
    ZeroIsPlain();
    if AllDigits(s) {
      HyphenIsPlain();
      assert IsDigit(s[0]);
    } else {
      SignedDigits(s);
      StrippedIsCanonical(s[1..]);
      PartnerOfSigned(s);
      hide Value, Stripped;
      PlainIdent(Partner(s));
    }
  }

  /**
   * On releases with one valid identifier VersionNewer follows section 11 against
   * every plain identifier exactly when the identifier is plain. The valid
   * identifiers that are not are numbers beyond an int, and numbers after a hyphen.
   */
  lemma VersionsAlikeExactlyWhenPlain(s: string)
    requires IsIdentifier(s)
    ensures IsPlain(s) <==> forall t | IsIdentifier(t) && IsPlain(t) :: OrderedAlike(s, t)
  {
    hide IsPlain, IsIdentifier, Parse, Newer, Precedes, IdentLess, IdentOf, IdentifierPrecedes, Partner, Release;
    if IsPlain(s) {
      forall t | IsIdentifier(t) && IsPlain(t) ensures OrderedAlike(s, t) {
        ReleasesCompare(s, t);
        ReleasesCompare(t, s);
        PlainIdentOrder(s, t);
        PlainIdentOrder(t, s);
      }
    } else {
      var t := Partner(s);
      PartnerIsIdentifier(s);
      PartnerIsMisordered(s);
      ReleasesCompare(s, t);
      ReleasesCompare(t, s);
      if AllDigits(s) { PartnerOfDigits(s); } else { PartnerOfSigned(s); }
      assert !OrderedAlike(s, t);
    }
  }

  /** 1.0.0-4 is newer than 1.0.0--5 here, and precedes it by the standard. */
  lemma SignedIdentifierDiffers()
    ensures Parse(Release("4")).Some? && Parse(Release("-5")).Some?
    ensures Newer(Release("4"), Release("-5")) && Precedes(Parse(Release("4")).value, Parse(Release("-5")).value)
  {
    assert "4"[..0] == "" && "5"[..0] == "";
    assert Value("4") == 4 && Value("5") == 5;
    assert "-5"[1..] == "5" && !IsDigit("-5"[0]);
    assert Atoi("-5") == Some(-5) && Atoi("4") == Some(4);
    assert AllDigits("4") && !AllDigits("-5");
    assert IsIdentifier("4") && IsIdentifier("-5");
    ReleasesCompare("4", "-5");
    ReleasesCompare("-5", "4");
  }

  function Repeated(c: char, n: nat): string {
    seq(n, _ => c)
  }

  lemma TenToThe19()
    ensures Pow10(19) == 10_000_000_000_000_000_000
  {
    assert Pow10(2) == 100;
    assert Pow10(4) == 10000;
    assert Pow10(6) == 1000000;
    assert Pow10(8) == 100000000;
    assert Pow10(10) == 10000000000;
    assert Pow10(12) == 1000000000000;
    assert Pow10(14) == 100000000000000;
    assert Pow10(16) == 10000000000000000;
    assert Pow10(18) == 1000000000000000000;
  }

  /** Beyond an int numbers are compared as words: twenty nines are newer here than a one and twenty zeros. */
  lemma LargeNumberDiffers()
    ensures var a, b := Release(Repeated('9', 20)), Release("1" + Repeated('0', 20));
      && Parse(a).Some? && Parse(b).Some?
      && Newer(a, b) && Precedes(Parse(a).value, Parse(b).value)
  {
    var a, b := Repeated('9', 20), "1" + Repeated('0', 20);
    assert a[0] == '9' && b[0] == '1';
    ValueBounds(a);
    ValueBounds(b);
    TenToThe19();
    hide Value;
    assert Pow10(20) == 10 * Pow10(19);
    assert IdentOf(a) == Word(a) && IdentOf(b) == Word(b);
    ReleasesCompare(a, b);
    ReleasesCompare(b, a);
  }

  // ---------- Agreement with the transition order ----------

  predicate FitsInt(v: string) {
    forall part :: part in Split(v, '.') ==> AllDigits(part) ==> Value(part) <= MAX_INT64
  }

  lemma {:induction false} CutMisses(s: string, sep: char)
    requires sep !in s
    ensures Cut(s, sep) == (s, "")
  {
    if s != "" {
      CutMisses(s[1..], sep);
      assert s == [s[0]] + s[1..];
    }
  }

  lemma {:induction false} SplitLetters(s: string, sep: char, c: char)
    requires c in s && c != sep
    ensures exists p :: p in Split(s, sep) && c in p
  {
    var rest := Split(s[1..], sep);
    if s[0] == sep {
      SplitLetters(s[1..], sep, c);
      var p :| p in rest && c in p;
      assert p in [""] + rest;
    } else {
      var all := [[s[0]] + rest[0]] + rest[1..];
      if c == s[0] {
        assert all[0] in all && c in all[0];
      } else {
        SplitLetters(s[1..], sep, c);
        var p :| p in rest && c in p;
        var i :| 0 <= i < |rest| && rest[i] == p;
        if i == 0 {
          assert all[0] in all && c in all[0];
        } else {
          assert all[i] == rest[i];
        }
      }
    }
  }

  lemma VersionLetters(v: string, c: char)
    requires IsVersion(v) && c in v
    ensures c == '.' || IsDigit(c)
  {
    hide Split, Value;
    if c != '.' {
      SplitLetters(v, '.', c);
      var p :| p in Split(v, '.') && c in p;
    }
  }

  lemma VersionNotEmpty(v: string)
    requires IsVersion(v)
    ensures v != ""
  {
  }

  /** A canonical version is its own body. */
  lemma VersionBody(v: string)
    requires IsVersion(v)
    ensures Body(v) == (v, "")
  {
    hide IsVersion, Split;
    forall c | c in v ensures c == '.' || IsDigit(c) { VersionLetters(v, c); }
    VersionNotEmpty(v);
    assert v[0] in v && v[|v| - 1] in v;
    assert TrimPrefix(TrimSpace(v)) == v;
    CutMisses(v, '+');
    CutMisses(v, '-');
  }

  lemma ComponentOf(part: string)
    requires IsCanonicalNumber(part) && Value(part) <= MAX_INT64
    ensures IsComponent(part) && Atoi(part) == Some(Value(part))
  {
    assert IsDigit(part[0]);
  }

  lemma VersionParses(v: string)
    requires IsVersion(v) && FitsInt(v)
    ensures Parse(v).Some? && Parse(v).value.pre == ""
    ensures var n := Numbers(Split(v, '.')); Parse(v).value.core == [n[0], n[1], n[2]]
  {
    hide Cut, TrimSpace, Value;
    VersionBody(v);
    var parts := Split(v, '.');
    hide Split, Body;
    ComponentOf(parts[0]);
    ComponentOf(parts[1]);
    ComponentOf(parts[2]);
  }

  /** On canonical versions whose components fit an int, both comparators agree. */
  lemma ComparatorsAgree(a: string, b: string)
    requires IsVersion(a) && IsVersion(b) && FitsInt(a) && FitsInt(b)
    ensures Newer(a, b) <==> VersionOrder(a, b) > 0
  {
    VersionParses(a);
    VersionParses(b);
    hide Parse, Split, FitsInt;
    var x, y := Numbers(Split(a, '.')), Numbers(Split(b, '.'));
    NumbersOrderOf3(x, y);
  }

  lemma NumbersOrderOf3(x: seq<nat>, y: seq<nat>)
    requires |x| == |y| == 3
    ensures NumbersOrder(x, y) > 0 <==> CoreLess([y[0], y[1], y[2]], [x[0], x[1], x[2]])
  {
    NumbersOrderAt(x, y, 0);
    if x[0] == y[0] {
      assert x[..1] == y[..1];
      NumbersOrderAt(x, y, 1);
      if x[1] == y[1] {
        assert x[..2] == y[..2];
        NumbersOrderAt(x, y, 2);
        assert x[2..] == [x[2]] && y[2..] == [y[2]];
      }
    }
  }
}
