/** The precedence of versions, and the loops that print, parse and compare them. */
module SemverOrder {
  import opened Wrappers
  import opened Strings
  import opened Semver

  function CompareNumbers(a: int, b: int): int {
    if a == b then 0 else if a > b then 1 else -1
  }

  /** Strings by their first difference; a prefix comes first. */
  function CompareText(a: string, b: string): int {
    if a == "" then (if b == "" then 0 else -1)
    else if b == "" then 1
    else if a[0] != b[0] then (if a[0] > b[0] then 1 else -1)
    else CompareText(a[1..], b[1..])
  }

  /** Numbers come before words. */
  function ComparePart(a: PRVersion, b: PRVersion): int {
    match (a, b)
    case (Numeric(m), Word(t)) => -1
    case (Word(s), Numeric(n)) => 1
    case (Numeric(m), Numeric(n)) => CompareNumbers(m, n)
    case (Word(s), Word(t)) => CompareText(s, t)
  }

  /** Lists of parts by their first difference; the longer one is greater. */
  function CompareParts(a: seq<PRVersion>, b: seq<PRVersion>): int {
    if a == [] then (if b == [] then 0 else -1)
    else if b == [] then 1
    else if ComparePart(a[0], b[0]) != 0 then ComparePart(a[0], b[0])
    else CompareParts(a[1..], b[1..])
  }

  /** A release comes after its pre-releases. */
  function ComparePre(a: seq<PRVersion>, b: seq<PRVersion>): int {
    if a == [] && b == [] then 0 else if a == [] then 1 else if b == [] then -1 else CompareParts(a, b)
  }

  function Compare(a: Version, b: Version): int {
    if a.major != b.major then CompareNumbers(a.major, b.major)
    else if a.minor != b.minor then CompareNumbers(a.minor, b.minor)
    else if a.patch != b.patch then CompareNumbers(a.patch, b.patch)
    else ComparePre(a.pre, b.pre)
  }

  // ---------------------------------------------------------------- a total preorder

  lemma {:induction false} TextOrder(a: string, b: string)
    ensures CompareText(a, b) == -CompareText(b, a) && -1 <= CompareText(a, b) <= 1
    ensures CompareText(a, b) == 0 <==> a == b
    decreases |a|
  {
    if a != "" && b != "" && a[0] == b[0] {
      TextOrder(a[1..], b[1..]);
      assert a == [a[0]] + a[1..] && b == [b[0]] + b[1..];
    }
  }

  lemma {:induction false} TextTransitive(a: string, b: string, c: string)
    requires CompareText(a, b) <= 0 && CompareText(b, c) <= 0
    ensures CompareText(a, c) <= 0
    decreases |a|
  {
    if a != "" && b != "" && c != "" && a[0] == b[0] == c[0] { TextTransitive(a[1..], b[1..], c[1..]); }
  }

  lemma PartOrder(a: PRVersion, b: PRVersion)
    ensures ComparePart(a, b) == -ComparePart(b, a) && -1 <= ComparePart(a, b) <= 1
    ensures ComparePart(a, b) == 0 <==> a == b
  {
    if a.Word? && b.Word? { TextOrder(a.s, b.s); }
  }

  lemma PartTransitive(a: PRVersion, b: PRVersion, c: PRVersion)
    requires ComparePart(a, b) <= 0 && ComparePart(b, c) <= 0
    ensures ComparePart(a, c) <= 0 && (ComparePart(a, c) == 0 ==> a == b == c)
  {
    if a.Word? && b.Word? && c.Word? { TextTransitive(a.s, b.s, c.s); }
    PartOrder(a, c);
    PartOrder(a, b);
    PartOrder(b, c);
  }

  lemma {:induction false} PartsOrder(a: seq<PRVersion>, b: seq<PRVersion>)
    ensures CompareParts(a, b) == -CompareParts(b, a) && -1 <= CompareParts(a, b) <= 1
    ensures CompareParts(a, b) == 0 <==> a == b
    decreases |a|
  {
    if a != [] && b != [] {
      PartOrder(a[0], b[0]);
      PartsOrder(a[1..], b[1..]);
      assert a == [a[0]] + a[1..] && b == [b[0]] + b[1..];
    }
  }

  lemma {:induction false} PartsTransitive(a: seq<PRVersion>, b: seq<PRVersion>, c: seq<PRVersion>)
    requires CompareParts(a, b) <= 0 && CompareParts(b, c) <= 0
    ensures CompareParts(a, c) <= 0
    decreases |a|
  {
    hide ComparePart;
    if a != [] && b != [] && c != [] {
      PartTransitive(a[0], b[0], c[0]);
      PartOrder(a[0], b[0]);
      PartOrder(b[0], c[0]);
      if ComparePart(a[0], c[0]) == 0 { PartsTransitive(a[1..], b[1..], c[1..]); }
    }
  }

  /** Opposite one way and the other, and equal only if all but the build agrees. */
  lemma CompareOrder(a: Version, b: Version)
    ensures Compare(a, b) == -Compare(b, a) && -1 <= Compare(a, b) <= 1
    ensures Compare(a, b) == 0 <==> a == b.(build := a.build)
  {
    hide CompareParts;
    PartsOrder(a.pre, b.pre);
  }

  lemma CompareTransitive(a: Version, b: Version, c: Version)
    requires Compare(a, b) <= 0 && Compare(b, c) <= 0
    ensures Compare(a, c) <= 0
  {
    hide CompareParts;
    if a.pre != [] && b.pre != [] && c.pre != [] {
      if CompareParts(a.pre, b.pre) <= 0 && CompareParts(b.pre, c.pre) <= 0 { PartsTransitive(a.pre, b.pre, c.pre); }
    }
  }

  // ---------------------------------------------------------------- which one comes first

  /** Up to `i` the two agree, and `b` goes on there. */
  predicate AgreeUpTo<T(==)>(a: seq<T>, b: seq<T>, i: nat) {
    i <= |a| && i < |b| && a[..i] == b[..i]
  }

  /** The first difference is an earlier character, or `a` ends first. */
  ghost predicate TextBefore(a: string, b: string) {
    exists i: nat | AgreeUpTo(a, b, i) :: i == |a| || a[i] < b[i]
  }

  /** Smaller numbers first, numbers before words, words by their characters. */
  ghost predicate PartBefore(a: PRVersion, b: PRVersion) {
    if a.Numeric? then b.Numeric? ==> a.n < b.n else b.Word? && TextBefore(a.s, b.s)
  }

  ghost predicate PartsBefore(a: seq<PRVersion>, b: seq<PRVersion>) {
    exists i: nat | AgreeUpTo(a, b, i) :: i == |a| || PartBefore(a[i], b[i])
  }

  function Numbers(v: Version): seq<int> {
    [v.major, v.minor, v.patch]
  }

  /** The first of the three numbers that differs is smaller. */
  ghost predicate NumbersBefore(a: Version, b: Version) {
    exists i: nat | AgreeUpTo(Numbers(a), Numbers(b), i) :: i < 3 && Numbers(a)[i] < Numbers(b)[i]
  }

  /** Precedence, as section 11 of Semantic Versioning 2.0.0 has it. */
  ghost predicate Precedes(a: Version, b: Version) {
    || NumbersBefore(a, b)
    || (Numbers(a) == Numbers(b) && a.pre != [] && (b.pre == [] || PartsBefore(a.pre, b.pre)))
  }

  lemma AgreeNext<T>(a: seq<T>, b: seq<T>, i: nat)
    requires a != [] && b != []
    ensures AgreeUpTo(a, b, i + 1) <==> a[0] == b[0] && AgreeUpTo(a[1..], b[1..], i)
  {
    if i < |a| && i + 1 < |b| {
      assert a[..i + 1] == [a[0]] + a[1..][..i] && b[..i + 1] == [b[0]] + b[1..][..i];
    }
  }

  lemma {:induction false} TextDirection(a: string, b: string)
    ensures CompareText(a, b) == -1 <==> TextBefore(a, b)
    decreases |a|
  {
    if a != "" && b != "" {
      TextDirection(a[1..], b[1..]);
      if a[0] == b[0] {
        if i: nat :| AgreeUpTo(a[1..], b[1..], i) && (i == |a[1..]| || a[1..][i] < b[1..][i]) {
          AgreeNext(a, b, i);
        }
      }
      if i: nat :| AgreeUpTo(a, b, i) && (i == |a| || a[i] < b[i]) {
        if i > 0 {
          AgreeNext(a, b, i - 1);
          assert a[1..][i - 1..] == a[i..] && b[1..][i - 1] == b[i];
        }
      }
      assert a[0] < b[0] ==> AgreeUpTo(a, b, 0);
    } else if b != "" {
      assert AgreeUpTo(a, b, 0);
    }
  }

  lemma PartDirection(a: PRVersion, b: PRVersion)
    ensures ComparePart(a, b) == -1 <==> PartBefore(a, b)
  {
    hide TextBefore, CompareText;
    if a.Word? && b.Word? { TextDirection(a.s, b.s); }
  }

  lemma {:induction false} PartsDirection(a: seq<PRVersion>, b: seq<PRVersion>)
    ensures CompareParts(a, b) == -1 <==> PartsBefore(a, b)
    decreases |a|
  {
    hide PartBefore, ComparePart;
    if a != [] && b != [] {
      PartDirection(a[0], b[0]);
      PartOrder(a[0], b[0]);
      PartsDirection(a[1..], b[1..]);
      if a[0] == b[0] {
        if i: nat :| AgreeUpTo(a[1..], b[1..], i) && (i == |a[1..]| || PartBefore(a[1..][i], b[1..][i])) {
          AgreeNext(a, b, i);
        }
      }
      if i: nat :| AgreeUpTo(a, b, i) && (i == |a| || PartBefore(a[i], b[i])) {
        if i > 0 {
          AgreeNext(a, b, i - 1);
        }
      }
      assert PartBefore(a[0], b[0]) ==> AgreeUpTo(a, b, 0);
    } else if b != [] {
      assert AgreeUpTo(a, b, 0);
    }
  }

  lemma NumbersDirection(a: Version, b: Version)
    ensures NumbersBefore(a, b) <==>
            if a.major != b.major then a.major < b.major
            else if a.minor != b.minor then a.minor < b.minor
            else a.patch < b.patch
  {
    var s, t := Numbers(a), Numbers(b);
    assert s[..0] == t[..0] && (s[..1] == t[..1] <==> s[0] == t[0]) by { assert s[..1] == [s[0]] && t[..1] == [t[0]]; }
    assert s[..2] == t[..2] <==> s[0] == t[0] && s[1] == t[1] by {
      assert s[..2] == [s[0], s[1]] && t[..2] == [t[0], t[1]];
    }
    assert AgreeUpTo(s, t, 0) && (AgreeUpTo(s, t, 1) <==> s[0] == t[0]);
    assert AgreeUpTo(s, t, 2) <==> s[0] == t[0] && s[1] == t[1];
  }

  /** The comparison is -1 exactly for the version that precedes, and 1 for the one that is preceded. */
  lemma CompareDirection(a: Version, b: Version)
    ensures Compare(a, b) == -1 <==> Precedes(a, b)
    ensures Compare(a, b) == 1 <==> Precedes(b, a)
  {
    CompareOrder(a, b);
    DirectionOf(a, b);
    DirectionOf(b, a);
  }

  lemma DirectionOf(a: Version, b: Version)
    ensures Compare(a, b) == -1 <==> Precedes(a, b)
  {
    hide CompareParts, PartsBefore, NumbersBefore;
    NumbersDirection(a, b);
    PartsDirection(a.pre, b.pre);
  }

  // ---------------------------------------------------------------- the loops

  method CompareVersions(v: Version, o: Version) returns (r: int)
    ensures r == Compare(v, o) && (r == -1 <==> Precedes(v, o)) && (r == 1 <==> Precedes(o, v))
  {
    hide Precedes;
    CompareDirection(v, o);
    if v.major != o.major { return if v.major > o.major then 1 else -1; }
    if v.minor != o.minor { return if v.minor > o.minor then 1 else -1; }
    if v.patch != o.patch { return if v.patch > o.patch then 1 else -1; }
    if |v.pre| == 0 && |o.pre| == 0 { return 0; }
    if |v.pre| == 0 { return 1; }
    if |o.pre| == 0 { return -1; }
    var i := 0;
    assert v.pre[0..] == v.pre && o.pre[0..] == o.pre;
    while i < |v.pre| && i < |o.pre|
      invariant i <= |v.pre| && i <= |o.pre| && CompareParts(v.pre[i..], o.pre[i..]) == CompareParts(v.pre, o.pre)
    {
      var comp := ComparePart(v.pre[i], o.pre[i]);
      PartOrder(v.pre[i], o.pre[i]);
      assert v.pre[i..][1..] == v.pre[i + 1..] && o.pre[i..][1..] == o.pre[i + 1..];
      if comp == 1 { return 1; }
      if comp != 0 { return -1; }
      i := i + 1;
    }
    if i == |v.pre| && i == |o.pre| { return 0; }
    if i == |v.pre| { return -1; }
    return 1;
  }

  /** Append a list behind its mark. */
  method AppendList(front: string, mark: char, parts: seq<string>) returns (b: string)
    ensures b == front + Tail(mark, parts)
  {
    b := front;
    if |parts| > 0 {
      b := b + [mark] + parts[0];
      var i := 1;
      JoinStart(parts);
      while i < |parts|
        invariant 1 <= i <= |parts| && b + JoinFrom(parts, i) == front + [mark] + Join(parts, '.')
      {
        JoinFromStep(parts, i, b);
        b := b + "." + parts[i];
        i := i + 1;
      }
      assert b + "" == b;
      assert front + [mark] + Join(parts, '.') == front + ([mark] + Join(parts, '.'));
    } else {
      assert front + "" == front;
    }
  }

  /** The parts from `i` on, each behind a dot. */
  ghost function JoinFrom(parts: seq<string>, i: nat): string
    requires i <= |parts|
    decreases |parts| - i
  {
    if i == |parts| then "" else "." + parts[i] + JoinFrom(parts, i + 1)
  }

  lemma JoinStart(parts: seq<string>)
    requires parts != []
    ensures forall b: string :: b + parts[0] + JoinFrom(parts, 1) == b + Join(parts, '.')
  {
    JoinAll(parts, 0);
    assert parts[0..] == parts;
    forall b: string ensures b + parts[0] + JoinFrom(parts, 1) == b + Join(parts, '.') {
      assert b + parts[0] + JoinFrom(parts, 1) == b + (parts[0] + JoinFrom(parts, 1));
    }
  }

  lemma {:induction false} JoinAll(parts: seq<string>, i: nat)
    requires i < |parts|
    ensures parts[i] + JoinFrom(parts, i + 1) == Join(parts[i..], '.')
    decreases |parts| - i
  {
    if i + 1 < |parts| {
      JoinAll(parts, i + 1);
      assert parts[i..][1..] == parts[i + 1..];
      assert parts[i] + ("." + parts[i + 1] + JoinFrom(parts, i + 2)) ==
             parts[i] + "." + (parts[i + 1] + JoinFrom(parts, i + 2));
    } else {
      assert parts[i] + "" == parts[i];
    }
  }

  lemma JoinFromStep(parts: seq<string>, i: nat, b: string)
    requires i < |parts|
    ensures (b + "." + parts[i]) + JoinFrom(parts, i + 1) == b + JoinFrom(parts, i)
  {
  }

  /** Print a version into a growing buffer. */
  method Print(v: Version) returns (b: string)
    ensures b == Text(v)
  {
    b := Decimal(v.major);
    b := b + "." + Decimal(v.minor);
    b := b + "." + Decimal(v.patch);
    b := AppendList(b, '-', Texts(v.pre));
    b := AppendList(b, '+', v.build);
    Regroup(Decimal(v.major), Decimal(v.minor), Decimal(v.patch), Tail('-', Texts(v.pre)), Tail('+', v.build));
  }

  lemma Regroup(a: string, b: string, c: string, d: string, e: string)
    ensures a + "." + b + "." + c + d + e == a + "." + (b + "." + (c + d + e))
  {
  }

  /** The parts of a pre-release, one by one. */
  method ParseParts(parts: seq<string>) returns (r: Option<seq<PRVersion>>)
    ensures r == ParsePre(parts)
  {
    var out: seq<PRVersion> := [];
    var i := 0;
    assert parts[0..] == parts;
    if ParsePre(parts).Some? { assert [] + ParsePre(parts).value == ParsePre(parts).value; }
    while i < |parts|
      invariant i <= |parts|
      invariant ParsePre(parts) == match ParsePre(parts[i..]) case None => None case Some(vs) => Some(out + vs)
    {
      assert parts[i..][0] == parts[i] && parts[i..][1..] == parts[i + 1..];
      var v := NewPRVersion(parts[i]);
      if v.None? { return None; }
      ghost var rest := ParsePre(parts[i + 1..]);
      if rest.Some? { assert out + ([v.value] + rest.value) == out + [v.value] + rest.value; }
      out, i := out + [v.value], i + 1;
    }
    assert out + [] == out;
    r := Some(out);
  }
}
