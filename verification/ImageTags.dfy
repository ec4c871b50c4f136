/**
 Image tags: a version behind an optional prefix. The list of tags of an image, sorted, is
 split at the current tag into what to upgrade to and what to go back to.
 */
module ImageTags {
  import opened Wrappers
  import opened Strings
  import opened Semver
  import opened SemverOrder

  datatype CombinedVersion = CombinedVersion(prefix: string, version: Version)

  const LIMIT: nat := 50

  function Tag(v: CombinedVersion): string {
    v.prefix + Text(v.version)
  }

  function WithPrefix(s: string, n: nat): Option<CombinedVersion>
    requires n <= |s|
  {
    match Parse(s[n..]) case None => None case Some(v) => Some(CombinedVersion(s[..n], v))
  }

  /** A version, or one behind a `v`, or one behind everything up to the first hyphen. */
  function ParseImageTag(s: string): Option<CombinedVersion> {
    match WithPrefix(s, 0)
    case Some(v) => Some(v)
    case None =>
      var behindV := if s != "" && s[0] == 'v' then WithPrefix(s, 1) else None;
      match behindV
      case Some(v) => Some(v)
      case None =>
        var e := Head(s, '-');
        if |e| == |s| then None else WithPrefix(s, |e| + 1)
  }

  /** The text of a valid version, whose words are not numbers in disguise. */
  ghost predicate IsVersion(s: string) {
    exists v :: Validated(v) && WordsAreWords(v.pre) && Text(v) == s
  }

  lemma VersionsParse(s: string)
    ensures Parse(s).Some? <==> IsVersion(s)
  {
    hide Parse, Text, Validated, WordsAreWords;
    if Parse(s).Some? {
      ParsePrints(s);
      ParsedIsValid(s);
    }
    if v :| Validated(v) && WordsAreWords(v.pre) && Text(v) == s { PrintParses(v); }
  }

  /** The first hyphen is at place `i`. */
  predicate FirstHyphen(s: string, i: nat) {
    i < |s| && s[i] == '-' && '-' !in s[..i]
  }

  /** A version behind the prefix of the given length, which is nothing, a `v`, or all up to the first hyphen. */
  ghost predicate VersionBehind(s: string, n: nat) {
    n <= |s| && IsVersion(s[n..]) && (n == 0 || (n == 1 && s[0] == 'v') || FirstHyphen(s, n - 1))
  }

  lemma HeadIsFirst(s: string)
    ensures var e := Head(s, '-');
            if |e| == |s| then '-' !in s else FirstHyphen(s, |e|)
  {
  }

  lemma PrefixParses(s: string, n: nat)
    requires n <= |s|
    ensures WithPrefix(s, n).Some? <==> IsVersion(s[n..])
  {
    VersionsParse(s[n..]);
  }

  /** Which tags are accepted: those with a version behind a prefix; and of several prefixes the shortest is taken. */
  lemma TagsExact(s: string)
    ensures ParseImageTag(s).Some? <==> exists n :: VersionBehind(s, n)
    ensures ParseImageTag(s).Some? ==>
              var n := |ParseImageTag(s).value.prefix|;
              VersionBehind(s, n) && forall m | 0 <= m < n :: !VersionBehind(s, m)
  {
    hide Head, Parse, IsVersion;
    var e := Head(s, '-');
    HeadIsFirst(s);
    PrefixParses(s, 0);
    if s != "" { PrefixParses(s, 1); }
    if |e| < |s| { PrefixParses(s, |e| + 1); }
    OneHyphen(s, e);
    assert VersionBehind(s, 0) <==> WithPrefix(s, 0).Some?;
    if s != "" && s[0] == 'v' { assert VersionBehind(s, 1) <==> WithPrefix(s, 1).Some?; }
    if |e| < |s| { assert VersionBehind(s, |e| + 1) <==> WithPrefix(s, |e| + 1).Some?; }
  }

  lemma OneHyphen(s: string, e: string)
    requires if |e| == |s| then '-' !in s else FirstHyphen(s, |e|)
    ensures forall i: nat | FirstHyphen(s, i) :: i == |e|
  {
  }

  /** An accepted tag prints back as it was. */
  lemma TagPrints(s: string)
    requires ParseImageTag(s).Some?
    ensures Tag(ParseImageTag(s).value) == s
  {
    hide Parse, Text;
    var v := ParseImageTag(s).value;
    var n := |v.prefix|;
    assert n <= |s| && v.prefix == s[..n] && Parse(s[n..]) == Some(v.version);
    ParsePrints(s[n..]);
    assert s[..n] + s[n..] == s;
  }

  /** So different tags stay different. */
  lemma TagsDistinct(s: string, t: string)
    requires ParseImageTag(s).Some? && ParseImageTag(s) == ParseImageTag(t)
    ensures s == t
  {
    TagPrints(s);
    TagPrints(t);
  }

  // ---------------------------------------------------------------- order

  /** By version, and among equal versions by prefix. */
  predicate Less(a: CombinedVersion, b: CombinedVersion) {
    if Compare(a.version, b.version) == 0 then CompareText(a.prefix, b.prefix) < 0
    else Compare(a.version, b.version) < 0
  }

  lemma LessOrder(a: CombinedVersion, b: CombinedVersion, c: CombinedVersion)
    ensures !Less(a, a) && (Less(a, b) ==> !Less(b, a))
    ensures !Less(b, a) && !Less(c, b) ==> !Less(c, a)
  {
    hide Compare, CompareText;
    CompareOrder(a.version, a.version);
    CompareOrder(a.version, b.version);
    CompareOrder(b.version, c.version);
    CompareOrder(a.version, c.version);
    TextOrder(a.prefix, a.prefix);
    TextOrder(a.prefix, b.prefix);
    TextOrder(b.prefix, c.prefix);
    TextOrder(a.prefix, c.prefix);
    if Compare(a.version, b.version) <= 0 && Compare(b.version, c.version) <= 0 {
      CompareTransitive(a.version, b.version, c.version);
      if Compare(a.version, c.version) == 0 { EqualBetween(a.version, b.version, c.version); }
    }
    if CompareText(a.prefix, b.prefix) <= 0 && CompareText(b.prefix, c.prefix) <= 0 {
      TextTransitive(a.prefix, b.prefix, c.prefix);
    }
  }

  lemma EqualBetween(a: Version, b: Version, c: Version)
    requires Compare(a, b) <= 0 && Compare(b, c) <= 0 && Compare(a, c) == 0
    ensures Compare(a, b) == 0 && Compare(b, c) == 0
  {
    hide Compare;
    CompareOrder(a, b);
    CompareOrder(b, c);
    CompareOrder(a, c);
    CompareTransitive(c, a, b);
    CompareTransitive(b, c, a);
  }

  /** Less is what precedes by its version, or does so by its prefix where neither version precedes. */
  lemma LessExact(a: CombinedVersion, b: CombinedVersion)
    ensures Less(a, b) <==>
            || Precedes(a.version, b.version)
            || (!Precedes(b.version, a.version) && TextBefore(a.prefix, b.prefix))
  {
    hide Compare, CompareText, Precedes, TextBefore;
    CompareDirection(a.version, b.version);
    CompareOrder(a.version, b.version);
    TextDirection(a.prefix, b.prefix);
    TextOrder(a.prefix, b.prefix);
  }

  predicate Sorted(items: seq<CombinedVersion>) {
    forall i, j | 0 <= i < j < |items| :: !Less(items[j], items[i])
  }

  /** What a sort promises: no item is less than the one in front of it. */
  predicate IsSorted(items: seq<CombinedVersion>) {
    forall i | 0 < i < |items| :: !Less(items[i], items[i - 1])
  }

  /** It is enough to compare neighbours. */
  lemma {:induction false} SortedNeighbours(items: seq<CombinedVersion>)
    requires IsSorted(items)
    ensures Sorted(items)
    decreases |items|
  {
    hide Less;
    if |items| > 1 {
      var front := items[..|items| - 1];
      assert forall i | 0 <= i < |front| :: front[i] == items[i];
      SortedNeighbours(front);
      forall i, j | 0 <= i < j < |items| ensures !Less(items[j], items[i]) {
        if j < |items| - 1 {
          assert !Less(front[j], front[i]);
        } else if i < j - 1 {
          assert !Less(front[j - 1], front[i]);
          LessOrder(items[i], items[j - 1], items[j]);
        }
      }
    }
  }

  // ---------------------------------------------------------------- selection

  /** The first place of the tag, or the end of the list if it is not there. */
  predicate FirstAt(items: seq<CombinedVersion>, tag: string, index: nat) {
    && index <= |items|
    && (index < |items| ==> Tag(items[index]) == tag)
    && forall j | 0 <= j < index :: Tag(items[j]) != tag
  }

  /** Where an item prints as the given tag. */
  method Search(items: seq<CombinedVersion>, one: string) returns (index: int)
    ensures -1 <= index < |items|
    ensures FirstAt(items, one, if index < 0 then |items| else index)
  {
    hide Tag;
    var i := 0;
    while i < |items|
      invariant i <= |items| && forall j | 0 <= j < i :: Tag(items[j]) != one
    {
      if Tag(items[i]) == one { return i; }
      i := i + 1;
    }
    return -1;
  }

  function Reversed<T>(s: seq<T>): (r: seq<T>)
    ensures |r| == |s| && forall i | 0 <= i < |s| :: r[i] == s[|s| - 1 - i]
  {
    seq(|s|, i requires 0 <= i < |s| => s[|s| - 1 - i])
  }

  /** Turn a list round, in place. */
  method Reverse(items: array<CombinedVersion>)
    modifies items
    ensures items[..] == Reversed(old(items[..]))
  {
    var i, j := 0, items.Length - 1;
    while i < j
      invariant 0 <= i <= items.Length && j == items.Length - 1 - i
      invariant forall k | 0 <= k < items.Length ::
                  items[k] == if i <= k <= j then old(items[k]) else old(items[items.Length - 1 - k])
    {
      items[i], items[j] := items[j], items[i];
      i, j := i + 1, j - 1;
    }
  }

  function Limited<T>(items: seq<T>): seq<T> {
    if |items| > LIMIT then items[..LIMIT] else items
  }

  /** No item of the one list is less than one of the other. */
  predicate NoneLess(behind: seq<CombinedVersion>, before: seq<CombinedVersion>) {
    forall v, w | v in before && w in behind :: !Less(w, v)
  }

  /** What to upgrade to: everything behind the current tag, nearest first. */
  method Upgrades(sorted: seq<CombinedVersion>, tag: string) returns (shown: seq<CombinedVersion>, index: int)
    requires IsSorted(sorted)
    ensures -1 <= index < |sorted| && shown == Limited(sorted[index + 1..])
    ensures FirstAt(sorted, tag, if index < 0 then |sorted| else index)
    ensures index >= 0 ==> NoneLess(sorted[index + 1..], [sorted[index]])
    ensures NoneLess(sorted[index + 1..][|shown|..], shown)
  {
    hide Less, Tag, Sorted, NoneLess, FirstAt;
    SortedNeighbours(sorted);
    var i := Search(sorted, tag);
    index := i;
    var list := sorted[i + 1..];
    shown := if |list| > LIMIT then list[..LIMIT] else list;
    assert list[..|list|] == list;
    NearestForward(sorted, i + 1, |shown|);
  }

  lemma NearestForward(sorted: seq<CombinedVersion>, from: nat, n: nat)
    requires Sorted(sorted) && from + n <= |sorted|
    ensures NoneLess(sorted[from..][n..], sorted[from..][..n])
    ensures from > 0 ==> NoneLess(sorted[from..], [sorted[from - 1]])
  {
    hide Less;
  }

  /** What to go back to: everything in front of the current tag, nearest first. */
  method Downgrades(sorted: seq<CombinedVersion>, tag: string) returns (shown: seq<CombinedVersion>, index: int)
    requires IsSorted(sorted)
    ensures 0 <= index <= |sorted| && shown == Limited(Reversed(sorted[..index]))
    ensures FirstAt(sorted, tag, index)
    ensures index < |sorted| ==> NoneLess([sorted[index]], sorted[..index])
    ensures NoneLess(shown, Reversed(sorted[..index])[|shown|..])
  {
    hide Less, Tag, Sorted, NoneLess, FirstAt;
    SortedNeighbours(sorted);
    var i := Search(sorted, tag);
    if i == -1 { i := |sorted|; }
    index := i;
    var list := new CombinedVersion[i](k requires 0 <= k < |sorted| => sorted[k]);
    assert list[..] == sorted[..i];
    Reverse(list);
    shown := if i > LIMIT then list[..LIMIT] else list[..];
    NearestBack(sorted, i);
  }

  lemma NearestBack(sorted: seq<CombinedVersion>, index: nat)
    requires Sorted(sorted) && index <= |sorted|
    ensures var back := Reversed(sorted[..index]); NoneLess(Limited(back), back[|Limited(back)|..])
    ensures index < |sorted| ==> NoneLess([sorted[index]], sorted[..index])
  {
    hide Less;
  }

  /** The one list turned round, an item, and the other list are the whole. */
  predicate Joins(down: seq<CombinedVersion>, current: CombinedVersion, up: seq<CombinedVersion>,
                  all: seq<CombinedVersion>)
  {
    Reversed(down) + [current] + up == all
  }

  /**
   Both lists for one tag. If it is found they are about the same place: before the limit, the downgrades turned
   round, the current tag and the upgrades make up the whole list. If not, either list is the whole.
   */
  method Choices(sorted: seq<CombinedVersion>, tag: string)
    returns (upgrades: seq<CombinedVersion>, downgrades: seq<CombinedVersion>, index: nat)
    requires IsSorted(sorted)
    ensures FirstAt(sorted, tag, index)
    ensures downgrades == Limited(Reversed(sorted[..index]))
    ensures upgrades == Limited(if index < |sorted| then sorted[index + 1..] else sorted)
    ensures index < |sorted| ==> Joins(Reversed(sorted[..index]), sorted[index], sorted[index + 1..], sorted)
  {
    hide Less, Tag, Sorted, IsSorted, Limited, Reversed, NoneLess, Joins, FirstAt;
    var up;
    upgrades, up := Upgrades(sorted, tag);
    downgrades, index := Downgrades(sorted, tag);
    FirstOnce(sorted, tag, index, if up < 0 then |sorted| else up);
    if up >= 0 { ListSplits(sorted, up); }
    assert sorted[0..] == sorted;
  }

  lemma ListSplits(sorted: seq<CombinedVersion>, index: nat)
    requires index < |sorted|
    ensures Joins(Reversed(sorted[..index]), sorted[index], sorted[index + 1..], sorted)
  {
  }

  /** Two searches find the same place. */
  lemma FirstOnce(items: seq<CombinedVersion>, tag: string, a: nat, b: nat)
    requires FirstAt(items, tag, a) && FirstAt(items, tag, b)
    ensures a == b
  {
    hide Tag;
  }

  /** A tag that the registry lists and that parses is found. */
  lemma CurrentIsFound(tags: seq<string>, sorted: seq<CombinedVersion>, tag: string)
    requires tag in tags && ParseImageTag(tag).Some?
    requires forall t | t in tags && ParseImageTag(t).Some? :: ParseImageTag(t).value in sorted
    ensures exists i :: 0 <= i < |sorted| && Tag(sorted[i]) == tag
  {
    hide Tag, ParseImageTag;
    TagPrints(tag);
    var v := ParseImageTag(tag).value;
    var i :| 0 <= i < |sorted| && sorted[i] == v;
  }
}
