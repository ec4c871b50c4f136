/**
 Semantic versions: parsing and printing undo each other, and the comparison is a total
 preorder in which only build metadata does not count.
 */
module Semver {
  import opened Wrappers
  import opened Strings

  const MAX_UINT64: nat := 0xFFFF_FFFF_FFFF_FFFF

  /** A part of a pre-release: a number or a word. */
  datatype PRVersion = Numeric(n: nat) | Word(s: string)

  datatype Version = Version(major: nat, minor: nat, patch: nat, pre: seq<PRVersion>, build: seq<string>)

  // ---------------------------------------------------------------- parsing

  predicate IsAlphanumeric(c: char) {
    IsDigit(c) || 'a' <= c <= 'z' || 'A' <= c <= 'Z' || c == '-'
  }

  predicate AllAlphanumeric(s: string) {
    forall i | 0 <= i < |s| :: IsAlphanumeric(s[i])
  }

  /** Digits without leading zeroes, up to 64 bits. */
  function ParseNumber(s: string): Option<nat> {
    if !AllDigits(s) then None
    else if |s| > 1 && s[0] == '0' then None
    else if s == "" || Number(s) > MAX_UINT64 then None
    else Some(Number(s))
  }

  function NewPRVersion(s: string): Option<PRVersion> {
    if s == "" then None
    else if AllDigits(s) then (match ParseNumber(s) case None => None case Some(n) => Some(Numeric(n)))
    else if AllAlphanumeric(s) then Some(Word(s))
    else None
  }

  function ParsePre(parts: seq<string>): Option<seq<PRVersion>> {
    if parts == [] then Some([])
    else
      match (NewPRVersion(parts[0]), ParsePre(parts[1..]))
      case (Some(v), Some(vs)) => Some([v] + vs)
      case _ => None
  }

  predicate BuildOk(s: string) {
    s != "" && AllAlphanumeric(s)
  }

  function ParseBuild(parts: seq<string>): Option<seq<string>> {
    if forall i | 0 <= i < |parts| :: BuildOk(parts[i]) then Some(parts) else None
  }

  /** What is in front of the first `c`, and what is behind it, if there is one. */
  function Cut(s: string, c: char): (string, Option<string>) {
    var e := Head(s, c);
    if |e| == |s| then (s, None) else (e, Some(s[|e| + 1..]))
  }

  function PartsOf(s: Option<string>): seq<string> {
    match s case None => [] case Some(t) => Split(t, '.')
  }

  /** Patch, pre-release and build. */
  function ParseRest(major: nat, minor: nat, s: string): Option<Version> {
    var (front, build) := Cut(s, '+');
    var (patch, pre) := Cut(front, '-');
    match (ParseNumber(patch), ParsePre(PartsOf(pre)), ParseBuild(PartsOf(build)))
    case (Some(p), Some(vs), Some(bs)) => Some(Version(major, minor, p, vs, bs))
    case _ => None
  }

  function Parse(s: string): Option<Version> {
    match Cut(s, '.')
    case (_, None) => None
    case (major, Some(t)) =>
      match Cut(t, '.')
      case (_, None) => None
      case (minor, Some(rest)) =>
        match (ParseNumber(major), ParseNumber(minor))
        case (Some(a), Some(b)) => ParseRest(a, b, rest)
        case _ => None
  }

  // ---------------------------------------------------------------- printing

  function PRText(v: PRVersion): string {
    match v case Numeric(n) => Decimal(n) case Word(s) => s
  }

  function Texts(vs: seq<PRVersion>): (ts: seq<string>)
    ensures |ts| == |vs| && forall i | 0 <= i < |vs| :: ts[i] == PRText(vs[i])
  {
    seq(|vs|, i requires 0 <= i < |vs| => PRText(vs[i]))
  }

  /** A list behind its mark, if it is not empty. */
  function Tail(mark: char, parts: seq<string>): string {
    if parts == [] then "" else [mark] + Join(parts, '.')
  }

  function Text(v: Version): string {
    Decimal(v.major) + "." +
        (Decimal(v.minor) + "." + (Decimal(v.patch) + Tail('-', Texts(v.pre)) + Tail('+', v.build)))
  }

  // ---------------------------------------------------------------- what is accepted prints back

  lemma NumberPrints(s: string)
    requires ParseNumber(s).Some?
    ensures Decimal(ParseNumber(s).value) == s
  {
    DecimalNumber(s);
  }

  lemma CutParts(s: string, c: char)
    ensures var (e, r) := Cut(s, c);
            c !in e && (r.None? ==> e == s) && (r.Some? ==> s == e + [c] + r.value)
  {
  }

  lemma {:induction false} PrePrints(parts: seq<string>)
    requires ParsePre(parts).Some?
    ensures Texts(ParsePre(parts).value) == parts
    decreases |parts|
  {
    if parts != [] {
      PrePrints(parts[1..]);
      if AllDigits(parts[0]) { NumberPrints(parts[0]); }
      assert parts == [parts[0]] + parts[1..];
      var vs := ParsePre(parts).value;
      assert vs[1..] == ParsePre(parts[1..]).value;
      assert Texts(vs)[1..] == Texts(vs[1..]);
      assert Texts(vs) == [Texts(vs)[0]] + Texts(vs)[1..];
    }
  }

  /** What was cut off and split up is joined and put back. */
  lemma CutPrints(s: string, mark: char)
    ensures Cut(s, mark).0 + Tail(mark, PartsOf(Cut(s, mark).1)) == s
  {
    hide Cut, Head, Split, Join;
    CutParts(s, mark);
    var (e, r) := Cut(s, mark);
    if r.None? {
      assert e + "" == s;
    } else {
      JoinSplit(r.value, '.');
      assert e + ([mark] + r.value) == e + [mark] + r.value;
    }
  }

  lemma RestPrints(major: nat, minor: nat, s: string)
    requires ParseRest(major, minor, s).Some?
    ensures var v := ParseRest(major, minor, s).value;
            v.major == major && v.minor == minor && Decimal(v.patch) + Tail('-', Texts(v.pre)) + Tail('+', v.build) == s
  {
    hide Cut, ParseNumber, ParsePre, Tail, PartsOf;
    var (front, build) := Cut(s, '+');
    var (patch, pre) := Cut(front, '-');
    CutPrints(s, '+');
    CutPrints(front, '-');
    NumberPrints(patch);
    PrePrints(PartsOf(pre));
  }

  /** Every accepted string prints back as it was. */
  lemma ParsePrints(s: string)
    requires Parse(s).Some?
    ensures Text(Parse(s).value) == s
  {
    hide Cut, ParseNumber, ParseRest, Tail;
    var (major, t) := Cut(s, '.');
    CutParts(s, '.');
    var (minor, rest) := Cut(t.value, '.');
    CutParts(t.value, '.');
    NumberPrints(major);
    NumberPrints(minor);
    RestPrints(ParseNumber(major).value, ParseNumber(minor).value, rest.value);
  }

  // ---------------------------------------------------------------- what is printed parses back

  /** The source's own check: words and build parts are not empty and alphanumeric, numbers have 64 bits. */
  predicate PROk(v: PRVersion) {
    match v case Numeric(n) => n <= MAX_UINT64 case Word(s) => s != "" && AllAlphanumeric(s)
  }

  predicate Validated(v: Version) {
    && v.major <= MAX_UINT64 && v.minor <= MAX_UINT64 && v.patch <= MAX_UINT64
    && (forall i | 0 <= i < |v.pre| :: PROk(v.pre[i]))
    && (forall i | 0 <= i < |v.build| :: BuildOk(v.build[i]))
  }

  /** No word is a number in disguise. */
  predicate WordsAreWords(vs: seq<PRVersion>) {
    forall i | 0 <= i < |vs| && vs[i].Word? :: !AllDigits(vs[i].s)
  }

  lemma NumberParses(n: nat)
    requires n <= MAX_UINT64
    ensures ParseNumber(Decimal(n)) == Some(n)
  {
    NumberDecimal(n);
  }

  lemma PartParses(v: PRVersion)
    requires PROk(v)
    ensures NewPRVersion(PRText(v)) == Some(v) <==> v.Numeric? || !AllDigits(v.s)
    ensures PRText(v) != "" && AllAlphanumeric(PRText(v))
  {
    if v.Numeric? { NumberParses(v.n); }
  }

  lemma WordsSplit(vs: seq<PRVersion>)
    requires vs != []
    ensures WordsAreWords(vs) <==> WordsAreWords(vs[..1]) && WordsAreWords(vs[1..])
  {
    hide AllDigits;
    var first, more := vs[..1], vs[1..];
    if WordsAreWords(first) && WordsAreWords(more) {
      forall i | 0 <= i < |vs| && vs[i].Word? ensures !AllDigits(vs[i].s) {
        if i == 0 {
          assert first[0] == vs[0];
        } else {
          assert more[i - 1] == vs[i];
        }
      }
    }
  }

  lemma {:induction false} PreParses(vs: seq<PRVersion>)
    requires forall i | 0 <= i < |vs| :: PROk(vs[i])
    ensures ParsePre(Texts(vs)) == Some(vs) <==> WordsAreWords(vs)
    decreases |vs|
  {
    hide NewPRVersion, PRText, AllDigits;
    if vs != [] {
      PartParses(vs[0]);
      PreParses(vs[1..]);
      WordsSplit(vs);
      assert WordsAreWords(vs[..1]) <==> (vs[0].Word? ==> !AllDigits(vs[0].s)) by {
        assert vs[..1] == [vs[0]];
      }
      hide WordsAreWords;
      assert Texts(vs)[1..] == Texts(vs[1..]);
      assert vs == [vs[0]] + vs[1..];
    }
  }

  lemma CutAt(e: string, rest: string, c: char)
    requires c !in e
    ensures Cut(e + [c] + rest, c) == (e, Some(rest)) && Cut(e, c) == (e, None)
  {
    HeadAt(e, [c] + rest, c);
    assert e + [c] + rest == e + ([c] + rest);
    HeadAt(e, "", c);
    assert e + "" == e;
  }

  /** A list behind its mark is cut off again. */
  lemma CutTail(front: string, mark: char, parts: seq<string>)
    requires mark !in front && forall i | 0 <= i < |parts| :: parts[i] != "" && AllAlphanumeric(parts[i])
    ensures var (e, r) := Cut(front + Tail(mark, parts), mark);
            e == front && PartsOf(r) == parts
  {
    hide Cut, Head, Split;
    if parts == [] {
      assert front + "" == front;
      CutAt(front, "", mark);
    } else {
      CutAt(front, Join(parts, '.'), mark);
      assert front + [mark] + Join(parts, '.') == front + Tail(mark, parts);
      forall i | 0 <= i < |parts| ensures '.' !in parts[i] {
        Without(parts[i], '.');
      }
      SplitJoin(parts, '.');
    }
  }

  lemma Without(s: string, c: char)
    requires AllAlphanumeric(s) && !IsAlphanumeric(c)
    ensures c !in s
  {
  }

  lemma DigitsWithout(s: string, c: char)
    requires AllDigits(s) && !IsDigit(c)
    ensures c !in s
  {
  }

  lemma {:induction false} JoinWithout(parts: seq<string>, c: char)
    requires c != '.' && forall i | 0 <= i < |parts| :: c !in parts[i]
    ensures c !in Join(parts, '.')
    decreases |parts|
  {
    if |parts| > 1 { JoinWithout(parts[1..], c); }
  }

  lemma PrePartsOk(vs: seq<PRVersion>)
    requires forall i | 0 <= i < |vs| :: PROk(vs[i])
    ensures forall i | 0 <= i < |vs| :: Texts(vs)[i] != "" && AllAlphanumeric(Texts(vs)[i]) && '+' !in Texts(vs)[i]
  {
  }

  lemma RestParses(v: Version)
    requires Validated(v)
    ensures var rest := Decimal(v.patch) + Tail('-', Texts(v.pre)) + Tail('+', v.build);
            ParseRest(v.major, v.minor, rest) == Some(v) <==> WordsAreWords(v.pre)
  {
    hide Cut, ParseNumber, ParsePre, PartsOf, Tail, Texts, WordsAreWords, Join;
    var patch, pre := Decimal(v.patch), Tail('-', Texts(v.pre));
    PrePartsOk(v.pre);
    DigitsWithout(patch, '-');
    DigitsWithout(patch, '+');
    TailWithout('-', Texts(v.pre), '+');
    assert '+' !in patch + pre;
    CutTail(patch + pre, '+', v.build);
    CutTail(patch, '-', Texts(v.pre));
    NumberParses(v.patch);
    PreParses(v.pre);
  }

  lemma TailWithout(mark: char, parts: seq<string>, c: char)
    requires c != '.' && c != mark && forall i | 0 <= i < |parts| :: c !in parts[i]
    ensures c !in Tail(mark, parts)
  {
    JoinWithout(parts, c);
  }

  /** A word of digits comes back as a number. */
  lemma PrintCounterexample()
    ensures var v := Version(1, 0, 0, [Word("1")], []); Validated(v) && Parse(Text(v)) != Some(v)
  {
    var v := Version(1, 0, 0, [Word("1")], []);
    assert IsAlphanumeric("1"[0]) && IsDigit("1"[0]);
    assert !WordsAreWords(v.pre) by { assert v.pre[0] == Word("1"); }
    PrintParses(v);
  }

  /** A version parses back to itself exactly if none of its words is all digits. */
  lemma PrintParses(v: Version)
    requires Validated(v)
    ensures Parse(Text(v)) == Some(v) <==> WordsAreWords(v.pre)
  {
    hide Cut, ParseNumber, ParseRest, Tail, Texts, WordsAreWords, Validated;
    var rest := Decimal(v.patch) + Tail('-', Texts(v.pre)) + Tail('+', v.build);
    var t := Decimal(v.minor) + "." + rest;
    DigitsWithout(Decimal(v.major), '.');
    DigitsWithout(Decimal(v.minor), '.');
    CutAt(Decimal(v.major), t, '.');
    CutAt(Decimal(v.minor), rest, '.');
    Bounds(v);
    NumberParses(v.major);
    NumberParses(v.minor);
    RestParses(v);
  }

  /** Three numbers with dots between them are the major, the minor and the patch number, in this order. */
  lemma ThreeNumbers(major: nat, minor: nat, patch: nat)
    requires major <= MAX_UINT64 && minor <= MAX_UINT64 && patch <= MAX_UINT64
    ensures Parse(Decimal(major) + "." + Decimal(minor) + "." + Decimal(patch)) ==
            Some(Version(major, minor, patch, [], []))
  {
    hide Parse, Decimal;
    var v := Version(major, minor, patch, [], []);
    PrintParses(v);
    assert Decimal(patch) + "" + "" == Decimal(patch);
    assert Text(v) == Decimal(major) + "." + Decimal(minor) + "." + Decimal(patch);
  }

  lemma Bounds(v: Version)
    requires Validated(v)
    ensures v.major <= MAX_UINT64 && v.minor <= MAX_UINT64
  {
  }

  /** What parses is valid, with words that are words. */
  lemma ParsedIsValid(s: string)
    requires Parse(s).Some?
    ensures Validated(Parse(s).value) && WordsAreWords(Parse(s).value.pre)
  {
    hide Cut;
    var (major, t) := Cut(s, '.');
    var (minor, rest) := Cut(t.value, '.');
    var (front, build) := Cut(rest.value, '+');
    var (patch, pre) := Cut(front, '-');
    PreIsValid(PartsOf(pre));
  }

  lemma {:induction false} PreIsValid(parts: seq<string>)
    requires ParsePre(parts).Some?
    ensures var vs := ParsePre(parts).value;
            (forall i | 0 <= i < |vs| :: PROk(vs[i])) && WordsAreWords(vs)
    decreases |parts|
  {
    if parts != [] { PreIsValid(parts[1..]); }
  }
}
