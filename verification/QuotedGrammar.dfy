/**
 The texts of double-quoted scalars as a grammar of items, each with its value: characters,
 escapes, gaps of blanks and line breaks, and escaped line breaks. The scanner reads exactly the texts of this
 grammar, with these values; so a single line break folds into a space, and of several all but the first are kept.
 */
module QuotedGrammar {
  import opened Wrappers
  import opened Utf8
  import opened QuotedText

  // ---------------------------------------------------------------- gaps

  datatype Line = LineFeed | Return | ReturnFeed | NextLine | LineSeparator | ParagraphSeparator

  function LineText(b: Line): seq<Byte> {
    match b
    case LineFeed => [LF]
    case Return => [CR]
    case ReturnFeed => [CR, LF]
    case NextLine => Encode(0x85)
    case LineSeparator => Encode(0x2028)
    case ParagraphSeparator => Encode(0x2029)
  }

  /** The separators of Unicode are kept as they are. */
  predicate Kept(b: Line) {
    b.LineSeparator? || b.ParagraphSeparator?
  }

  function LineValue(b: Line): seq<Byte> {
    if Kept(b) then LineText(b) else [LF]
  }

  function LineValues(ls: seq<Line>): seq<Byte> {
    if ls == [] then [] else LineValue(ls[0]) + LineValues(ls[1..])
  }

  datatype Piece = Blank(b: Byte) | Break(line: Line)

  function PieceText(p: Piece): seq<Byte> {
    match p case Blank(b) => [b] case Break(line) => LineText(line)
  }

  /** Blanks are spaces and tabs, and a return directly in front of a line feed is one break with it. */
  predicate GapOk(ps: seq<Piece>) {
    && (forall i | 0 <= i < |ps| :: ps[i].Blank? ==> ps[i].b == SPACE || ps[i].b == TAB)
    && forall i | 0 <= i < |ps| - 1 :: ps[i] == Break(Return) ==> ps[i + 1] != Break(LineFeed)
  }

  function GapText(ps: seq<Piece>): seq<Byte> {
    if ps == [] then [] else PieceText(ps[0]) + GapText(ps[1..])
  }

  function Lines(ps: seq<Piece>): seq<Line> {
    if ps == [] then [] else (match ps[0] case Blank(_) => [] case Break(line) => [line]) + Lines(ps[1..])
  }

  function Blanks(ps: seq<Piece>): seq<Byte> {
    if ps == [] then [] else (match ps[0] case Blank(b) => [b] case Break(_) => []) + Blanks(ps[1..])
  }

  function GapColumn(ps: seq<Piece>, column: nat): nat
    decreases |ps|
  {
    if ps == [] then column else GapColumn(ps[1..], if ps[0].Blank? then column + 1 else 0)
  }

  /** Blanks within a line stay; one break is a space; of more breaks the first is dropped, if it need not be kept. */
  function GapValue(ps: seq<Piece>): seq<Byte> {
    var ls := Lines(ps);
    if ls == [] then Blanks(ps)
    else if Kept(ls[0]) then LineValues(ls)
    else if |ls| == 1 then [SPACE]
    else LineValues(ls[1..])
  }

  /** With `n` breaks, none of them to be kept: a space, or one line feed less than there are breaks. */
  lemma FoldingLaw(ps: seq<Piece>)
    requires Lines(ps) != [] && forall i | 0 <= i < |Lines(ps)| :: !Kept(Lines(ps)[i])
    ensures var n := |Lines(ps)|;
            GapValue(ps) == if n == 1 then [SPACE] else seq(n - 1, _ => LF)
  {
    FeedsOnly(Lines(ps)[1..]);
  }

  lemma {:induction false} FeedsOnly(ls: seq<Line>)
    requires forall i | 0 <= i < |ls| :: !Kept(ls[i])
    ensures LineValues(ls) == seq(|ls|, _ => LF)
    decreases |ls|
  {
    if ls != [] { FeedsOnly(ls[1..]); }
  }

  /** What the scanner sees of the first piece of a gap. */
  lemma FirstPiece(p: Piece, t: seq<Byte>)
    requires p.Blank? ==> p.b == SPACE || p.b == TAB
    requires p == Break(Return) ==> At(t, 0) != LF
    ensures var s := PieceText(p) + t;
            if p.Blank? then IsBlank(s) && s[0] == p.b && s[1..] == t
            else !IsBlank(s) && IsBreak(s) && BreakLength(s) == |LineText(p.line)| && s[BreakLength(s)..] == t &&
                 BreakValue(s) == LineValue(p.line)
  {
    var s := PieceText(p) + t;
    if p.Break? {
      var e := LineText(p.line);
      assert e == match p.line
                  case LineFeed => [LF] case Return => [CR] case ReturnFeed => [CR, LF] case NextLine => [0xC2, 0x85]
                  case LineSeparator => [0xE2, 0x80, 0xA8] case ParagraphSeparator => [0xE2, 0x80, 0xA9];
      assert forall k | 0 <= k < |e| :: At(s, k) == e[k];
      assert At(s, |e|) == At(t, 0);
      assert s[|e|..] == t && s[..|e|] == e;
    }
  }

  lemma PieceStarts(p: Piece)
    requires p.Blank? ==> p.b == SPACE || p.b == TAB
    ensures PieceText(p) != [] && (PieceText(p)[0] == LF ==> p == Break(LineFeed))
  {
  }

  lemma GapTail(ps: seq<Piece>)
    requires ps != [] && GapOk(ps)
    ensures GapOk(ps[1..]) && (|ps| > 1 && ps[0] == Break(Return) ==> ps[1] != Break(LineFeed))
  {
    var rest := ps[1..];
    assert forall i | 0 <= i < |rest| :: rest[i] == ps[i + 1];
    forall i | 0 <= i < |rest| - 1 && rest[i] == Break(Return) ensures rest[i + 1] != Break(LineFeed) {
      assert ps[i + 1] == Break(Return);
    }
  }

  lemma GapCons(ps: seq<Piece>, t: seq<Byte>)
    requires ps != []
    ensures GapText(ps) + t == PieceText(ps[0]) + (GapText(ps[1..]) + t)
  {
    hide PieceText;
  }

  lemma NextPiece(ps: seq<Piece>, t: seq<Byte>)
    requires ps != [] && GapOk(ps) && !IsBreak(t)
    ensures GapOk(ps[1..]) && (ps[0] == Break(Return) ==> At(GapText(ps[1..]) + t, 0) != LF)
    ensures GapText(ps) + t == PieceText(ps[0]) + (GapText(ps[1..]) + t)
  {
    assert At(t, 0) != LF;
    hide PieceText, GapOk, GapText, IsBreak;
    var rest := ps[1..];
    GapTail(ps);
    GapCons(ps, t);
    if rest == [] {
      NoGap(t);
    } else {
      BlanksOk(rest);
      PieceStarts(rest[0]);
      GapCons(rest, t);
    }
  }

  lemma NoGap(t: seq<Byte>)
    ensures GapText([]) + t == t
  {
  }

  /** Behind the first line break: blanks do not count, breaks are gathered. */
  lemma {:induction false} LeadingGap(ps: seq<Piece>, t: seq<Byte>, column: nat, ws: seq<Byte>, lb: seq<Byte>,
                                      tb: seq<Byte>)
    requires GapOk(ps) && !IsBlank(t) && !IsBreak(t)
    ensures InBlanks(GapText(ps) + t, column, true, ws, lb, tb) ==
            Prepend(Join(true, ws, lb, tb + LineValues(Lines(ps))), Text(t, GapColumn(ps, column)))
    decreases |ps|
  {
    hide IsBlank, IsBreak, BreakLength, BreakValue, Text, Join, GapOk, PieceText;
    if ps == [] {
      assert GapText(ps) + t == t && tb + [] == tb;
    } else {
      var rest := GapText(ps[1..]) + t;
      BlanksOk(ps);
      NextPiece(ps, t);
      FirstPiece(ps[0], rest);
      if ps[0].Blank? {
        assert [] + Lines(ps[1..]) == Lines(ps[1..]);
        LeadingGap(ps[1..], t, column + 1, ws, lb, tb);
      } else {
        var line := ps[0].line;
        LeadingGap(ps[1..], t, 0, ws, lb, tb + LineValue(line));
        LinesCons(line, Lines(ps[1..]));
        assert tb + LineValue(line) + LineValues(Lines(ps[1..])) == tb + (LineValue(line) + LineValues(Lines(ps[1..])));
      }
    }
  }

  lemma BlanksOk(ps: seq<Piece>)
    requires ps != [] && GapOk(ps)
    ensures ps[0].Blank? ==> ps[0].b == SPACE || ps[0].b == TAB
  {
  }

  lemma LinesCons(line: Line, ls: seq<Line>)
    ensures LineValues([line] + ls) == LineValue(line) + LineValues(ls)
  {
    assert ([line] + ls)[1..] == ls;
  }

  lemma SameValue(ps: seq<Piece>)
    requires ps != [] && ps[0].Blank?
    ensures Lines(ps) == Lines(ps[1..]) && (Lines(ps) != [] ==> GapValue(ps) == GapValue(ps[1..]))
  {
    assert [] + Lines(ps[1..]) == Lines(ps[1..]);
  }

  lemma FirstBreak(ps: seq<Piece>)
    requires ps != [] && ps[0].Break?
    ensures Lines(ps) != [] && Join(true, [], LineValue(ps[0].line), LineValues(Lines(ps[1..]))) == GapValue(ps)
  {
    hide Join, LineValue;
    var line, more := ps[0].line, Lines(ps[1..]);
    FirstLine(line, more);
    assert Lines(ps) == [line] + more && Lines(ps)[1..] == more;
  }

  /** Up to the first line break the blanks are gathered. */
  lemma {:induction false} GapReads(ps: seq<Piece>, t: seq<Byte>, column: nat, ws: seq<Byte>)
    requires GapOk(ps) && !IsBlank(t) && !IsBreak(t)
    ensures InBlanks(GapText(ps) + t, column, false, ws, [], []) ==
            Prepend(if Lines(ps) == [] then ws + Blanks(ps) else GapValue(ps), Text(t, GapColumn(ps, column)))
    decreases |ps|
  {
    hide IsBlank, IsBreak, BreakLength, BreakValue, Text, GapOk, PieceText, LineValue, GapValue;
    if ps == [] {
      assert GapText(ps) + t == t && ws + [] == ws;
    } else {
      var rest := GapText(ps[1..]) + t;
      BlanksOk(ps);
      NextPiece(ps, t);
      FirstPiece(ps[0], rest);
      if ps[0].Blank? {
        GapReads(ps[1..], t, column + 1, ws + [ps[0].b]);
        SameValue(ps);
        assert ws + [ps[0].b] + Blanks(ps[1..]) == ws + Blanks(ps);
      } else {
        var line, more := ps[0].line, Lines(ps[1..]);
        assert [] + LineValue(line) == LineValue(line) && [] + LineValues(more) == LineValues(more);
        LeadingGap(ps[1..], t, 0, [], LineValue(line), []);
        FirstBreak(ps);
      }
    }
  }

  lemma FirstLine(line: Line, more: seq<Line>)
    ensures Join(true, [], LineValue(line), LineValues(more)) ==
            if Kept(line) then LineValues([line] + more) else if more == [] then [SPACE] else LineValues(more)
  {
    LinesCons(line, more);
    if more != [] { assert LineValue(more[0]) != []; }
  }

  // ---------------------------------------------------------------- escapes

  /** The escapes of one letter, and the characters they stand for. */
  const ESCAPES: map<Byte, CodePoint> :=
    map[Ascii('0') := 0x00, Ascii('a') := 0x07, Ascii('b') := 0x08, Ascii('t') := 0x09, TAB := 0x09, Ascii('n') := 0x0A,
        Ascii('v') := 0x0B, Ascii('f') := 0x0C, Ascii('r') := 0x0D, Ascii('e') := 0x1B, SPACE := 0x20, QUOTE := 0x22,
        Ascii('\'') := 0x27, BACKSLASH := 0x5C, Ascii('N') := 0x85, Ascii('_') := 0xA0, Ascii('L') := 0x2028,
        Ascii('P') := 0x2029]

  lemma LettersExact(e: Byte)
    ensures LetterValue(e) == if e in ESCAPES then Some(Encode(ESCAPES[e])) else None
  {
  }

  const DIGITS := "0123456789abcdef"
  const CAPITALS := "0123456789ABCDEF"

  /** A hexadecimal digit counts what its place among the digits says, as a small or as a capital letter. */
  lemma DigitsExact(b: Byte, d: nat)
    ensures AsHex(b) == Some(d) <==> d < 16 && (b == Ascii(DIGITS[d]) || b == Ascii(CAPITALS[d]))
  {
  }

  /** Digit `i` of a number in hexadecimal, counted from the left, is its place value. */
  lemma {:induction false} PlacesExact(s: seq<Byte>, i: nat)
    requires HexValue(s).Some? && i < |s|
    ensures HexValue(s).value < Pow16(|s|)
    ensures AsHex(s[i]) == Some(HexValue(s).value / Pow16(|s| - 1 - i) % 16)
    decreases |s|
  {
    hide AsHex, Pow16;
    var n := |s| - 1;
    var v, d := HexValue(s[..n]).value, AsHex(s[n]).value;
    DigitSmall(s[n]);
    Powers16(n);
    if n > 0 { PlacesExact(s[..n], if i < n then i else 0); }
    OneMore(v, d, Pow16(n));
    if i < n {
      Powers16(n - 1 - i);
      DropDigit(v, d, Pow16(n - 1 - i));
    }
  }

  lemma OneMore(v: nat, d: nat, p: nat)
    requires d < 16
    ensures v < p ==> v * 16 + d < 16 * p
    ensures (v * 16 + d) / 1 % 16 == d
  {
  }

  lemma Powers16(n: nat)
    ensures Pow16(0) == 1 && Pow16(n + 1) == 16 * Pow16(n)
  {
  }

  lemma DigitSmall(b: Byte)
    ensures AsHex(b).Some? ==> AsHex(b).value < 16
  {
  }

  lemma DropDigit(v: nat, d: nat, p: nat)
    requires d < 16 && p > 0
    ensures (v * 16 + d) / (16 * p) == v / p
  {
    var q, r := v / p, v % p;
    assert v * 16 + d == (16 * p) * q + (16 * r + d);
    QuotientOf(v * 16 + d, 16 * p, q, 16 * r + d);
  }

  lemma QuotientOf(n: nat, m: nat, q: nat, r: nat)
    requires n == m * q + r && r < m
    ensures n / m == q
  {
    var x := q - n / m;
    assert m * x == n % m - r;
    if x >= 1 { AtLeast(m, x); assert false; }
    if x <= -1 { AtLeast(m, -x); assert false; }
  }

  lemma AtLeast(m: nat, x: int)
    requires x >= 1
    ensures m * x >= m
  {
  }

  // ---------------------------------------------------------------- items

  datatype Item =
    | Plain(octets: seq<Byte>)
    | Letter(e: Byte)
    | Code(e: Byte, digits: seq<Byte>)
    | Gap(pieces: seq<Piece>)
    | Continued(line: Line, pieces: seq<Piece>)

  predicate Valid(v: Option<nat>) {
    v.Some? && !IsSurrogate(v.value) && v.value <= 0x10FFFF
  }

  predicate ItemOk(item: Item) {
    match item
    case Plain(octets) =>
      octets != [] && |octets| == Width(octets[0]) && !IsBlankz(octets) && octets[0] != QUOTE && octets[0] != BACKSLASH
    case Letter(e) => e in ESCAPES
    case Code(e, digits) => |digits| == CodeLength(e) > 0 && Valid(HexValue(digits))
    case Gap(pieces) => pieces != [] && GapOk(pieces)
    case Continued(line, pieces) => GapOk([Break(line)] + pieces)
  }

  function ItemText(item: Item): seq<Byte> {
    match item
    case Plain(octets) => octets
    case Letter(e) => [BACKSLASH, e]
    case Code(e, digits) => [BACKSLASH, e] + digits
    case Gap(pieces) => GapText(pieces)
    case Continued(line, pieces) => [BACKSLASH] + LineText(line) + GapText(pieces)
  }

  /** A line that is continued with a backslash does not fold: the breaks behind it are kept, and no blanks. */
  function ItemValue(item: Item): seq<Byte>
    requires ItemOk(item)
  {
    match item
    case Plain(octets) => octets
    case Letter(e) => Encode(ESCAPES[e])
    case Code(e, digits) => Encode(HexValue(digits).value)
    case Gap(pieces) => GapValue(pieces)
    case Continued(line, pieces) => LineValues(Lines(pieces))
  }

  function ItemColumn(item: Item, column: nat): nat {
    match item
    case Plain(_) => column + 1
    case Letter(_) => column + 2
    case Code(_, digits) => column + 2 + |digits|
    case Gap(pieces) => GapColumn(pieces, column)
    case Continued(_, pieces) => GapColumn(pieces, 0)
  }

  predicate Spacing(item: Item) {
    item.Gap? || item.Continued?
  }

  /** Gaps are as long as they can be. */
  predicate ItemsOk(items: seq<Item>) {
    && (forall i | 0 <= i < |items| :: ItemOk(items[i]))
    && forall i | 0 <= i < |items| - 1 :: Spacing(items[i]) ==> !items[i + 1].Gap?
  }

  function Spelled(items: seq<Item>): seq<Byte> {
    if items == [] then [] else ItemText(items[0]) + Spelled(items[1..])
  }

  function Values(items: seq<Item>): seq<Byte>
    requires forall i | 0 <= i < |items| :: ItemOk(items[i])
  {
    if items == [] then [] else ItemValue(items[0]) + Values(items[1..])
  }

  /** No new line begins like the end or the beginning of a document. */
  predicate NoIndicators(items: seq<Item>, tail: seq<Byte>, column: nat)
    decreases |items|
  {
    items == [] ||
    (var next := ItemColumn(items[0], column);
     && (Spacing(items[0]) && next == 0 ==> !DocumentIndicator(Spelled(items[1..]) + tail))
     && NoIndicators(items[1..], tail, next))
  }

  // ---------------------------------------------------------------- the scanner reads what is spelled

  /** Whether a character is blank does not depend on what follows it. */
  lemma SolidOctets(octets: seq<Byte>, t: seq<Byte>)
    requires octets != [] && |octets| == Width(octets[0])
    ensures IsBlank(octets + t) <==> IsBlank(octets)
    ensures IsBreak(octets + t) <==> IsBreak(octets)
    ensures At(octets + t, 0) == octets[0]
  {
    var s := octets + t;
    assert forall k | 0 <= k < |octets| :: At(s, k) == octets[k] && At(octets, k) == octets[k];
    assert octets[0] == 0xC2 ==> |octets| == 2;
    assert octets[0] == 0xE2 ==> |octets| == 3;
  }

  lemma SolidItem(item: Item, t: seq<Byte>)
    requires ItemOk(item) && !item.Gap?
    ensures var s := ItemText(item) + t; !IsBlank(s) && !IsBreak(s) && At(s, 0) != NUL
  {
    hide LineText, GapText, HexValue, GapOk;
    if item.Plain? {
      SolidOctets(item.octets, t);
    } else {
      assert (ItemText(item) + t)[0] == BACKSLASH;
    }
  }

  /** What comes behind a gap. */
  lemma Solid(items: seq<Item>, tail: seq<Byte>)
    requires ItemsOk(items) && (items != [] ==> !items[0].Gap?) && At(tail, 0) == QUOTE
    ensures var t := Spelled(items) + tail; !IsBlank(t) && !IsBreak(t) && At(t, 0) != NUL
  {
    hide ItemOk, ItemText;
    if items == [] {
      assert Spelled(items) + tail == tail;
    } else {
      assert Spelled(items) + tail == ItemText(items[0]) + (Spelled(items[1..]) + tail);
      SolidItem(items[0], Spelled(items[1..]) + tail);
    }
  }

  /** One item, and what follows it. */
  lemma ItemReads(item: Item, t: seq<Byte>, column: nat)
    requires ItemOk(item) && (Spacing(item) ==> !IsBlank(t) && !IsBreak(t))
    ensures InWord(ItemText(item) + t, column) ==
            Prepend(ItemValue(item),
                    if Spacing(item) then Text(t, ItemColumn(item, column)) else InWord(t, ItemColumn(item, column)))
  {
    hide InWord, InBlanks, GapText, Encode, LetterValue, HexValue;
    match item {
      case Plain(octets) => PlainReads(octets, t, column);
      case Letter(e) => LetterReads(e, t, column);
      case Code(e, digits) => CodeReads(e, digits, t, column);
      case Gap(pieces) =>
        GapStarts(pieces, t, column);
        GapReads(pieces, t, column, []);
        assert [] + Blanks(pieces) == Blanks(pieces);
      case Continued(line, pieces) =>
        ContinuedStarts(line, pieces, t, column);
        LeadingGap(pieces, t, 0, [], [], []);
        assert [] + ([] + LineValues(Lines(pieces))) == LineValues(Lines(pieces));
    }
  }

  lemma PlainReads(octets: seq<Byte>, t: seq<Byte>, column: nat)
    requires ItemOk(Plain(octets))
    ensures InWord(octets + t, column) == Prepend(octets, InWord(t, column + 1))
  {
    hide IsBlank, IsBreak, InBlanks, Width;
    SolidOctets(octets, t);
    var s := octets + t;
    assert s[..|octets|] == octets && s[|octets|..] == t;
    assert At(octets, 0) == octets[0] == At(s, 0);
  }

  lemma LetterReads(e: Byte, t: seq<Byte>, column: nat)
    requires e in ESCAPES
    ensures InWord([BACKSLASH, e] + t, column) == Prepend(Encode(ESCAPES[e]), InWord(t, column + 2))
  {
    hide LetterValue, Encode, InBlanks;
    var s := [BACKSLASH, e] + t;
    LettersExact(e);
    assert s[1..] == [e] + t && s[2..] == t;
    assert !IsBreak([e] + t);
    assert Unescape(s[1..]) == Unescaped(Encode(ESCAPES[e]), 1);
  }

  lemma CodeReads(e: Byte, digits: seq<Byte>, t: seq<Byte>, column: nat)
    requires ItemOk(Code(e, digits))
    ensures InWord([BACKSLASH, e] + digits + t, column) ==
            Prepend(Encode(HexValue(digits).value), InWord(t, column + 2 + |digits|))
  {
    hide LetterValue, Encode, InBlanks, HexValue;
    NumberLetters();
    var s, n := [BACKSLASH, e] + digits + t, |digits|;
    assert s[1..] == [e] + digits + t && s[2 + n..] == t;
    assert s[1..][1..1 + n] == digits;
    assert !IsBreak(s[1..]);
    assert Unescape(s[1..]) == Unescaped(Encode(HexValue(digits).value), 1 + n);
  }

  lemma GapStarts(ps: seq<Piece>, t: seq<Byte>, column: nat)
    requires ps != [] && GapOk(ps) && !IsBreak(t)
    ensures InWord(GapText(ps) + t, column) == InBlanks(GapText(ps) + t, column, false, [], [], [])
  {
    hide InBlanks, PieceText, IsBreak, IsBlank, GapOk;
    BlanksOk(ps);
    NextPiece(ps, t);
    FirstPiece(ps[0], GapText(ps[1..]) + t);
    NotNulGap(GapText(ps) + t);
  }

  lemma NotNulGap(t: seq<Byte>)
    requires IsBlank(t) || IsBreak(t)
    ensures At(t, 0) != NUL
  {
  }

  lemma ContinuedStarts(line: Line, ps: seq<Piece>, t: seq<Byte>, column: nat)
    requires GapOk([Break(line)] + ps) && !IsBreak(t)
    ensures GapOk(ps)
    ensures InWord([BACKSLASH] + LineText(line) + GapText(ps) + t, column) ==
            InBlanks(GapText(ps) + t, 0, true, [], [], [])
  {
    var all, rest := [Break(line)] + ps, GapText(ps) + t;
    hide InBlanks, IsBreak, IsBlank, GapOk, LineText, GapText, BreakLength, BreakValue;
    assert all[1..] == ps;
    NextPiece(all, t);
    FirstPiece(all[0], rest);
    var s := [BACKSLASH] + LineText(line) + GapText(ps) + t;
    assert s[1..] == LineText(line) + rest;
    assert s[1 + BreakLength(s[1..])..] == s[1..][BreakLength(s[1..])..];
    SlashIsSolid(s);
  }

  lemma SlashIsSolid(t: seq<Byte>)
    requires At(t, 0) == BACKSLASH
    ensures !IsBlankz(t) && t != []
  {
  }

  /** At the beginning of a line, or elsewhere in it. */
  lemma TextStarts(t: seq<Byte>, column: nat)
    requires At(t, 0) != NUL && (column == 0 ==> !DocumentIndicator(t))
    ensures Text(t, column) == InWord(t, column)
  {
  }

  /** The items that spell a scalar are read as their values. */
  lemma {:induction false} ItemsRead(items: seq<Item>, rest: seq<Byte>, column: nat)
    requires ItemsOk(items) && NoIndicators(items, [QUOTE] + rest, column)
    ensures InWord(Spelled(items) + ([QUOTE] + rest), column) == Scanned(Values(items), rest)
    decreases |items|
  {
    hide InWord, Text, DocumentIndicator, ItemText, ItemColumn, ItemValue, ItemOk, IsBlank, IsBreak;
    var tail := [QUOTE] + rest;
    if items == [] {
      assert Spelled(items) + tail == tail;
      ReadQuote(tail, column);
    } else {
      var more, next := items[1..], ItemColumn(items[0], column);
      var t := Spelled(more) + tail;
      assert Spelled(items) + tail == ItemText(items[0]) + t;
      assert forall i | 0 <= i < |more| :: more[i] == items[i + 1];
      ItemsRead(more, rest, next);
      if Spacing(items[0]) {
        if more != [] { assert more[0] == items[1]; }
        Solid(more, tail);
        TextStarts(t, next);
      }
      ItemReads(items[0], t, column);
    }
  }

  // ---------------------------------------------------------------- what the scanner reads is spelled

  /** The line break in front. */
  function LineOf(t: seq<Byte>): Line
    requires IsBreak(t)
  {
    if At(t, 0) == LF then LineFeed
    else if At(t, 0) == CR then (if At(t, 1) == LF then ReturnFeed else Return)
    else if At(t, 0) == 0xC2 then NextLine
    else if At(t, 2) == 0xA8 then LineSeparator
    else ParagraphSeparator
  }

  lemma LineIsText(t: seq<Byte>)
    requires IsBreak(t)
    ensures t == LineText(LineOf(t)) + t[BreakLength(t)..] && |LineText(LineOf(t))| == BreakLength(t)
    ensures LineOf(t) == Return ==> At(t[BreakLength(t)..], 0) != LF
  {
    var e := LineText(LineOf(t));
    assert e == match LineOf(t)
                case LineFeed => [LF] case Return => [CR] case ReturnFeed => [CR, LF] case NextLine => [0xC2, 0x85]
                case LineSeparator => [0xE2, 0x80, 0xA8] case ParagraphSeparator => [0xE2, 0x80, 0xA9];
    assert t[..BreakLength(t)] == e;
  }

  /** The longest gap in front. */
  lemma {:induction false} GapOf(t: seq<Byte>) returns (ps: seq<Piece>, rest: seq<Byte>)
    ensures GapOk(ps) && t == GapText(ps) + rest && !IsBlank(rest) && !IsBreak(rest)
    ensures IsBlank(t) || IsBreak(t) ==> ps != []
    decreases |t|
  {
    hide IsBlank, IsBreak, BreakLength, LineText, LineOf, GapText;
    if IsBlank(t) {
      BlankFront(t);
      ps, rest := GapOf(t[1..]);
      GapLonger(Blank(t[0]), ps, rest);
      ps := [Blank(t[0])] + ps;
    } else if IsBreak(t) {
      LineIsText(t);
      ps, rest := GapOf(t[BreakLength(t)..]);
      GapLonger(Break(LineOf(t)), ps, rest);
      ps := [Break(LineOf(t))] + ps;
    } else {
      ps, rest := [], t;
      NoGap(t);
    }
  }

  lemma BlankFront(t: seq<Byte>)
    requires IsBlank(t)
    ensures t != [] && t == [t[0]] + t[1..] && (t[0] == SPACE || t[0] == TAB)
  {
  }

  lemma GapLonger(p: Piece, ps: seq<Piece>, t: seq<Byte>)
    requires GapOk(ps) && (p.Blank? ==> p.b == SPACE || p.b == TAB)
    requires p == Break(Return) ==> At(GapText(ps) + t, 0) != LF
    ensures GapOk([p] + ps) && GapText([p] + ps) + t == PieceText(p) + (GapText(ps) + t)
  {
    hide PieceText, GapText;
    var all := [p] + ps;
    assert all[1..] == ps;
    GapCons(all, t);
    if ps != [] {
      GapCons(ps, t);
      PieceStarts(ps[0]);
      FeedStarts(ps[0]);
    }
    forall i | 0 <= i < |all| - 1 && all[i] == Break(Return) ensures all[i + 1] != Break(LineFeed) {
      if i > 0 { assert ps[i - 1] == Break(Return); }
    }
  }

  lemma FeedStarts(p: Piece)
    ensures p == Break(LineFeed) ==> PieceText(p) == [LF]
  {
  }

  lemma PlainFront(t: seq<Byte>) returns (item: Item, rest: seq<Byte>)
    requires t != [] && !IsBlankz(t) && t[0] != QUOTE && t[0] != BACKSLASH && 0 < Width(t[0]) <= |t|
    ensures ItemOk(item) && item.Plain? && t == ItemText(item) + rest
  {
    var octets := t[..Width(t[0])];
    item, rest := Plain(octets), t[Width(t[0])..];
    SolidOctets(octets, rest);
    assert octets + rest == t;
  }

  lemma EscapeFront(t: seq<Byte>) returns (item: Item, rest: seq<Byte>)
    requires t != [] && t[0] == BACKSLASH && Unescape(t[1..]).Unescaped?
    ensures ItemOk(item) && !Spacing(item) && t == ItemText(item) + rest
  {
    hide LetterValue, HexValue, Encode;
    LettersExact(t[1]);
    if t[1] in ESCAPES {
      item, rest := Letter(t[1]), t[2..];
    } else {
      var n := CodeLength(t[1]);
      item, rest := Code(t[1], t[2..2 + n]), t[2 + n..];
      assert t[1..][1..1 + n] == t[2..2 + n];
    }
  }

  lemma ContinuedFront(t: seq<Byte>) returns (item: Item, rest: seq<Byte>)
    requires t != [] && t[0] == BACKSLASH && IsBreak(t[1..])
    ensures ItemOk(item) && item.Continued? && t == ItemText(item) + rest && !IsBlank(rest) && !IsBreak(rest)
  {
    hide IsBlank, IsBreak, BreakLength, LineText, LineOf, GapText, GapOk;
    var after, ps := t[1..], [];
    LineIsText(after);
    ps, rest := GapOf(after[BreakLength(after)..]);
    GapLonger(Break(LineOf(after)), ps, rest);
    item := Continued(LineOf(after), ps);
    assert t == [BACKSLASH] + after;
  }

  lemma FirstItem(t: seq<Byte>, column: nat) returns (item: Item, rest: seq<Byte>)
    requires InWord(t, column).Scanned? && At(t, 0) != QUOTE
    ensures ItemOk(item) && t == ItemText(item) + rest && (Spacing(item) ==> !IsBlank(rest) && !IsBreak(rest))
    ensures |rest| < |t|
  {
    hide InBlanks, Unescape, Width, IsBreak, IsBlank, GapText, LineText;
    if IsBlankz(t) {
      var ps;
      ps, rest := GapOf(t);
      item := Gap(ps);
      GapTakes(ps, rest);
    } else if t[0] == BACKSLASH {
      if IsBreak(t[1..]) {
        item, rest := ContinuedFront(t);
      } else {
        item, rest := EscapeFront(t);
      }
    } else {
      item, rest := PlainFront(t);
    }
  }

  lemma GapTakes(ps: seq<Piece>, t: seq<Byte>)
    requires ps != [] && GapOk(ps)
    ensures |GapText(ps) + t| > |t|
  {
    hide PieceText;
    PieceStarts(ps[0]);
    GapCons(ps, t);
  }

  lemma GapShows(items: seq<Item>, tail: seq<Byte>)
    requires items != [] && ItemOk(items[0]) && items[0].Gap?
    requires At(Spelled(items[1..]) + tail, 0) != LF
    ensures var t := Spelled(items) + tail; IsBlank(t) || IsBreak(t)
  {
    hide PieceText, IsBlank, IsBreak, BreakLength, BreakValue;
    var ps, rest := items[0].pieces, Spelled(items[1..]) + tail;
    assert Spelled(items) + tail == GapText(ps) + rest;
    GapTail(ps);
    GapCons(ps, rest);
    var more := ps[1..];
    if more == [] {
      NoGap(rest);
    } else {
      BlanksOk(more);
      PieceStarts(more[0]);
      GapCons(more, rest);
    }
    FirstPiece(ps[0], GapText(more) + rest);
  }

  lemma TextInWord(t: seq<Byte>, column: nat)
    requires Text(t, column).Scanned?
    ensures InWord(t, column) == Text(t, column) && (column == 0 ==> !DocumentIndicator(t))
  {
  }

  lemma {:induction false} ItemsOf(t: seq<Byte>, column: nat, v: seq<Byte>, rest: seq<Byte>) returns (items: seq<Item>)
    requires InWord(t, column) == Scanned(v, rest)
    ensures ItemsOk(items) && t == Spelled(items) + ([QUOTE] + rest) && Values(items) == v
    ensures NoIndicators(items, [QUOTE] + rest, column)
    decreases |t|
  {
    hide InWord, Text, DocumentIndicator, ItemText, ItemColumn, ItemValue, ItemOk, IsBlank, IsBreak;
    if At(t, 0) == QUOTE {
      ReadQuote(t, column);
      items := [];
      assert t == [QUOTE] + t[1..];
    } else {
      var item, more := FirstItem(t, column);
      var next := ItemColumn(item, column);
      ItemReads(item, more, column);
      if Spacing(item) { TextInWord(more, next); }
      var others := ItemsOf(more, next, InWord(more, next).value, rest);
      items := [item] + others;
      ItemsLonger(item, others, [QUOTE] + rest);
    }
  }

  lemma ItemsLonger(item: Item, others: seq<Item>, tail: seq<Byte>)
    requires ItemOk(item) && ItemsOk(others) && At(tail, 0) == QUOTE
    requires Spacing(item) ==> !IsBlank(Spelled(others) + tail) && !IsBreak(Spelled(others) + tail)
    ensures ItemsOk([item] + others) && ([item] + others)[1..] == others
    ensures Spelled([item] + others) + tail == ItemText(item) + (Spelled(others) + tail)
  {
    hide ItemOk, ItemText, IsBlank, IsBreak;
    var all := [item] + others;
    assert all[1..] == others;
    if Spacing(item) && others != [] && others[0].Gap? {
      NotFeed(others, tail);
      GapShows(others, tail);
    }
    forall i | 0 <= i < |all| - 1 && Spacing(all[i]) ensures !all[i + 1].Gap? {
      if i > 0 { assert all[i] == others[i - 1] && all[i + 1] == others[i]; }
    }
  }

  lemma NotFeed(items: seq<Item>, tail: seq<Byte>)
    requires ItemsOk(items) && items != [] && items[0].Gap? && At(tail, 0) == QUOTE
    ensures At(Spelled(items[1..]) + tail, 0) != LF
  {
    hide ItemOk, ItemText, IsBlank;
    var more := items[1..];
    assert forall i | 0 <= i < |more| :: more[i] == items[i + 1];
    if more != [] { assert more[0] == items[1]; }
    Solid(more, tail);
  }

  /** These items, and the quote behind them, spell the text. */
  predicate Spells(items: seq<Item>, t: seq<Byte>, column: nat, rest: seq<Byte>) {
    && ItemsOk(items) && t == Spelled(items) + ([QUOTE] + rest)
    && (column == 0 ==> !DocumentIndicator(t)) && NoIndicators(items, [QUOTE] + rest, column)
  }

  /** The text is spelled by items that have this value. */
  ghost predicate StandsFor(t: seq<Byte>, column: nat, v: seq<Byte>, rest: seq<Byte>) {
    exists items :: Spells(items, t, column, rest) && Values(items) == v
  }

  ghost predicate IsScalar(t: seq<Byte>, column: nat) {
    exists v, rest :: StandsFor(t, column, v, rest)
  }

  /** A value is read from a text exactly if the text stands for it. */
  lemma TextExact(t: seq<Byte>, column: nat, v: seq<Byte>, rest: seq<Byte>)
    ensures Text(t, column) == Scanned(v, rest) <==> StandsFor(t, column, v, rest)
  {
    hide InWord, Text, DocumentIndicator, ItemOk, NoIndicators;
    if Text(t, column) == Scanned(v, rest) {
      TextInWord(t, column);
      var items := ItemsOf(t, column, v, rest);
      assert Spells(items, t, column, rest);
    }
    if items :| Spells(items, t, column, rest) && Values(items) == v {
      ItemsRead(items, rest, column);
      NotNulText(items, t, column, rest);
      TextStarts(t, column);
    }
  }

  lemma NotNulText(items: seq<Item>, t: seq<Byte>, column: nat, rest: seq<Byte>)
    requires Spells(items, t, column, rest)
    ensures At(t, 0) != NUL
  {
    hide ItemOk, ItemText;
    var tail := [QUOTE] + rest;
    if items != [] && items[0].Gap? {
      NotFeed(items, tail);
      GapShows(items, tail);
      NotNulGap(t);
    } else {
      Solid(items, tail);
    }
  }
}
