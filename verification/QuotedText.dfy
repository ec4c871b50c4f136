/**
 Double-quoted scalars: what the emitter writes for a value and what the scanner reads from a
 text, as functions. The scanner reads every value back from what the emitter wrote for it.
 */
module QuotedText {
  import opened Wrappers
  import opened Utf8

  const NUL: Byte := 0
  const TAB: Byte := 9
  const LF: Byte := 10
  const CR: Byte := 13
  const SPACE: Byte := 32
  const QUOTE: Byte := 34
  const BACKSLASH: Byte := 92

  // ---------------------------------------------------------------- classes of characters

  /** An octet of the text. The reader ends its text with NUL. */
  function At(t: seq<Byte>, i: nat): Byte {
    if i < |t| then t[i] else NUL
  }

  predicate IsBlank(t: seq<Byte>) {
    At(t, 0) == SPACE || At(t, 0) == TAB
  }

  predicate IsBreak(t: seq<Byte>) {
    || At(t, 0) == CR || At(t, 0) == LF
    || (At(t, 0) == 0xC2 && At(t, 1) == 0x85)
    || (At(t, 0) == 0xE2 && At(t, 1) == 0x80 && (At(t, 2) == 0xA8 || At(t, 2) == 0xA9))
  }

  predicate IsBlankz(t: seq<Byte>) {
    IsBlank(t) || IsBreak(t) || At(t, 0) == NUL
  }

  /** The character in front can stand unescaped. */
  predicate IsPrintable(t: seq<Byte>) {
    || At(t, 0) == 0x0A
    || 0x20 <= At(t, 0) <= 0x7E
    || (At(t, 0) == 0xC2 && At(t, 1) >= 0xA0)
    || 0xC2 < At(t, 0) < 0xED
    || (At(t, 0) == 0xED && At(t, 1) < 0xA0)
    || At(t, 0) == 0xEE
    || (At(t, 0) == 0xEF && !(At(t, 1) == 0xBB && At(t, 2) == 0xBF) &&
        !(At(t, 1) == 0xBF && (At(t, 2) == 0xBE || At(t, 2) == 0xBF)))
  }

  predicate IsBom(t: seq<Byte>) {
    At(t, 0) == 0xEF && At(t, 1) == 0xBB && At(t, 2) == 0xBF
  }

  /** Line breaks, by character. */
  predicate BreakPoint(c: CodePoint) {
    c == 0x0A || c == 0x0D || c == 0x85 || c == 0x2028 || c == 0x2029
  }

  /** What can stand unescaped, by character: nothing beyond the basic plane. */
  predicate PrintablePoint(c: CodePoint) {
    c == 0x0A || 0x20 <= c <= 0x7E || (0xA0 <= c <= 0xFFFD && c != 0xFEFF)
  }

  lemma BreakIsPoint(c: CodePoint, rest: seq<Byte>)
    ensures IsBreak(Encode(c) + rest) <==> BreakPoint(c)
  {
    hide Encode;
    Octets(c);
    var e, t := Encode(c), Encode(c) + rest;
    assert forall k | 0 <= k < |e| :: At(t, k) == e[k];
  }

  lemma PrintableIsPoint(c: CodePoint, rest: seq<Byte>)
    ensures IsPrintable(Encode(c) + rest) <==> PrintablePoint(c)
  {
    hide Encode;
    Octets(c);
    var e, t := Encode(c), Encode(c) + rest;
    assert forall k | 0 <= k < |e| :: At(t, k) == e[k];
    if 0x7FF < c <= 0xFFFF {
      PrintableThree(c);
    }
  }

  lemma PrintableThree(c: CodePoint)
    requires 0x7FF < c <= 0xFFFF
    ensures 0xE0 <= 0xE0 + c / 0x1000 <= 0xEF
    ensures c / 0x1000 == 13 ==> 0x80 + c / 0x40 % 0x40 < 0xA0
    ensures c == 0xFEFF <==> c / 0x1000 == 15 && 0x80 + c / 0x40 % 0x40 == 0xBB && 0x80 + c % 0x40 == 0xBF
    ensures c > 0xFFFD <==> c / 0x1000 == 15 && 0x80 + c / 0x40 % 0x40 == 0xBF && 0x80 + c % 0x40 >= 0xBE
  {
    Sextets(c);
    Sextets(c / 0x40);
    if c / 0x1000 == 13 { BelowSurrogates(c); }
  }

  lemma BelowSurrogates(c: CodePoint)
    requires c / 0x1000 == 13
    ensures c / 0x40 % 0x40 < 0x20
  {
    assert !IsSurrogate(c);
    assert 13 * 0x40 <= c / 0x40 < 13 * 0x40 + 0x20;
  }

  // ---------------------------------------------------------------- escapes

  function Ascii(c: char): Byte
    requires c < 256 as char
  {
    c as int
  }

  /** The one-letter escapes of the emitter. */
  function EscapeLetter(c: CodePoint): Option<Byte> {
    if c == 0x00 then Some(Ascii('0'))
    else if c == 0x07 then Some(Ascii('a'))
    else if c == 0x08 then Some(Ascii('b'))
    else if c == 0x09 then Some(Ascii('t'))
    else if c == 0x0A then Some(Ascii('n'))
    else if c == 0x0B then Some(Ascii('v'))
    else if c == 0x0C then Some(Ascii('f'))
    else if c == 0x0D then Some(Ascii('r'))
    else if c == 0x1B then Some(Ascii('e'))
    else if c == 0x22 then Some(QUOTE)
    else if c == 0x5C then Some(BACKSLASH)
    else if c == 0x85 then Some(Ascii('N'))
    else if c == 0xA0 then Some(Ascii('_'))
    else if c == 0x2028 then Some(Ascii('L'))
    else if c == 0x2029 then Some(Ascii('P'))
    else None
  }

  function HexDigit(d: nat): Byte
    requires d < 16
  {
    if d < 10 then 48 + d else 65 + d - 10
  }

  /** The last `n` hexadecimal digits of a number. */
  function Hex(v: nat, n: nat): (s: seq<Byte>)
    ensures |s| == n
  {
    if n == 0 then [] else Hex(v / 16, n - 1) + [HexDigit(v % 16)]
  }

  /** What follows the backslash for an escaped character. */
  function EscapeOf(c: CodePoint): (s: seq<Byte>)
    ensures s != []
  {
    match EscapeLetter(c)
    case Some(e) => [e]
    case None =>
      if c <= 0xFF then [Ascii('x')] + Hex(c, 2)
      else if c <= 0xFFFF then [Ascii('u')] + Hex(c, 4)
      else [Ascii('U')] + Hex(c, 8)
  }

  /** The one-letter escapes of the scanner. */
  function LetterValue(e: Byte): Option<seq<Byte>> {
    if e == 48 then Some([0])
    else if e == 97 then Some([7])
    else if e == 98 then Some([8])
    else if e == 116 || e == TAB then Some([9])
    else if e == 110 then Some([10])
    else if e == 118 then Some([11])
    else if e == 102 then Some([12])
    else if e == 114 then Some([13])
    else if e == 101 then Some([27])
    else if e == SPACE then Some([SPACE])
    else if e == QUOTE then Some([QUOTE])
    else if e == 39 then Some([39])
    else if e == BACKSLASH then Some([BACKSLASH])
    else if e == 78 then Some([0xC2, 0x85])
    else if e == 95 then Some([0xC2, 0xA0])
    else if e == 76 then Some([0xE2, 0x80, 0xA8])
    else if e == 80 then Some([0xE2, 0x80, 0xA9])
    else None
  }

  function CodeLength(e: Byte): nat {
    if e == 120 then 2 else if e == 117 then 4 else if e == 85 then 8 else 0
  }

  function AsHex(b: Byte): Option<nat> {
    if 65 <= b <= 70 then Some(b - 65 + 10)
    else if 97 <= b <= 102 then Some(b - 97 + 10)
    else if 48 <= b <= 57 then Some(b - 48)
    else None
  }

  /** The number that hexadecimal digits stand for. */
  function HexValue(s: seq<Byte>): Option<nat> {
    if s == [] then Some(0)
    else
      match (HexValue(s[..|s| - 1]), AsHex(s[|s| - 1]))
      case (Some(v), Some(d)) => Some(v * 16 + d)
      case _ => None
  }

  datatype Unescaped = BadEscape | Unescaped(value: seq<Byte>, length: nat)

  /** The escape sequence at the front, behind the backslash. */
  function Unescape(t: seq<Byte>): (u: Unescaped)
    ensures u.Unescaped? ==> 1 <= u.length <= |t|
  {
    if t == [] then BadEscape
    else
      match LetterValue(t[0])
      case Some(v) => Unescaped(v, 1)
      case None =>
        var n := CodeLength(t[0]);
        if n == 0 || |t| < 1 + n then BadEscape
        else
          match HexValue(t[1..1 + n])
          case None => BadEscape
          case Some(v) => if IsSurrogate(v) || v > 0x10FFFF then BadEscape else Unescaped(Encode(v), 1 + n)
  }

  function Pow16(n: nat): (p: nat)
    ensures p >= 1
  {
    if n == 0 then 1 else 16 * Pow16(n - 1)
  }

  lemma {:induction false} HexRoundTrip(v: nat, n: nat)
    requires v < Pow16(n)
    ensures HexValue(Hex(v, n)) == Some(v)
  {
    if n > 0 {
      HexRoundTrip(v / 16, n - 1);
      var s := Hex(v, n);
      assert s[..|s| - 1] == Hex(v / 16, n - 1);
      assert AsHex(HexDigit(v % 16)) == Some(v % 16);
    }
  }

  lemma Powers()
    ensures Pow16(2) == 0x100 && Pow16(4) == 0x10000 && Pow16(8) == 0x1_0000_0000
  {
  }

  lemma LetterRoundTrip(c: CodePoint)
    requires EscapeLetter(c).Some?
    ensures LetterValue(EscapeLetter(c).value) == Some(Encode(c))
  {
  }

  lemma NumberRoundTrip(c: CodePoint, letter: Byte, n: nat, rest: seq<Byte>)
    requires LetterValue(letter).None? && CodeLength(letter) == n > 0 && c < Pow16(n)
    ensures Unescape([letter] + Hex(c, n) + rest) == Unescaped(Encode(c), 1 + n)
  {
    HexRoundTrip(c, n);
    assert ([letter] + Hex(c, n) + rest)[1..1 + n] == Hex(c, n);
  }

  /** The scanner reads an escape as the character it was written for. */
  lemma EscapeRoundTrip(c: CodePoint, rest: seq<Byte>)
    ensures Unescape(EscapeOf(c) + rest) == Unescaped(Encode(c), |EscapeOf(c)|)
  {
    hide LetterValue, Encode, Hex, HexValue;
    if EscapeLetter(c).Some? {
      LetterRoundTrip(c);
    } else {
      Powers();
      NumberLetters();
      if c <= 0xFF {
        NumberRoundTrip(c, 120, 2, rest);
      } else if c <= 0xFFFF {
        NumberRoundTrip(c, 117, 4, rest);
      } else {
        NumberRoundTrip(c, 85, 8, rest);
      }
    }
  }

  lemma NumberLetters()
    ensures LetterValue(120).None? && LetterValue(117).None? && LetterValue(85).None?
  {
  }

  // ---------------------------------------------------------------- the scanner

  datatype Scanned = ScanError | Scanned(value: seq<Byte>, rest: seq<Byte>)

  function Prepend(s: seq<Byte>, r: Scanned): Scanned {
    match r case ScanError => ScanError case Scanned(v, rest) => Scanned(s + v, rest)
  }

  lemma PrependTwice(a: seq<Byte>, b: seq<Byte>, r: Scanned)
    ensures Prepend(a, Prepend(b, r)) == Prepend(a + b, r)
  {
  }

  predicate DocumentIndicator(t: seq<Byte>) {
    && ((At(t, 0) == 45 && At(t, 1) == 45 && At(t, 2) == 45) || (At(t, 0) == 46 && At(t, 1) == 46 && At(t, 2) == 46))
    && IsBlankz(t[Min(3, |t|)..])
  }

  function Min(a: nat, b: nat): (m: nat)
    ensures m <= a && m <= b
  {
    if a < b then a else b
  }

  /** A line break in front: how many octets it takes. */
  function BreakLength(t: seq<Byte>): (w: nat)
    requires IsBreak(t)
    ensures 1 <= w <= |t|
  {
    if At(t, 0) == CR && At(t, 1) == LF then 2
    else if At(t, 0) == CR || At(t, 0) == LF then 1
    else if At(t, 0) == 0xC2 then 2
    else 3
  }

  /** What a line break is read as: the Unicode separators stay, the others become LF. */
  function BreakValue(t: seq<Byte>): seq<Byte>
    requires IsBreak(t)
  {
    if At(t, 0) == 0xE2 then t[..3] else [LF]
  }

  /** Blanks and breaks between two words. */
  function Join(leading: bool, whitespaces: seq<Byte>, leadingBreak: seq<Byte>, trailingBreaks: seq<Byte>): seq<Byte> {
    if !leading then whitespaces
    else if leadingBreak != [] && leadingBreak[0] == LF then (if trailingBreaks == [] then [SPACE] else trailingBreaks)
    else leadingBreak + trailingBreaks
  }

  /** At the top of the scanner's loop, in the given column. */
  function Text(t: seq<Byte>, column: nat): Scanned
    decreases |t|, 2
  {
    if column == 0 && DocumentIndicator(t) then ScanError
    else if At(t, 0) == NUL then ScanError
    else InWord(t, column)
  }

  /** Among characters that are not blank. */
  function InWord(t: seq<Byte>, column: nat): Scanned
    decreases |t|, 1
  {
    if At(t, 0) == NUL then ScanError
    else if IsBlankz(t) then InBlanks(t, column, false, [], [], [])
    else if t[0] == QUOTE then Scanned([], t[1..])
    else if t[0] == BACKSLASH then
      if IsBreak(t[1..]) then InBlanks(t[1 + BreakLength(t[1..])..], 0, true, [], [], [])
      else
        var u := Unescape(t[1..]);
        if u.BadEscape? then ScanError else Prepend(u.value, InWord(t[1 + u.length..], column + 1 + u.length))
    else
      var w := Width(t[0]);
      if w == 0 || w > |t| then ScanError else Prepend(t[..w], InWord(t[w..], column + 1))
  }

  /** Among blanks and breaks. */
  function InBlanks(t: seq<Byte>, column: nat, leading: bool,
                    whitespaces: seq<Byte>, leadingBreak: seq<Byte>, trailingBreaks: seq<Byte>): Scanned
    decreases |t|, if IsBlank(t) || IsBreak(t) then 0 else 3
  {
    if IsBlank(t) then
      var blanks := if leading then whitespaces else whitespaces + [t[0]];
      InBlanks(t[1..], column + 1, leading, blanks, leadingBreak, trailingBreaks)
    else if IsBreak(t) then
      var rest := t[BreakLength(t)..];
      if leading then InBlanks(rest, 0, true, whitespaces, leadingBreak, trailingBreaks + BreakValue(t))
      else InBlanks(rest, 0, true, [], leadingBreak + BreakValue(t), trailingBreaks)
    else Prepend(Join(leading, whitespaces, leadingBreak, trailingBreaks), Text(t, column))
  }

  // ---------------------------------------------------------------- the emitter

  datatype LineBreak = BreakCR | BreakLF | BreakCRLF

  function BreakOf(b: LineBreak): seq<Byte> {
    match b
    case BreakCR => [CR]
    case BreakLF => [LF]
    case BreakCRLF => [CR, LF]
  }

  datatype Style = Style(unicode: bool, allowBreaks: bool, bestWidth: int, indent: nat, lineBreak: LineBreak)

  /** Whether the character in front of `v` is escaped; `bom`: the whole value begins with a byte order mark. */
  predicate Escaped(st: Style, bom: bool, v: seq<Byte>) {
    || !IsPrintable(v) || (!st.unicode && At(v, 0) > 0x7F) || bom || IsBreak(v)
    || At(v, 0) == QUOTE || At(v, 0) == BACKSLASH
  }

  predicate Folds(st: Style, cs: seq<CodePoint>, first: bool, spaces: bool, column: int) {
    st.allowBreaks && !spaces && column > st.bestWidth && !first && |cs| > 1
  }

  function Spaces(n: nat): (s: seq<Byte>)
    ensures |s| == n && forall i | 0 <= i < n :: s[i] == SPACE
  {
    seq(n, _ => SPACE)
  }

  /** A new line in place of a space; a space behind it is escaped. */
  function FoldOf(st: Style, next: CodePoint): seq<Byte> {
    BreakOf(st.lineBreak) + Spaces(st.indent) + if next == SPACE then [BACKSLASH] else []
  }

  /** What is written for the rest `cs` of a value. */
  function Written(st: Style, bom: bool, cs: seq<CodePoint>, first: bool, spaces: bool, column: int): seq<Byte>
    decreases |cs|
  {
    if cs == [] then []
    else if Escaped(st, bom, EncodeAll(cs)) then
      [BACKSLASH] + EscapeOf(cs[0]) + Written(st, bom, cs[1..], false, false, column + 1 + |EscapeOf(cs[0])|)
    else if cs[0] == SPACE then
      if Folds(st, cs, first, spaces, column) then
        FoldOf(st, cs[1]) + Written(st, bom, cs[1..], false, true, st.indent + if cs[1] == SPACE then 1 else 0)
      else [SPACE] + Written(st, bom, cs[1..], false, true, column + 1)
    else Encode(cs[0]) + Written(st, bom, cs[1..], false, false, column + 1)
  }

  /** The whole scalar, with its quotes; the first quote ends in the given column. */
  function Quoted(st: Style, cs: seq<CodePoint>, column: int): seq<Byte> {
    [QUOTE] + Written(st, IsBom(EncodeAll(cs)), cs, true, false, column) + [QUOTE]
  }

  // ---------------------------------------------------------------- the scanner undoes the emitter

  lemma EscapeStarts(c: CodePoint, rest: seq<Byte>)
    ensures var t := EscapeOf(c) + rest; !IsBreak(t)
  {
  }

  lemma ReadEscape(c: CodePoint, rest: seq<Byte>, column: nat)
    ensures InWord([BACKSLASH] + EscapeOf(c) + rest, column) ==
              Prepend(Encode(c), InWord(rest, column + 1 + |EscapeOf(c)|))
  {
    hide EscapeOf, Unescape, Encode;
    EscapeRoundTrip(c, rest);
    EscapeStarts(c, rest);
    var t := [BACKSLASH] + EscapeOf(c) + rest;
    assert t[1..] == EscapeOf(c) + rest;
    assert t[1 + |EscapeOf(c)|..] == rest;
  }

  lemma ReadPlain(st: Style, c: CodePoint, tail: seq<Byte>, rest: seq<Byte>, column: nat)
    requires !Escaped(st, false, Encode(c) + tail) && c != SPACE
    ensures InWord(Encode(c) + rest, column) == Prepend(Encode(c), InWord(rest, column + 1))
    ensures !IsBlankz(Encode(c) + rest)
  {
    hide EscapeOf, Unescape, Encode, IsPrintable, IsBreak;
    var t := Encode(c) + rest;
    Octets(c);
    EncodeParts(c);
    BreakIsPoint(c, tail);
    BreakIsPoint(c, rest);
    PrintableIsPoint(c, tail);
    assert t[..|Encode(c)|] == Encode(c) && t[|Encode(c)|..] == rest;
    assert At(t, 0) == At(Encode(c) + tail, 0);
  }

  /** Blanks at the start of a folded line are skipped. */
  lemma {:induction false} SkipIndent(n: nat, t: seq<Byte>, column: nat, ws: seq<Byte>, lb: seq<Byte>, tb: seq<Byte>)
    ensures InBlanks(Spaces(n) + t, column, true, ws, lb, tb) == InBlanks(t, column + n, true, ws, lb, tb)
    decreases n
  {
    if n == 0 {
      assert Spaces(n) + t == t;
    } else {
      var s := Spaces(n) + t;
      assert s[0] == SPACE;
      assert s[1..] == Spaces(n - 1) + t;
      SkipIndent(n - 1, t, column + 1, ws, lb, tb);
    }
  }

  /** The break of a fold and the indentation behind it. */
  lemma ReadFold(st: Style, t: seq<Byte>, column: nat)
    requires st.indent >= 1
    ensures InWord(BreakOf(st.lineBreak) + Spaces(st.indent) + t, column) == InBlanks(t, st.indent, true, [], [LF], [])
  {
    var b, s := BreakOf(st.lineBreak), BreakOf(st.lineBreak) + Spaces(st.indent) + t;
    assert s[|b|] == SPACE;
    assert s[0] == b[0];
    assert |b| == 2 ==> s[1] == b[1];
    assert IsBreak(s) && BreakLength(s) == |b| && BreakValue(s) == [LF];
    assert s[|b|..] == Spaces(st.indent) + t;
    assert InWord(s, column) == InBlanks(s, column, false, [], [], []);
    assert [] + [LF] == [LF];
    SkipIndent(st.indent, t, 0, [], [LF], []);
  }

  /** Blanks end where something else begins. */
  lemma BlanksEnd(t: seq<Byte>, column: nat, leading: bool, ws: seq<Byte>, lb: seq<Byte>, tb: seq<Byte>)
    requires !IsBlankz(t) && column >= 1
    ensures InBlanks(t, column, leading, ws, lb, tb) == Prepend(Join(leading, ws, lb, tb), InWord(t, column))
  {
  }

  /** What is written for a value up to the closing quote, and what follows it. */
  function Tail(st: Style, bom: bool, cs: seq<CodePoint>, first: bool, spaces: bool, column: int,
                rest: seq<Byte>): seq<Byte>
  {
    Written(st, bom, cs, first, spaces, column) + ([QUOTE] + rest)
  }

  lemma TailEscaped(st: Style, bom: bool, cs: seq<CodePoint>, first: bool, spaces: bool, col: int, rest: seq<Byte>)
    requires cs != [] && Escaped(st, bom, EncodeAll(cs))
    ensures Tail(st, bom, cs, first, spaces, col, rest) ==
            [BACKSLASH] + EscapeOf(cs[0]) + Tail(st, bom, cs[1..], false, false, col + 1 + |EscapeOf(cs[0])|, rest)
  {
    hide Escaped, EscapeOf;
  }

  lemma TailPlain(st: Style, bom: bool, cs: seq<CodePoint>, first: bool, spaces: bool, col: int, rest: seq<Byte>)
    requires cs != [] && !Escaped(st, bom, EncodeAll(cs)) && cs[0] != SPACE
    ensures Tail(st, bom, cs, first, spaces, col, rest) ==
              Encode(cs[0]) + Tail(st, bom, cs[1..], false, false, col + 1, rest)
  {
  }

  lemma TailSpace(st: Style, bom: bool, cs: seq<CodePoint>, first: bool, spaces: bool, col: int, rest: seq<Byte>)
    requires cs != [] && !Escaped(st, bom, EncodeAll(cs)) && cs[0] == SPACE && !Folds(st, cs, first, spaces, col)
    ensures Tail(st, bom, cs, first, spaces, col, rest) == [SPACE] + Tail(st, bom, cs[1..], false, true, col + 1, rest)
  {
  }

  lemma TailFold(st: Style, bom: bool, cs: seq<CodePoint>, first: bool, spaces: bool, col: int, rest: seq<Byte>)
    requires |cs| > 1 && !Escaped(st, bom, EncodeAll(cs)) && cs[0] == SPACE && Folds(st, cs, first, spaces, col)
    ensures Tail(st, bom, cs, first, spaces, col, rest) ==
            FoldOf(st, cs[1]) + Tail(st, bom, cs[1..], false, true, st.indent + if cs[1] == SPACE then 1 else 0, rest)
  {
    hide Escaped, Folds, Encode, EncodeAll, FoldOf, BreakOf;
    var col' := st.indent + if cs[1] == SPACE then 1 else 0;
    var w := Written(st, bom, cs[1..], false, true, col');
    assert Written(st, bom, cs, first, spaces, col) == FoldOf(st, cs[1]) + w;
    assert (FoldOf(st, cs[1]) + w) + ([QUOTE] + rest) == FoldOf(st, cs[1]) + (w + ([QUOTE] + rest));
  }

  lemma SpaceStays(st: Style, cs: seq<CodePoint>)
    requires cs != [] && cs[0] == SPACE
    ensures !Escaped(st, false, EncodeAll(cs))
  {
  }

  lemma TailSolid(st: Style, bom: bool, cs: seq<CodePoint>, first: bool, spaces: bool, col: int, rest: seq<Byte>)
    requires cs == [] || cs[0] != SPACE
    ensures !IsBlankz(Tail(st, bom, cs, first, spaces, col, rest))
  {
    hide Encode, EscapeOf, Tail, Escaped;
    if cs == [] {
      TailEnd(st, bom, first, spaces, col, rest);
    } else if Escaped(st, bom, EncodeAll(cs)) {
      TailEscaped(st, bom, cs, first, spaces, col, rest);
    } else {
      TailPlain(st, bom, cs, first, spaces, col, rest);
      NotEscaped(st, bom, EncodeAll(cs));
      ReadPlain(st, cs[0], EncodeAll(cs[1..]), Tail(st, bom, cs[1..], false, false, col + 1, rest), 0);
    }
  }

  lemma TailEnd(st: Style, bom: bool, first: bool, spaces: bool, col: int, rest: seq<Byte>)
    ensures var t := Tail(st, bom, [], first, spaces, col, rest); t != [] && t[0] == QUOTE && t[1..] == rest
  {
  }

  /** In a word, the scanner reads the rest of the value. */
  lemma {:induction false} ReadWord(st: Style, bom: bool, cs: seq<CodePoint>, first: bool, spaces: bool, col: int,
                                    rest: seq<Byte>, column: nat)
    requires st.indent >= 1
    ensures InWord(Tail(st, bom, cs, first, spaces, col, rest), column) == Scanned(EncodeAll(cs), rest)
    decreases |cs|, 1
  {
    hide Encode, EscapeOf, InBlanks, InWord, Folds, FoldOf, Escaped, Tail, Written;
    var t := Tail(st, bom, cs, first, spaces, col, rest);
    if cs == [] {
      TailEnd(st, bom, first, spaces, col, rest);
      ReadQuote(t, column);
    } else if Escaped(st, bom, EncodeAll(cs)) {
      var c := col + 1 + |EscapeOf(cs[0])|;
      TailEscaped(st, bom, cs, first, spaces, col, rest);
      ReadEscape(cs[0], Tail(st, bom, cs[1..], false, false, c, rest), column);
      ReadWord(st, bom, cs[1..], false, false, c, rest, column + 1 + |EscapeOf(cs[0])|);
    } else if cs[0] != SPACE {
      TailPlain(st, bom, cs, first, spaces, col, rest);
      NotEscaped(st, bom, EncodeAll(cs));
      ReadPlain(st, cs[0], EncodeAll(cs[1..]), Tail(st, bom, cs[1..], false, false, col + 1, rest), column);
      ReadWord(st, bom, cs[1..], false, false, col + 1, rest, column + 1);
    } else if Folds(st, cs, first, spaces, col) {
      ReadFolded(st, bom, cs, first, spaces, col, rest, column);
    } else {
      TailSpace(st, bom, cs, first, spaces, col, rest);
      FirstBlank(Tail(st, bom, cs[1..], false, true, col + 1, rest), column);
      NotEscaped(st, bom, EncodeAll(cs));
      ReadBlanks(st, bom, cs[1..], col + 1, rest, column + 1, [SPACE]);
      SpacePoint();
    }
  }

  lemma ReadQuote(t: seq<Byte>, column: nat)
    requires t != [] && t[0] == QUOTE
    ensures InWord(t, column) == Scanned([], t[1..])
  {
  }

  lemma NotEscaped(st: Style, bom: bool, v: seq<Byte>)
    requires !Escaped(st, bom, v)
    ensures !Escaped(st, false, v) && !bom
  {
  }

  lemma SpacePoint()
    ensures Encode(SPACE) == [SPACE]
  {
  }

  lemma FirstBlank(t: seq<Byte>, column: nat)
    ensures InWord([SPACE] + t, column) == InBlanks(t, column + 1, false, [SPACE], [], [])
  {
    var s := [SPACE] + t;
    assert s[1..] == t && [] + [SPACE] == [SPACE];
    assert InWord(s, column) == InBlanks(s, column, false, [], [], []);
  }

  lemma NextBlank(t: seq<Byte>, column: nat, ws: seq<Byte>)
    ensures InBlanks([SPACE] + t, column, false, ws, [], []) == InBlanks(t, column + 1, false, ws + [SPACE], [], [])
  {
  }

  /** Behind spaces that were written as they are. */
  lemma {:induction false} ReadBlanks(st: Style, bom: bool, cs: seq<CodePoint>, col: int, rest: seq<Byte>, column: nat,
                                      ws: seq<Byte>)
    requires st.indent >= 1 && column >= 1 && !bom
    ensures InBlanks(Tail(st, bom, cs, false, true, col, rest), column, false, ws, [], []) ==
              Scanned(ws + EncodeAll(cs), rest)
    decreases |cs|, 2
  {
    hide Encode, EscapeOf, InBlanks, InWord, Tail, Escaped;
    var t := Tail(st, bom, cs, false, true, col, rest);
    if cs == [] || cs[0] != SPACE {
      TailSolid(st, bom, cs, false, true, col, rest);
      BlanksEnd(t, column, false, ws, [], []);
      ReadWord(st, bom, cs, false, true, col, rest, column);
    } else {
      SpacePoint();
      SpaceStays(st, cs);
      TailSpace(st, bom, cs, false, true, col, rest);
      NextBlank(Tail(st, bom, cs[1..], false, true, col + 1, rest), column, ws);
      ReadBlanks(st, bom, cs[1..], col + 1, rest, column + 1, ws + [SPACE]);
      assert (ws + [SPACE]) + EncodeAll(cs[1..]) == ws + ([SPACE] + EncodeAll(cs[1..]));
    }
  }

  /** A folded space. */
  lemma {:induction false} ReadFolded(st: Style, bom: bool, cs: seq<CodePoint>, first: bool, spaces: bool, col: int,
                                      rest: seq<Byte>, column: nat)
    requires st.indent >= 1 && cs != [] && cs[0] == SPACE && !Escaped(st, bom, EncodeAll(cs))
    requires Folds(st, cs, first, spaces, col)
    ensures InWord(Tail(st, bom, cs, first, spaces, col, rest), column) == Scanned(EncodeAll(cs), rest)
    decreases |cs|, 0
  {
    hide Encode, EscapeOf, InBlanks, InWord, Escaped, BreakOf, Tail;
    SpacePoint();
    TailFold(st, bom, cs, first, spaces, col, rest);
    NotEscaped(st, bom, EncodeAll(cs));
    var t := Tail(st, bom, cs, first, spaces, col, rest);
    var c := st.indent + if cs[1] == SPACE then 1 else 0;
    var front := BreakOf(st.lineBreak) + Spaces(st.indent);
    var t' := Tail(st, bom, cs[1..], false, true, c, rest);
    if cs[1] == SPACE {
      assert t == front + ([BACKSLASH] + t');
      ReadFold(st, [BACKSLASH] + t', column);
      EscapedSpace(st, bom, cs[1..], c, rest);
    } else {
      assert t == front + t';
      ReadFold(st, t', column);
      TailSolid(st, bom, cs[1..], false, true, c, rest);
      BlanksEnd(t', st.indent, true, [], [LF], []);
      ReadWord(st, bom, cs[1..], false, true, c, rest, st.indent);
    }
  }

  /** A space behind a fold, which the backslash makes part of the value. */
  lemma {:induction false} EscapedSpace(st: Style, bom: bool, cs: seq<CodePoint>, col: int, rest: seq<Byte>)
    requires st.indent >= 1 && cs != [] && cs[0] == SPACE && !bom
    ensures InBlanks([BACKSLASH] + Tail(st, bom, cs, false, true, col, rest), st.indent, true, [], [LF], []) ==
            Scanned([SPACE] + EncodeAll(cs), rest)
    decreases |cs|, 2
  {
    hide Encode, EscapeOf, InBlanks, InWord, Tail, Escaped;
    SpacePoint();
    SpaceStays(st, cs);
    TailSpace(st, bom, cs, false, true, col, rest);
    var t' := Tail(st, bom, cs[1..], false, true, col + 1, rest);
    var t := [BACKSLASH] + Tail(st, bom, cs, false, true, col, rest);
    assert t == [BACKSLASH, SPACE] + t';
    BlanksEnd(t, st.indent, true, [], [LF], []);
    ReadSpaceEscape(t', st.indent);
    ReadWord(st, bom, cs[1..], false, true, col + 1, rest, st.indent + 2);
  }

  lemma ReadSpaceEscape(t: seq<Byte>, column: nat)
    ensures InWord([BACKSLASH, SPACE] + t, column) == Prepend([SPACE], InWord(t, column + 2))
  {
  }

  /** Every value of well-formed UTF-8 is read back, in every style, whatever follows the scalar. */
  lemma QuotedRoundTrip(st: Style, v: seq<Byte>, cs: seq<CodePoint>, col: int, rest: seq<Byte>, column: nat)
    requires DecodeAll(v) == Some(cs) && st.indent >= 1 && column >= 1
    ensures var t := Quoted(st, cs, col) + rest;
            t[0] == QUOTE && Text(t[1..], column) == Scanned(v, rest)
  {
    hide InWord, InBlanks, Written, DocumentIndicator, Quoted, Tail, EncodeAll, IsBom, DecodeAll;
    var bom := IsBom(EncodeAll(cs));
    QuotedTail(st, cs, col, rest);
    ReadWord(st, bom, cs, true, false, col, rest, column);
    StartsText(st, bom, cs, col, rest);
  }

  lemma QuotedTail(st: Style, cs: seq<CodePoint>, col: int, rest: seq<Byte>)
    ensures var t := Quoted(st, cs, col) + rest;
            t[0] == QUOTE && t[1..] == Tail(st, IsBom(EncodeAll(cs)), cs, true, false, col, rest)
  {
    hide Written, EncodeAll, IsBom;
  }

  lemma StartsText(st: Style, bom: bool, cs: seq<CodePoint>, col: int, rest: seq<Byte>)
    ensures At(Tail(st, bom, cs, true, false, col, rest), 0) != NUL
  {
  }
}
