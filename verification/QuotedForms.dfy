/**
 What the emitter writes for a value, character by character: in which form each character
 stands, and at which spaces the line is folded. Together with the grammar of the scanner's texts this says what a
 double-quoted scalar looks like, and not only that it is read back.
 */
module QuotedForms {
  import opened Wrappers
  import opened Utf8
  import opened QuotedText
  import opened QuotedGrammar

  /** The characters that stand as they are. */
  predicate Plainly(st: Style, bom: bool, c: CodePoint) {
    && PrintablePoint(c) && !BreakPoint(c) && c != QUOTE && c != BACKSLASH
    && (st.unicode || c <= 0x7F) && !bom
  }

  lemma EscapedExact(st: Style, bom: bool, c: CodePoint, tail: seq<Byte>)
    ensures Escaped(st, bom, Encode(c) + tail) <==> !Plainly(st, bom, c)
  {
    hide Encode, IsPrintable, IsBreak, PrintablePoint, BreakPoint;
    PrintableIsPoint(c, tail);
    BreakIsPoint(c, tail);
    Octets(c);
    EncodeParts(c);
    assert At(Encode(c) + tail, 0) == Encode(c)[0];
  }

  // ---------------------------------------------------------------- escapes

  /** The letters that are written; a tab, a space and a single quote are only read behind a backslash. */
  predicate IsLetter(e: Byte) {
    e in ESCAPES && e != TAB && e != SPACE && e != Ascii('\'')
  }

  predicate Capital(b: Byte) {
    48 <= b <= 57 || 65 <= b <= 70
  }

  /** A letter if there is one, and otherwise two, four or eight capital digits, as few as will do. */
  ghost predicate EscapeForm(c: CodePoint, item: Item) {
    if exists e :: IsLetter(e) && ESCAPES[e] == c then item.Letter? && IsLetter(item.e) && ESCAPES[item.e] == c
    else
      && item.Code? && HexValue(item.digits) == Some(c)
      && (forall i | 0 <= i < |item.digits| :: Capital(item.digits[i]))
      && item.e == (if c <= 0xFF then Ascii('x') else if c <= 0xFFFF then Ascii('u') else Ascii('U'))
      && |item.digits| == CodeLength(item.e)
  }

  function EscapeItem(c: CodePoint): Item {
    match EscapeLetter(c)
    case Some(e) => Letter(e)
    case None =>
      if c <= 0xFF then Code(Ascii('x'), Hex(c, 2))
      else if c <= 0xFFFF then Code(Ascii('u'), Hex(c, 4))
      else Code(Ascii('U'), Hex(c, 8))
  }

  lemma {:induction false} HexCapital(v: nat, n: nat)
    ensures forall i | 0 <= i < n :: Capital(Hex(v, n)[i])
  {
    if n > 0 { HexCapital(v / 16, n - 1); }
  }

  lemma LettersWritten(c: CodePoint)
    ensures EscapeLetter(c).Some? <==> exists e :: IsLetter(e) && ESCAPES[e] == c
    ensures EscapeLetter(c).Some? ==> IsLetter(EscapeLetter(c).value) && ESCAPES[EscapeLetter(c).value] == c
  {
    if EscapeLetter(c).Some? {
      var e := EscapeLetter(c).value;
      assert IsLetter(e) && ESCAPES[e] == c;
    }
  }

  lemma EscapeForms(c: CodePoint)
    ensures EscapeForm(c, EscapeItem(c)) && ItemText(EscapeItem(c)) == [BACKSLASH] + EscapeOf(c)
    ensures ItemColumn(EscapeItem(c), 0) == 1 + |EscapeOf(c)|
  {
    hide Hex, HexValue, IsLetter, EscapeLetter;
    LettersWritten(c);
    Powers();
    if EscapeLetter(c).None? {
      var n := if c <= 0xFF then 2 else if c <= 0xFFFF then 4 else 8;
      HexRoundTrip(c, n);
      HexCapital(c, n);
    }
  }

  // ---------------------------------------------------------------- folds

  function LineOf(b: LineBreak): Line {
    match b case BreakCR => Return case BreakLF => LineFeed case BreakCRLF => ReturnFeed
  }

  function Indentation(n: nat): seq<Piece> {
    seq(n, _ => Blank(SPACE))
  }

  /** A new line in place of a space. */
  function Fold(st: Style): Item {
    Gap([Break(LineOf(st.lineBreak))] + Indentation(st.indent))
  }

  const ONE_SPACE := Gap([Blank(SPACE)])

  lemma {:induction false} IndentationText(n: nat)
    ensures GapText(Indentation(n)) == Spaces(n)
  {
    if n > 0 {
      IndentationText(n - 1);
      assert Indentation(n)[1..] == Indentation(n - 1);
      assert [SPACE] + Spaces(n - 1) == Spaces(n);
    }
  }

  lemma {:induction false} IndentationColumn(n: nat, column: nat)
    ensures GapColumn(Indentation(n), column) == column + n
    decreases n
  {
    if n > 0 {
      IndentationColumn(n - 1, column + 1);
      assert Indentation(n)[1..] == Indentation(n - 1);
    }
  }

  lemma FoldText(st: Style)
    ensures ItemText(Fold(st)) == BreakOf(st.lineBreak) + Spaces(st.indent)
    ensures forall column: nat :: ItemColumn(Fold(st), column) == st.indent
  {
    var ps := [Break(LineOf(st.lineBreak))] + Indentation(st.indent);
    assert ps[1..] == Indentation(st.indent);
    IndentationText(st.indent);
    IndentationColumn(st.indent, 0);
  }

  lemma SpaceText()
    ensures ItemText(ONE_SPACE) == [SPACE] && forall column: nat :: ItemColumn(ONE_SPACE, column) == column + 1
  {
    assert [Blank(SPACE)][1..] == [];
    assert GapText([Blank(SPACE)]) == [SPACE] + [];
    forall column: nat ensures ItemColumn(ONE_SPACE, column) == column + 1 {
      assert GapColumn([Blank(SPACE)], column) == GapColumn([], column + 1);
    }
  }

  // ---------------------------------------------------------------- a value, character by character

  function ColumnAt(items: seq<Item>, i: nat, column: nat): nat
    requires i <= |items|
  {
    if i == 0 then column else ItemColumn(items[i - 1], ColumnAt(items, i - 1, column))
  }

  /**
   How character `i` is written. A space is folded if lines may be broken, the line is already too long, and the
   space is alone and neither first nor last; a space behind a fold is escaped.
   */
  ghost predicate FormAt(st: Style, bom: bool, cs: seq<CodePoint>, items: seq<Item>, i: nat, column: nat)
    requires i < |cs| == |items|
  {
    if !Plainly(st, bom, cs[i]) then EscapeForm(cs[i], items[i])
    else if cs[i] != SPACE then items[i] == Plain(Encode(cs[i]))
    else if i > 0 && items[i - 1] == Fold(st) then items[i] == Letter(SPACE)
    else if st.allowBreaks && 0 < i < |cs| - 1 && cs[i - 1] != SPACE && ColumnAt(items, i, column) > st.bestWidth then
      items[i] == Fold(st)
    else items[i] == ONE_SPACE
  }

  /** The same for the rest of a value. */
  ghost predicate Forms(st: Style, bom: bool, cs: seq<CodePoint>, items: seq<Item>, first: bool, spaces: bool,
                        folded: bool, column: nat)
    decreases |cs|
  {
    && |items| == |cs|
    && (cs != [] ==>
          && (if !Plainly(st, bom, cs[0]) then EscapeForm(cs[0], items[0])
              else if cs[0] != SPACE then items[0] == Plain(Encode(cs[0]))
              else if folded then items[0] == Letter(SPACE)
              else if st.allowBreaks && !first && !spaces && |cs| > 1 && column > st.bestWidth then items[0] == Fold(st)
              else items[0] == ONE_SPACE)
          && Forms(st, bom, cs[1..], items[1..], false, cs[0] == SPACE, items[0] == Fold(st),
                   ItemColumn(items[0], column)))
  }

  lemma SpellCons(item: Item, items: seq<Item>)
    ensures Spelled([item] + items) == ItemText(item) + Spelled(items)
  {
    assert ([item] + items)[1..] == items;
  }

  /** What is written is spelled by items of these forms. Behind a fold, the backslash of a space is already there. */
  lemma {:induction false} WrittenForms(st: Style, bom: bool, cs: seq<CodePoint>, first: bool, spaces: bool,
                                        folded: bool, column: nat)
    returns (items: seq<Item>)
    requires folded ==> cs != [] && cs[0] == SPACE && spaces && !bom && column >= 1
    requires bom ==> !spaces
    ensures Forms(st, bom, cs, items, first, spaces, folded, if folded then column - 1 else column)
    ensures Spelled(items) ==
            (if folded then [BACKSLASH] else []) + Written(st, bom, cs, first, spaces, column)
    decreases |cs|
  {
    hide Encode, EscapeOf, EscapeForm, IsLetter, Escaped, ItemColumn, ItemText, Fold;
    if cs == [] {
      items := [];
    } else {
      var c := cs[0];
      EscapedExact(st, bom, c, EncodeAll(cs[1..]));
      if !Plainly(st, bom, c) {
        items := EscapedForms(st, bom, cs, first, spaces, column);
      } else if c != SPACE {
        items := PlainForms(st, bom, cs, first, spaces, column);
      } else {
        items := SpaceForms(st, bom, cs, first, spaces, folded, column);
      }
    }
  }

  lemma SpacePlainly(st: Style, bom: bool)
    ensures Plainly(st, bom, SPACE) <==> !bom
  {
  }

  lemma PlainColumn(octets: seq<Byte>, column: nat)
    ensures ItemColumn(Plain(octets), column) == column + 1 && ItemText(Plain(octets)) == octets
    ensures forall st :: Plain(octets) != Fold(st)
  {
  }

  lemma EscapeColumn(c: CodePoint, column: nat)
    ensures ItemColumn(EscapeItem(c), column) == column + 1 + |EscapeOf(c)|
    ensures forall st :: EscapeItem(c) != Fold(st)
  {
    EscapeForms(c);
  }

  lemma {:induction false} EscapedForms(st: Style, bom: bool, cs: seq<CodePoint>, first: bool, spaces: bool,
                                        column: nat)
    returns (items: seq<Item>)
    requires cs != [] && !Plainly(st, bom, cs[0]) && (bom ==> !spaces)
    ensures Forms(st, bom, cs, items, first, spaces, false, column)
    ensures Spelled(items) == Written(st, bom, cs, first, spaces, column)
    decreases |cs|, 0
  {
    hide Encode, EscapeOf, EscapeForm, IsLetter, Escaped, ItemColumn, ItemText, Fold, EscapeItem;
    var c := cs[0];
    EscapedExact(st, bom, c, EncodeAll(cs[1..]));
    EscapeForms(c);
    EscapeColumn(c, column);
    var more := WrittenForms(st, bom, cs[1..], false, false, false, column + 1 + |EscapeOf(c)|);
    items := [EscapeItem(c)] + more;
    SpellCons(EscapeItem(c), more);
    SpacePlainly(st, bom);
    assert items[1..] == more;
  }

  lemma {:induction false} PlainForms(st: Style, bom: bool, cs: seq<CodePoint>, first: bool, spaces: bool, column: nat)
    returns (items: seq<Item>)
    requires cs != [] && Plainly(st, bom, cs[0]) && cs[0] != SPACE && (bom ==> !spaces)
    ensures Forms(st, bom, cs, items, first, spaces, false, column)
    ensures Spelled(items) == Written(st, bom, cs, first, spaces, column)
    decreases |cs|, 0
  {
    hide Encode, EscapeOf, EscapeForm, IsLetter, Escaped, ItemColumn, ItemText, Fold;
    var c := cs[0];
    EscapedExact(st, bom, c, EncodeAll(cs[1..]));
    PlainColumn(Encode(c), column);
    var more := WrittenForms(st, bom, cs[1..], false, false, false, column + 1);
    items := [Plain(Encode(c))] + more;
    SpellCons(Plain(Encode(c)), more);
    assert items[1..] == more;
  }

  lemma {:induction false} SpaceForms(st: Style, bom: bool, cs: seq<CodePoint>, first: bool, spaces: bool, folded: bool,
                                      column: nat)
    returns (items: seq<Item>)
    requires cs != [] && Plainly(st, bom, cs[0]) && cs[0] == SPACE && (folded ==> spaces && column >= 1)
    ensures Forms(st, bom, cs, items, first, spaces, folded, if folded then column - 1 else column)
    ensures Spelled(items) == (if folded then [BACKSLASH] else []) + Written(st, bom, cs, first, spaces, column)
    decreases |cs|, 0
  {
    hide Encode, EscapeOf, EscapeForm, IsLetter, Escaped, ItemColumn, ItemText, Fold;
    EscapedExact(st, bom, SPACE, EncodeAll(cs[1..]));
    SpacePlainly(st, bom);
    FoldText(st);
    SpaceText();
    LetterText(column);
    if Folds(st, cs, first, spaces, column) {
      var next := cs[1] == SPACE;
      var col := st.indent + if next then 1 else 0;
      var more := WrittenForms(st, bom, cs[1..], false, true, next, col);
      items := [Fold(st)] + more;
      SpellCons(Fold(st), more);
      assert items[1..] == more;
    } else {
      var more := WrittenForms(st, bom, cs[1..], false, true, false, column + 1);
      var item := if folded then Letter(SPACE) else ONE_SPACE;
      items := [item] + more;
      SpellCons(item, more);
      NotAFold(st);
      assert items[1..] == more;
    }
  }

  lemma LetterText(column: nat)
    ensures ItemText(Letter(SPACE)) == [BACKSLASH, SPACE] && ItemColumn(Letter(SPACE), column) == column + 2
    ensures column >= 1 ==> ItemColumn(Letter(SPACE), column - 1) == column + 1
  {
  }

  lemma NotAFold(st: Style)
    ensures Letter(SPACE) != Fold(st) && ONE_SPACE != Fold(st)
  {
    assert [Blank(SPACE)][0] != ([Break(LineOf(st.lineBreak))] + Indentation(st.indent))[0];
  }

  // ---------------------------------------------------------------- by place

  /** The rest of a value from place `k` on, as it is seen from the whole. */
  lemma {:induction false} FormsFrom(st: Style, bom: bool, cs: seq<CodePoint>, items: seq<Item>, k: nat, column: nat)
    requires k <= |cs| == |items|
    requires Forms(st, bom, cs[k..], items[k..], k == 0, k > 0 && cs[k - 1] == SPACE, k > 0 && items[k - 1] == Fold(st),
                   ColumnAt(items, k, column))
    ensures forall i | k <= i < |cs| :: FormAt(st, bom, cs, items, i, column)
    decreases |cs| - k
  {
    hide EscapeForm, Plainly, Encode, Fold, ItemColumn;
    if k < |cs| {
      assert cs[k..][1..] == cs[k + 1..] && items[k..][1..] == items[k + 1..];
      FormsFrom(st, bom, cs, items, k + 1, column);
    }
  }

  /** Every value is written character by character in these forms, and so between quotes. */
  lemma WrittenExact(st: Style, cs: seq<CodePoint>, column: nat) returns (items: seq<Item>)
    ensures |items| == |cs| && Quoted(st, cs, column) == [QUOTE] + Spelled(items) + [QUOTE]
    ensures var bom := IsBom(EncodeAll(cs));
            forall i | 0 <= i < |cs| :: FormAt(st, bom, cs, items, i, column)
  {
    hide FormAt, Written, Fold;
    var bom := IsBom(EncodeAll(cs));
    items := WrittenForms(st, bom, cs, true, false, false, column);
    assert [] + Written(st, bom, cs, true, false, column) == Written(st, bom, cs, true, false, column);
    assert cs[0..] == cs && items[0..] == items;
    FormsFrom(st, bom, cs, items, 0, column);
  }
}
