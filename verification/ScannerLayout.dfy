/**
 The layout of a text as the scanner follows it: position, indentation, flow level, and the
 candidates for simple keys. There is no queue here. From the layout alone it is decided
 whether a text makes the scanner panic.
 */
module ScannerLayout {
  import opened YamlTokens
  import opened TokenQueue

  // ---------------------------------------------------------------- texts

  /** What may come next in a text. */
  datatype Kind =
    | Unknown
    | DirectiveLine(directive: Token, extent: Move)
    | DocumentIndicator(indicator: Token)
    | FlowStart(start: Token)
    | FlowEnd(end: Token)
    | FlowComma
    | BlockDash
    | QuestionMark
    | Colon
    | Property(property: Token, extent: Move)
    | BlockScalar(scalar: Token, extent: Move)
    | QuotedScalar(scalar: Token, extent: Move)
    | PlainScalar(scalar: Token, extent: Move, leadingBlanks: bool)

  /** Blanks, comments and line breaks, and then a token. */
  datatype Lexeme = Lexeme(gap: Move, kind: Kind)

  const ONE := Move(1, 0, 0)

  predicate Advances(v: Move) {
    v.chars > 0 || v.lines > 0
  }

  /** The tokens that a lexeme can stand for. Directives end their line; properties stay on one line. */
  predicate KindOk(k: Kind) {
    match k
    case DirectiveLine(t, v) => (t.VersionDirectiveToken? || t.TagDirectiveToken?) && Advances(v)
    case DocumentIndicator(t) => t.DocumentStartToken? || t.DocumentEndToken?
    case FlowStart(t) => t.FlowSequenceStartToken? || t.FlowMappingStartToken?
    case FlowEnd(t) => t.FlowSequenceEndToken? || t.FlowMappingEndToken?
    case Property(t, v) => (t.AliasToken? || t.AnchorToken? || t.TagToken?) && v.lines == 0 && v.chars > 0
    case BlockScalar(t, v) => t.ScalarToken? && Advances(v)
    case QuotedScalar(t, v) => t.ScalarToken? && Advances(v)
    case PlainScalar(t, v, _) => t.ScalarToken? && Advances(v)
    case _ => true
  }

  predicate ScriptOk(script: seq<Lexeme>) {
    forall x | x in script :: KindOk(x.kind)
  }

  lemma NextKind(script: seq<Lexeme>)
    requires ScriptOk(script) && script != []
    ensures KindOk(script[0].kind) && ScriptOk(script[1..])
  {
  }

  /** The token that a lexeme spells out. */
  function TokenOf(k: Kind): seq<Token> {
    match k
    case Unknown => []
    case DirectiveLine(t, _) => [t]
    case DocumentIndicator(t) => [t]
    case FlowStart(t) => [t]
    case FlowEnd(t) => [t]
    case FlowComma => [FlowEntryToken]
    case BlockDash => [BlockEntryToken]
    case QuestionMark => [KeyToken]
    case Colon => [ValueToken]
    case Property(t, _) => [t]
    case BlockScalar(t, _) => [t]
    case QuotedScalar(t, _) => [t]
    case PlainScalar(t, _, _) => [t]
  }

  function TokensOf(script: seq<Lexeme>): seq<Token> {
    if script == [] then [] else TokenOf(script[0].kind) + TokensOf(script[1..])
  }

  // ---------------------------------------------------------------- candidates

  /** A key ends on its line and within 1024 characters. */
  predicate IsStale(k: SimpleKey, mark: Mark) {
    k.possible && (k.mark.line < mark.line || k.mark.index + 1024 < mark.index)
  }

  function FreshKey(k: SimpleKey, mark: Mark): SimpleKey {
    if IsStale(k, mark) then k.(possible := false) else k
  }

  function FreshKeys(keys: seq<SimpleKey>, mark: Mark): (r: seq<SimpleKey>)
    ensures |r| == |keys| && forall i | 0 <= i < |keys| :: r[i] == FreshKey(keys[i], mark)
  {
    seq(|keys|, i requires 0 <= i < |keys| => FreshKey(keys[i], mark))
  }

  /** A required candidate has become too old. */
  predicate StaleFails(keys: seq<SimpleKey>, mark: Mark) {
    exists i :: 0 <= i < |keys| && IsStale(keys[i], mark) && keys[i].required
  }

  // ---------------------------------------------------------------- the layout

  datatype Layout = Layout(mark: Mark, indents: seq<int>, indent: int, flowLevel: nat, keys: seq<SimpleKey>,
                           allowed: bool)

  predicate LayoutOk(l: Layout) {
    |l.keys| == l.flowLevel + 1
  }

  function Initial(mark: Mark): Layout {
    Layout(mark, [], -1, 0, [NO_KEY], true)
  }

  /** What a lexeme does: it is refused, makes the scanner panic, or is taken. */
  datatype Outcome = Refused | Panic | Next(layout: Layout)

  /** Levels are left until the indentation is at most the column. */
  function Unroll(indents: seq<int>, indent: int, column: int): (seq<int>, int)
    decreases |indents|
  {
    if indent <= column || indents == [] then (indents, indent)
    else Unroll(indents[..|indents| - 1], indents[|indents| - 1], column)
  }

  function Unrolled(l: Layout, column: int): Layout {
    if l.flowLevel > 0 then l
    else
      var (indents, indent) := Unroll(l.indents, l.indent, column);
      l.(indents := indents, indent := indent)
  }

  function Rolled(l: Layout, column: int): Layout {
    if l.flowLevel == 0 && l.indent < column then l.(indents := l.indents + [l.indent], indent := column) else l
  }

  /** Across the gap in front of a lexeme. */
  function Approached(l: Layout, gap: Move): Layout {
    var mark := Moved(l.mark, gap);
    var allowed := l.allowed || (gap.lines > 0 && l.flowLevel == 0);
    Unrolled(l.(mark := mark, allowed := allowed, keys := FreshKeys(l.keys, mark)), mark.column)
  }

  predicate TopRequired(l: Layout)
    requires LayoutOk(l)
  {
    l.keys[l.flowLevel].possible && l.keys[l.flowLevel].required
  }

  function Took(l: Layout, v: Move, allowed: bool): Layout {
    l.(mark := Moved(l.mark, v), allowed := allowed)
  }

  /** A token that gives up the candidate on top. */
  function TakeOther(l: Layout, v: Move, allowed: bool): (o: Outcome)
    requires LayoutOk(l)
    ensures o.Next? ==> LayoutOk(o.layout)
  {
    if TopRequired(l) then Refused else Next(Took(l.(keys := Dropped(l.keys)), v, allowed))
  }

  /** Where a key is required although none is allowed. */
  predicate KeyPanics(l: Layout) {
    l.flowLevel == 0 && l.indent == l.mark.column && !l.allowed
  }

  function SavedKeys(l: Layout): (r: seq<SimpleKey>)
    requires LayoutOk(l)
    ensures |r| == |l.keys|
  {
    if l.allowed then l.keys[l.flowLevel := SimpleKey(true, l.flowLevel == 0 && l.indent == l.mark.column, 0, l.mark)]
    else l.keys
  }

  /** A token that may begin a key; a bracket opens a flow level as well. */
  function TakeKey(l: Layout, v: Move, opens: bool, allowed: bool): (o: Outcome)
    requires LayoutOk(l)
    ensures o.Next? ==> LayoutOk(o.layout)
    ensures o.Panic? <==> KeyPanics(l)
  {
    if KeyPanics(l) then Panic
    else if l.allowed && TopRequired(l) then Refused
    else if opens then Next(Took(l.(flowLevel := l.flowLevel + 1, keys := SavedKeys(l) + [NO_KEY]), v, allowed))
    else Next(Took(l.(keys := SavedKeys(l)), v, allowed))
  }

  function TakeFlowEnd(l: Layout): (o: Outcome)
    requires LayoutOk(l)
    ensures o.Next? ==> LayoutOk(o.layout)
  {
    if TopRequired(l) then Refused
    else
      var d := l.(keys := Dropped(l.keys));
      var d' := if d.flowLevel > 0 then d.(flowLevel := d.flowLevel - 1, keys := d.keys[..d.flowLevel]) else d;
      Next(Took(d', ONE, false))
  }

  function TakeBlockIndicator(l: Layout, dash: bool): (o: Outcome)
    requires LayoutOk(l)
    ensures o.Next? ==> LayoutOk(o.layout)
  {
    if l.flowLevel == 0 && !l.allowed then Refused
    else TakeOther(Rolled(l, l.mark.column), ONE, dash || l.flowLevel == 0)
  }

  function TakeColon(l: Layout): (o: Outcome)
    requires LayoutOk(l)
    ensures o.Next? ==> LayoutOk(o.layout)
  {
    var k := l.keys[l.flowLevel];
    if k.possible then Next(Took(Rolled(l.(keys := Dropped(l.keys)), k.mark.column), ONE, false))
    else if l.flowLevel == 0 && !l.allowed then Refused
    else Next(Took(Rolled(l, l.mark.column), ONE, l.flowLevel == 0))
  }

  function TakeMargin(l: Layout, v: Move): (o: Outcome)
    requires LayoutOk(l)
    ensures o.Next? ==> LayoutOk(o.layout)
  {
    if l.mark.column != 0 then Refused else TakeOther(Unrolled(l, -1), v, false)
  }

  /** A plain scalar goes on only to the right of the indentation of its block, unless it ends a line. */
  predicate PlainFits(after: Layout, leadingBlanks: bool) {
    after.flowLevel > 0 || leadingBlanks || after.mark.column > after.indent
  }

  function StepKind(l: Layout, k: Kind): (o: Outcome)
    requires LayoutOk(l)
    ensures o.Next? ==> LayoutOk(o.layout)
  {
    match k
    case Unknown => Refused
    case DirectiveLine(_, v) => TakeMargin(l, v)
    case DocumentIndicator(_) => TakeMargin(l, Move(3, 0, 0))
    case FlowStart(_) => TakeKey(l, ONE, true, true)
    case FlowEnd(_) => TakeFlowEnd(l)
    case FlowComma => TakeOther(l, ONE, true)
    case BlockDash => TakeBlockIndicator(l, true)
    case QuestionMark => TakeBlockIndicator(l, false)
    case Colon => TakeColon(l)
    case Property(_, v) => TakeKey(l, v, false, false)
    case BlockScalar(_, v) => if l.flowLevel > 0 then Refused else TakeOther(l, v, true)
    case QuotedScalar(_, v) => TakeKey(l, v, false, false)
    case PlainScalar(_, v, lead) =>
      var o := TakeKey(l, v, false, lead);
      if o.Next? && !PlainFits(o.layout, lead) then Refused else o
  }

  function Step(l: Layout, x: Lexeme): (o: Outcome)
    requires LayoutOk(l)
    ensures o.Next? ==> LayoutOk(o.layout)
  {
    if StaleFails(l.keys, Moved(l.mark, x.gap)) then Refused else StepKind(Approached(l, x.gap), x.kind)
  }

  /** A lexeme that may begin a key. */
  predicate BeginsKey(k: Kind) {
    k.FlowStart? || k.Property? || k.QuotedScalar? || k.PlainScalar?
  }

  /** Tokens behind which a key may begin on the same line. */
  predicate KeyMayFollow(l: Layout, k: Kind)
    requires LayoutOk(l)
  {
    || k.FlowStart? || k.FlowComma? || k.BlockDash? || k.BlockScalar? || (k.PlainScalar? && k.leadingBlanks)
    || (l.flowLevel == 0 && (k.QuestionMark? || (k.Colon? && !l.keys[l.flowLevel].possible)))
  }

  /**
   What a token does to the layout where it begins: whether a key may follow, the flow level, and the candidates. Only a
   token that may begin a key is a candidate, on its flow level; all others but a colon without a key give one up.
   */
  lemma TokenEffects(l: Layout, k: Kind)
    requires LayoutOk(l) && StepKind(l, k).Next?
    ensures var m := StepKind(l, k).layout;
            && m.allowed == KeyMayFollow(l, k)
            && m.flowLevel ==
               l.flowLevel + (if k.FlowStart? then 1 else if k.FlowEnd? && l.flowLevel > 0 then -1 else 0)
            && (forall i | 0 <= i < l.flowLevel && i < |m.keys| :: m.keys[i] == l.keys[i])
            && (BeginsKey(k) ==>
                  m.keys[l.flowLevel] ==
                  if l.allowed then SimpleKey(true, l.flowLevel == 0 && l.indent == l.mark.column, 0, l.mark)
                  else l.keys[l.flowLevel])
            && (!BeginsKey(k) && |m.keys| == |l.keys| ==> !m.keys[l.flowLevel].possible)
            && (k.FlowStart? ==> !m.keys[m.flowLevel].possible)
  {
    hide Unroll;
  }

  /**
   Some lexeme of the text, all before it being taken, begins a key in block context: with no new
   line in front of it, where no key is allowed, and in the column of the indentation.
   */
  predicate Panics(l: Layout, script: seq<Lexeme>)
    requires LayoutOk(l)
    decreases |script|
  {
    script != [] &&
    match Step(l, script[0])
    case Refused => false
    case Panic => true
    case Next(m) => Panics(m, script[1..])
  }

  /** The panic at a lexeme, spelled out. */
  lemma PanicStep(l: Layout, x: Lexeme)
    requires LayoutOk(l)
    ensures Step(l, x).Panic? <==>
            && BeginsKey(x.kind) && l.flowLevel == 0 && !l.allowed && x.gap.lines == 0
            && !StaleFails(l.keys, Moved(l.mark, x.gap))
            && Unroll(l.indents, l.indent, l.mark.column + x.gap.chars).1 == l.mark.column + x.gap.chars
  {
  }

  // ---------------------------------------------------------------- giving candidates up early

  /** A text does not panic behind a required candidate that is too old. */
  lemma StaleNeverPanics(l: Layout, script: seq<Lexeme>)
    requires LayoutOk(l) && StaleFails(l.keys, l.mark)
    ensures !Panics(l, script)
  {
    if script != [] {
      var i :| 0 <= i < |l.keys| && IsStale(l.keys[i], l.mark) && l.keys[i].required;
      assert IsStale(l.keys[i], Moved(l.mark, script[0].gap));
    }
  }

  /** To give up candidates as soon as they are too old does not change what follows. */
  lemma FreshPanics(l: Layout, script: seq<Lexeme>)
    requires LayoutOk(l) && !StaleFails(l.keys, l.mark)
    ensures Panics(l.(keys := FreshKeys(l.keys, l.mark)), script) == Panics(l, script)
  {
    hide StepKind;
    if script != [] {
      var f, m := l.(keys := FreshKeys(l.keys, l.mark)), Moved(l.mark, script[0].gap);
      assert FreshKeys(f.keys, m) == FreshKeys(l.keys, m);
      FreshFails(l.keys, l.mark, m);
      assert Step(f, script[0]) == Step(l, script[0]);
    }
  }

  lemma FreshFails(keys: seq<SimpleKey>, mark: Mark, later: Mark)
    requires !StaleFails(keys, mark) && mark.line <= later.line && mark.index <= later.index
    ensures StaleFails(FreshKeys(keys, mark), later) == StaleFails(keys, later)
  {
    var kept := FreshKeys(keys, mark);
    if StaleFails(keys, later) {
      var i :| 0 <= i < |keys| && IsStale(keys[i], later) && keys[i].required;
      assert kept[i] == keys[i];
    }
    if StaleFails(kept, later) {
      var i :| 0 <= i < |kept| && IsStale(kept[i], later) && kept[i].required;
      assert kept[i] == keys[i];
    }
  }

  // ---------------------------------------------------------------- texts that stay inside

  /**
   The lexeme is a quoted scalar or ends a flow collection, and ends in block context at or left of the indentation.
   */
  predicate EndsOutside(k: Kind, after: Layout) {
    (k.QuotedScalar? || k.FlowEnd?) && after.flowLevel == 0 && after.mark.column <= after.indent
  }

  predicate StaysInside(l: Layout, script: seq<Lexeme>)
    requires LayoutOk(l)
    decreases |script|
  {
    script == [] ||
    match Step(l, script[0])
    case Refused => true
    case Panic => true
    case Next(m) => !EndsOutside(script[0].kind, m) && StaysInside(m, script[1..])
  }

  /** Behind a token that no key may follow, the position is right of the indentation. */
  predicate Clear(l: Layout) {
    && LayoutOk(l) && (forall i | 0 <= i < |l.keys| && l.keys[i].possible :: Before(l.keys[i].mark, l.mark))
    && (l.flowLevel == 0 && !l.allowed ==> l.mark.column > l.indent)
  }

  lemma {:induction false} UnrollDown(indents: seq<int>, indent: int, column: int)
    requires Levels(indents, indent) && column >= -1
    ensures var (js, i) := Unroll(indents, indent, column); Levels(js, i) && i <= column && i <= indent
    decreases |indents|
  {
    LevelsBottom(indents, indent);
    if indent > column {
      LevelsPop(indents, indent);
      UnrollDown(indents[..|indents| - 1], indents[|indents| - 1], column);
    }
  }

  /** The levels that are left are those to the right of the column, and no others. */
  lemma {:induction false} UnrollExact(indents: seq<int>, indent: int, column: int)
    requires Levels(indents, indent) && column >= -1
    ensures var (js, i) := Unroll(indents, indent, column);
            var all, n := indents + [indent], |js| + 1;
            && n <= |all| && js + [i] == all[..n] && i <= column && forall k | n <= k < |all| :: all[k] > column
    decreases |indents|
  {
    LevelsBottom(indents, indent);
    var all := indents + [indent];
    if indent > column {
      LevelsPop(indents, indent);
      var outer, i := indents[..|indents| - 1], indents[|indents| - 1];
      UnrollExact(outer, i, column);
      assert outer + [i] == indents == all[..|indents|];
      var js := Unroll(indents, indent, column).0;
      assert indents[..|js| + 1] == all[..|js| + 1];
      forall k | |js| + 1 <= k < |all| ensures all[k] > column {
        if k < |indents| { assert all[k] == (outer + [i])[k]; }
      }
    } else {
      assert all[..|all|] == all;
    }
  }

  lemma ApproachClear(l: Layout, gap: Move)
    requires Clear(l) && Levels(l.indents, l.indent)
    ensures var a := Approached(l, gap);
            && Clear(a) && Levels(a.indents, a.indent) && (a.flowLevel == 0 ==> a.indent <= a.mark.column)
            && (forall i | 0 <= i < |a.keys| && a.keys[i].possible :: a.keys[i].mark.line >= a.mark.line)
  {
    UnrollDown(l.indents, l.indent, Moved(l.mark, gap).column);
  }

  lemma RolledLevels(l: Layout, column: int)
    requires Levels(l.indents, l.indent)
    ensures Levels(Rolled(l, column).indents, Rolled(l, column).indent)
  {
    if l.indent < column { LevelsPush(l.indents, l.indent, column); }
  }

  lemma KeyClear(l: Layout, k: Kind)
    requires Clear(l) && KindOk(k) && BeginsKey(k) && (l.flowLevel == 0 ==> l.indent <= l.mark.column)
    ensures !StepKind(l, k).Panic?
    ensures StepKind(l, k).Next? && !EndsOutside(k, StepKind(l, k).layout) ==>
              var m := StepKind(l, k).layout; Clear(m) && m.indents == l.indents && m.indent == l.indent
  {
  }

  lemma OtherClear(l: Layout, k: Kind)
    requires Clear(l) && Levels(l.indents, l.indent) && KindOk(k) && !BeginsKey(k)
    requires l.flowLevel == 0 ==> l.indent <= l.mark.column
    requires forall i | 0 <= i < |l.keys| && l.keys[i].possible :: l.keys[i].mark.line >= l.mark.line
    ensures !StepKind(l, k).Panic?
    ensures StepKind(l, k).Next? && !EndsOutside(k, StepKind(l, k).layout) ==>
              var m := StepKind(l, k).layout; Clear(m) && Levels(m.indents, m.indent)
  {
    hide Levels, Unroll;
    RolledLevels(l, l.mark.column);
    var top := l.keys[l.flowLevel];
    RolledLevels(l, top.mark.column);
    UnrollDown(l.indents, l.indent, -1);
  }

  lemma StepClear(l: Layout, k: Kind)
    requires Clear(l) && Levels(l.indents, l.indent) && KindOk(k) && (l.flowLevel == 0 ==> l.indent <= l.mark.column)
    requires forall i | 0 <= i < |l.keys| && l.keys[i].possible :: l.keys[i].mark.line >= l.mark.line
    ensures !StepKind(l, k).Panic?
    ensures StepKind(l, k).Next? && !EndsOutside(k, StepKind(l, k).layout) ==>
              var m := StepKind(l, k).layout; Clear(m) && Levels(m.indents, m.indent)
  {
    hide Levels, Clear, StepKind, EndsOutside;
    ClearOk(l);
    if BeginsKey(k) { KeyClear(l, k); } else { OtherClear(l, k); }
  }

  /** A text whose quoted scalars and flow collections end right of the indentation of their block does not panic. */
  lemma {:induction false} InsideNeverPanics(l: Layout, script: seq<Lexeme>)
    requires Clear(l) && Levels(l.indents, l.indent) && ScriptOk(script) && StaysInside(l, script)
    ensures !Panics(l, script)
    decreases |script|
  {
    hide Levels, Clear, StepKind, Approached;
    ClearOk(l);
    if script != [] && !StaleFails(l.keys, Moved(l.mark, script[0].gap)) {
      var a := Approached(l, script[0].gap);
      NextKind(script);
      ApproachClear(l, script[0].gap);
      ClearOk(a);
      StepClear(a, script[0].kind);
      if Step(l, script[0]).Next? { InsideNeverPanics(Step(l, script[0]).layout, script[1..]); }
    }
  }

  lemma InsideFromStart(mark: Mark, script: seq<Lexeme>)
    requires ScriptOk(script) && StaysInside(Initial(mark), script)
    ensures !Panics(Initial(mark), script)
  {
    InsideNeverPanics(Initial(mark), script);
  }

  lemma ClearOk(l: Layout)
    requires Clear(l)
    ensures LayoutOk(l)
  {
  }
}
