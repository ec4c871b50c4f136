/**
 The tokens of a text, said with hindsight: first the layout is followed to see which tokens
 a colon makes into keys, and then the tokens are written down once, from left to right, each with what belongs in front
 of it. The scanner does it in one pass, and inserts into its queue; it is proved to give the same tokens.
 */
module ScannerTokens {
  import opened YamlTokens
  import opened TokenQueue
  import opened ScannerLayout

  // ---------------------------------------------------------------- in front of a token

  function Ends(n: nat, mark: Mark): (r: seq<Entry>)
    ensures |r| == n && forall i | 0 <= i < n :: r[i] == Entry(BlockEndToken, mark, true)
  {
    seq(n, _ => Entry(BlockEndToken, mark, true))
  }

  /** How many blocks are left between two layouts. */
  function Closed(l: Layout, m: Layout): nat {
    if |m.indents| <= |l.indents| then |l.indents| - |m.indents| else 0
  }

  /** The start of a block at the current position, if it is further in than the block around it. */
  function Opening(l: Layout, t: Token): seq<Entry> {
    if l.flowLevel == 0 && l.indent < l.mark.column then [Entry(t, l.mark, true)] else []
  }

  /** What a lexeme puts in front of its token: a margin ends all blocks, an indicator may open one. */
  function Front(l: Layout, k: Kind): seq<Entry>
    requires LayoutOk(l)
  {
    match k
    case DirectiveLine(_, _) => Ends(Closed(l, Unrolled(l, -1)), l.mark)
    case DocumentIndicator(_) => Ends(Closed(l, Unrolled(l, -1)), l.mark)
    case BlockDash => Opening(l, BlockSequenceStartToken)
    case QuestionMark => Opening(l, BlockMappingStartToken)
    case Colon => if l.keys[l.flowLevel].possible then [] else Opening(l, BlockMappingStartToken)
    case _ => []
  }

  // ---------------------------------------------------------------- keys

  /** A token that a colon makes a key, and whether a mapping begins with it. */
  datatype Chosen = Chosen(mark: Mark, opens: bool)

  function ChosenBy(l: Layout, k: Kind): seq<Chosen>
    requires LayoutOk(l)
  {
    var key := l.keys[l.flowLevel];
    if k.Colon? && key.possible then [Chosen(key.mark, l.flowLevel == 0 && l.indent < key.mark.column)] else []
  }

  function AllChosen(l: Layout, script: seq<Lexeme>): seq<Chosen>
    requires LayoutOk(l)
    decreases |script|
  {
    if script == [] then []
    else
      match Step(l, script[0])
      case Next(m) => ChosenBy(Approached(l, script[0].gap), script[0].kind) + AllChosen(m, script[1..])
      case _ => []
  }

  function KeyEntries(c: Chosen): seq<Entry> {
    (if c.opens then [Entry(BlockMappingStartToken, c.mark, true)] else []) + [Entry(KeyToken, c.mark, true)]
  }

  /** What comes in front of a token as the beginning of a key. */
  function KeyFor(cs: seq<Chosen>, mark: Mark): seq<Entry> {
    if cs == [] then [] else if cs[0].mark == mark then KeyEntries(cs[0]) else KeyFor(cs[1..], mark)
  }

  function Made(cs: seq<Chosen>, e: Entry): seq<Entry> {
    (if StartsKey(e.token) then KeyFor(cs, e.mark) else []) + [e]
  }

  // ---------------------------------------------------------------- all tokens

  function OwnToken(k: Kind, mark: Mark): seq<Entry> {
    if TokenOf(k) == [] then [] else [Entry(TokenOf(k)[0], mark, false)]
  }

  /** A list of tokens, each with what makes it a key. */
  function With(all: seq<Entry>, cs: seq<Chosen>): seq<Entry> {
    if all == [] then [] else With(all[..|all| - 1], cs) + Made(cs, all[|all| - 1])
  }

  function LexemeEntries(l: Layout, x: Lexeme, cs: seq<Chosen>): seq<Entry>
    requires LayoutOk(l)
  {
    var a := Approached(l, x.gap);
    Ends(Closed(l, a), a.mark) + Front(a, x.kind) + With(OwnToken(x.kind, a.mark), cs)
  }

  /** The end of the stream is at the start of a line. */
  function EndMark(m: Mark): Mark {
    if m.column != 0 then m.(column := 0, line := m.line + 1) else m
  }

  function EndEntries(l: Layout, gap: Move): seq<Entry> {
    var a := Approached(l, gap);
    Ends(Closed(l, a), a.mark) + Ends(Closed(a, Unrolled(a, -1)), EndMark(a.mark)) +
    [Entry(StreamEndToken, EndMark(a.mark), false)]
  }

  function Arranged(l: Layout, script: seq<Lexeme>, cs: seq<Chosen>, lastGap: Move): seq<Entry>
    requires LayoutOk(l)
    decreases |script|
  {
    if script == [] then EndEntries(l, lastGap)
    else
      match Step(l, script[0])
      case Next(m) => LexemeEntries(l, script[0], cs) + Arranged(m, script[1..], cs, lastGap)
      case _ => []
  }

  /** The tokens of a whole text, as far as it is taken. */
  function TokensOfText(mark: Mark, script: seq<Lexeme>, lastGap: Move): seq<Entry> {
    var l := Initial(mark);
    [Entry(StreamStartToken, mark, false)] + Arranged(l, script, AllChosen(l, script), lastGap)
  }

  // ---------------------------------------------------------------- order of marks

  /** Tokens that may begin a key stand one behind the other, in front of the position. */
  predicate Ordered(all: seq<Entry>, mark: Mark) {
    && (forall i | 0 <= i < |all| && StartsKey(all[i].token) :: Before(all[i].mark, mark))
    && forall i, j | 0 <= i < j < |all| && StartsKey(all[i].token) && StartsKey(all[j].token) ::
         Before(all[i].mark, all[j].mark)
  }

  /** So do the candidates. */
  predicate KeysOrdered(l: Layout) {
    && (forall i | 0 <= i < |l.keys| && l.keys[i].possible :: Before(l.keys[i].mark, l.mark))
    && forall i, j | 0 <= i < j < |l.keys| && l.keys[i].possible && l.keys[j].possible ::
         Before(l.keys[i].mark, l.keys[j].mark)
  }

  predicate NotBefore(a: Mark, b: Mark) {
    !Before(a, b)
  }

  lemma MovedLater(m: Mark, v: Move)
    ensures NotBefore(Moved(m, v), m) && (Advances(v) ==> Before(m, Moved(m, v)))
  {
  }

  predicate Possible(l: Layout, mark: Mark) {
    exists i :: 0 <= i < |l.keys| && l.keys[i].possible && l.keys[i].mark == mark
  }

  /** Across a gap candidates are only given up. */
  lemma ApproachedKeys(l: Layout, gap: Move)
    requires LayoutOk(l) && KeysOrdered(l)
    ensures var a := Approached(l, gap);
            && LayoutOk(a) && KeysOrdered(a) && NotBefore(a.mark, l.mark) && a.mark == Moved(l.mark, gap)
            && forall mark | Possible(a, mark) :: Possible(l, mark)
  {
    MovedLater(l.mark, gap);
    var a := Approached(l, gap);
    forall mark | Possible(a, mark) ensures Possible(l, mark) {
      var i :| 0 <= i < |a.keys| && a.keys[i].possible && a.keys[i].mark == mark;
      assert l.keys[i].possible && l.keys[i].mark == mark;
    }
  }

  /** A token adds at most one candidate, at its own position. */
  lemma StepKeys(a: Layout, k: Kind)
    requires LayoutOk(a) && KeysOrdered(a) && KindOk(k) && StepKind(a, k).Next?
    ensures var m := StepKind(a, k).layout;
            && LayoutOk(m) && KeysOrdered(m) && Before(a.mark, m.mark)
            && (forall mark | Possible(m, mark) :: Possible(a, mark) || mark == a.mark)
            && (k.Colon? ==> forall mark | Possible(m, mark) :: Possible(a, mark))
            && (k.Colon? && a.keys[a.flowLevel].possible ==> !Possible(m, a.keys[a.flowLevel].mark))
  {
    hide Unroll, KeysOrdered;
    var m := StepKind(a, k).layout;
    StepMoves(a, k);
    FewerKeys(a, m, k);
  }

  lemma StepMoves(a: Layout, k: Kind)
    requires LayoutOk(a) && KindOk(k) && StepKind(a, k).Next?
    ensures Before(a.mark, StepKind(a, k).layout.mark)
  {
    hide Unroll;
  }

  /** The candidates of a list are among those of another, but for one on top of them at the mark. */
  predicate FromKeys(keys: seq<SimpleKey>, more: seq<SimpleKey>, mark: Mark) {
    forall j | 0 <= j < |more| && more[j].possible ::
      (j < |keys| && more[j] == keys[j]) || (j == |keys| - 1 && more[j].mark == mark)
  }

  lemma KeysFrom(a: Layout, k: Kind)
    requires LayoutOk(a) && StepKind(a, k).Next?
    ensures FromKeys(a.keys, StepKind(a, k).layout.keys, a.mark)
    ensures k.Colon? ==> var m, top := StepKind(a, k).layout, a.keys[a.flowLevel];
                         m.keys == if top.possible then Dropped(a.keys) else a.keys
  {
    hide Unroll, Moved;
  }

  lemma FewerKeys(a: Layout, m: Layout, k: Kind)
    requires LayoutOk(a) && KeysOrdered(a) && Before(a.mark, m.mark) && StepKind(a, k) == Next(m)
    ensures KeysOrdered(m) && forall mark | Possible(m, mark) :: Possible(a, mark) || mark == a.mark
    ensures k.Colon? ==> forall mark | Possible(m, mark) :: Possible(a, mark)
    ensures k.Colon? && a.keys[a.flowLevel].possible ==> !Possible(m, a.keys[a.flowLevel].mark)
  {
    KeysFrom(a, k);
    hide StepKind;
    FromOrdered(a, m);
    forall mark | Possible(m, mark) ensures Possible(a, mark) || (mark == a.mark && !k.Colon?) {
      var i :| 0 <= i < |m.keys| && m.keys[i].possible && m.keys[i].mark == mark;
      if i < |a.keys| && m.keys[i] == a.keys[i] { assert a.keys[i].possible; }
    }
  }

  lemma FromOrdered(a: Layout, m: Layout)
    requires KeysOrdered(a) && Before(a.mark, m.mark) && FromKeys(a.keys, m.keys, a.mark)
    ensures KeysOrdered(m)
  {
  }

  /** What is chosen later is a candidate now, or comes later. */
  lemma {:induction false} ChosenLater(l: Layout, script: seq<Lexeme>)
    requires LayoutOk(l) && KeysOrdered(l) && ScriptOk(script)
    ensures forall c | c in AllChosen(l, script) :: Possible(l, c.mark) || NotBefore(c.mark, l.mark)
    decreases |script|
  {
    hide StepKind, KeysOrdered, Approached, Possible;
    if script != [] && Step(l, script[0]).Next? {
      var a, m := Approached(l, script[0].gap), Step(l, script[0]).layout;
      NextKind(script);
      ApproachedKeys(l, script[0].gap);
      StepKeys(a, script[0].kind);
      ChosenLater(m, script[1..]);
      NowPossible(a, script[0].kind);
      forall c | c in AllChosen(l, script) ensures Possible(l, c.mark) || NotBefore(c.mark, l.mark) {
        if c !in ChosenBy(a, script[0].kind) { assert c in AllChosen(m, script[1..]); }
      }
    }
  }

  lemma NowPossible(a: Layout, k: Kind)
    requires LayoutOk(a)
    ensures forall c | c in ChosenBy(a, k) :: Possible(a, c.mark)
  {
  }

  /** A key ends at a colon on its line, within 1024 characters. */
  lemma ChosenNear(l: Layout, gap: Move, k: Kind)
    requires LayoutOk(l) && KeysOrdered(l)
    ensures var a := Approached(l, gap);
            forall c | c in ChosenBy(a, k) :: c.mark.line == a.mark.line && a.mark.index <= c.mark.index + 1024
  {
    ApproachedKeys(l, gap);
  }

  // ---------------------------------------------------------------- lists of tokens

  lemma KeyForFirst(c: Chosen, cs: seq<Chosen>, mark: Mark)
    ensures KeyFor([c] + cs, mark) == if c.mark == mark then KeyEntries(c) else KeyFor(cs, mark)
  {
    assert ([c] + cs)[1..] == cs;
  }

  lemma {:induction false} KeyForNone(cs: seq<Chosen>, mark: Mark)
    requires forall c | c in cs :: c.mark != mark
    ensures KeyFor(cs, mark) == []
    decreases |cs|
  {
    if cs != [] { KeyForNone(cs[1..], mark); }
  }

  lemma {:induction false} WithAppend(a: seq<Entry>, b: seq<Entry>, cs: seq<Chosen>)
    ensures With(a + b, cs) == With(a, cs) + With(b, cs)
    decreases |b|
  {
    hide Made;
    if b == [] {
      assert a + b == a;
    } else {
      var n, front := |b| - 1, b[..|b| - 1];
      assert (a + b)[..|a| + n] == a + front && (a + b)[|a| + n] == b[n];
      WithAppend(a, front, cs);
      assert With(a, cs) + With(front, cs) + Made(cs, b[n]) == With(a, cs) + (With(front, cs) + Made(cs, b[n]));
    }
  }

  lemma WithOne(e: Entry, cs: seq<Chosen>)
    ensures With([e], cs) == Made(cs, e)
  {
    assert [e][..0] == [];
    assert [] + Made(cs, e) == Made(cs, e);
  }

  /** Tokens that cannot begin a key stay as they are. */
  lemma {:induction false} WithOthers(all: seq<Entry>, cs: seq<Chosen>)
    requires forall i | 0 <= i < |all| :: !StartsKey(all[i].token)
    ensures With(all, cs) == all
    decreases |all|
  {
    if all != [] {
      var n := |all| - 1;
      WithOthers(all[..n], cs);
      assert [] + [all[n]] == [all[n]];
      assert all == all[..n] + [all[n]];
    }
  }

  /** No token at this mark may begin a key. */
  predicate Elsewhere(all: seq<Entry>, mark: Mark) {
    forall i | 0 <= i < |all| && StartsKey(all[i].token) :: all[i].mark != mark
  }

  lemma {:induction false} WithSame(all: seq<Entry>, c: Chosen, cs: seq<Chosen>)
    requires Elsewhere(all, c.mark)
    ensures With(all, [c] + cs) == With(all, cs)
    decreases |all|
  {
    if all != [] {
      var n := |all| - 1;
      WithSame(all[..n], c, cs);
      KeyForFirst(c, cs, all[n].mark);
    }
  }

  /** A choice behind the position makes no difference to what comes. */
  lemma {:induction false} ArrangedSame(l: Layout, script: seq<Lexeme>, c: Chosen, cs: seq<Chosen>, lastGap: Move)
    requires LayoutOk(l) && KeysOrdered(l) && ScriptOk(script) && Before(c.mark, l.mark)
    ensures Arranged(l, script, [c] + cs, lastGap) == Arranged(l, script, cs, lastGap)
    decreases |script|
  {
    hide StepKind, KeysOrdered, Approached, With, Front, EndEntries;
    if script != [] && Step(l, script[0]).Next? {
      var a, m := Approached(l, script[0].gap), Step(l, script[0]).layout;
      NextKind(script);
      ApproachedKeys(l, script[0].gap);
      StepKeys(a, script[0].kind);
      ArrangedSame(m, script[1..], c, cs, lastGap);
      WithSame(OwnToken(script[0].kind, a.mark), c, cs);
    }
  }

  // ---------------------------------------------------------------- one lexeme

  /** The tokens with KEY, and the start of a mapping if one opens, in front of the saved token. */
  function KeyBefore(all: seq<Entry>, k: SimpleKey, opens: bool): seq<Entry>
    requires k.number <= |all|
  {
    var start := if opens then [Entry(BlockMappingStartToken, k.mark, true)] else [];
    all[..k.number] + start + [Entry(KeyToken, k.mark, true)] + all[k.number..]
  }

  /** Numbered candidates are those of the layout, and their numbers are the places of their tokens. */
  predicate Tied(keys: seq<SimpleKey>, l: Layout, all: seq<Entry>) {
    |keys| == |l.keys| &&
    forall i | 0 <= i < |keys| ::
      && keys[i].possible == l.keys[i].possible && keys[i].mark == l.keys[i].mark
      && (keys[i].possible ==>
            keys[i].number < |all| && all[keys[i].number].mark == keys[i].mark && StartsKey(all[keys[i].number].token))
  }

  /** The list of tokens with those of one lexeme, as the queue is changed. */
  function Placed(all: seq<Entry>, l: Layout, keys: seq<SimpleKey>, k: Kind): seq<Entry>
    requires LayoutOk(l) && Tied(keys, l, all)
  {
    var key := keys[l.flowLevel];
    if k.Colon? && key.possible then
      KeyBefore(all, key, l.flowLevel == 0 && l.indent < key.mark.column) + [Entry(ValueToken, l.mark, false)]
    else all + Front(l, k) + OwnToken(k, l.mark)
  }

  lemma WithThree(a: seq<Entry>, b: seq<Entry>, c: seq<Entry>, cs: seq<Chosen>)
    ensures With(a + b + c, cs) == With(a, cs) + With(b, cs) + With(c, cs)
  {
    WithAppend(a + b, c, cs);
    WithAppend(a, b, cs);
  }

  /** The key is where the hindsight has it. */
  lemma KeyInserted(all: seq<Entry>, key: SimpleKey, c: Chosen, cs: seq<Chosen>, mark: Mark)
    requires Ordered(all, mark) && key.number < |all| && all[key.number].mark == key.mark == c.mark
    requires StartsKey(all[key.number].token) && forall d | d in cs :: d.mark != c.mark
    ensures With(KeyBefore(all, key, c.opens), cs) == With(all, [c] + cs)
  {
    var n := key.number;
    var a, e, b := all[..n], all[n], all[n + 1..];
    SplitOrdered(all, n, mark);
    SplitBefore(all, key, c);
    hide With, Ordered, Elsewhere, KeyFor, KeyBefore, KeyEntries, StartsKey;
    WithThree(a, KeyEntries(c) + [e], b, cs);
    WithThree(a, [e], b, [c] + cs);
    WithSame(a, c, cs);
    WithSame(b, c, cs);
    KeyMade(e, c, cs);
  }

  lemma SplitBefore(all: seq<Entry>, key: SimpleKey, c: Chosen)
    requires key.number < |all| && key.mark == c.mark
    ensures all == all[..key.number] + [all[key.number]] + all[key.number + 1..]
    ensures KeyBefore(all, key, c.opens) ==
            all[..key.number] + (KeyEntries(c) + [all[key.number]]) + all[key.number + 1..]
  {
    assert all[key.number..] == [all[key.number]] + all[key.number + 1..];
  }

  lemma KeyMade(e: Entry, c: Chosen, cs: seq<Chosen>)
    requires StartsKey(e.token) && e.mark == c.mark && forall d | d in cs :: d.mark != c.mark
    ensures With(KeyEntries(c) + [e], cs) == With([e], [c] + cs)
  {
    hide With, KeyFor;
    WithAppend(KeyEntries(c), [e], cs);
    WithOthers(KeyEntries(c), cs);
    WithOne(e, cs);
    WithOne(e, [c] + cs);
    KeyForNone(cs, e.mark);
    KeyForFirst(c, cs, e.mark);
    assert [] + [e] == [e];
  }

  lemma SplitOrdered(all: seq<Entry>, n: nat, mark: Mark)
    requires Ordered(all, mark) && n < |all| && StartsKey(all[n].token)
    ensures Elsewhere(all[..n], all[n].mark) && Elsewhere(all[n + 1..], all[n].mark)
  {
  }

  /** Behind the tokens of a lexeme, those that may begin a key are still in order. */
  lemma OrderedAppend(all: seq<Entry>, more: seq<Entry>, mark: Mark, later: Mark)
    requires Ordered(all, mark) && Before(mark, later) && |more| <= 1
    requires forall i | 0 <= i < |more| :: more[i].mark == mark
    ensures Ordered(all + more, later)
  {
  }

  lemma OrderedOthers(all: seq<Entry>, others: seq<Entry>, mark: Mark)
    requires Ordered(all, mark) && forall i | 0 <= i < |others| :: !StartsKey(others[i].token)
    ensures Ordered(all + others, mark)
  {
  }

  lemma OrderedInside(all: seq<Entry>, n: nat, others: seq<Entry>, mark: Mark)
    requires Ordered(all, mark) && n <= |all| && forall i | 0 <= i < |others| :: !StartsKey(others[i].token)
    ensures Ordered(all[..n] + others + all[n..], mark)
  {
    var r, k := all[..n] + others + all[n..], |others|;
    assert forall i | n <= i < n + k :: r[i] == others[i - n];
    assert forall i | 0 <= i < n :: r[i] == all[i];
    assert forall i | n + k <= i < |r| :: r[i] == all[i - k];
  }

  lemma FrontOthers(l: Layout, k: Kind)
    requires LayoutOk(l)
    ensures forall i | 0 <= i < |Front(l, k)| :: !StartsKey(Front(l, k)[i].token)
  {
    hide Unrolled;
  }

  /** Placing the tokens of a lexeme in the queue agrees with writing them down with hindsight. */
  lemma PlacedKeeps(all: seq<Entry>, a: Layout, keys: seq<SimpleKey>, k: Kind, m: Layout, cs: seq<Chosen>)
    requires LayoutOk(a) && KeysOrdered(a) && KindOk(k) && StepKind(a, k) == Next(m)
    requires Ordered(all, a.mark) && Tied(keys, a, all)
    requires forall c | c in cs :: Possible(m, c.mark) || NotBefore(c.mark, m.mark)
    ensures var chosen := ChosenBy(a, k) + cs;
            With(Placed(all, a, keys, k), cs) ==
            With(all, chosen) + (Front(a, k) + With(OwnToken(k, a.mark), chosen))
    ensures Ordered(Placed(all, a, keys, k), m.mark)
  {
    hide StepKind, KeysOrdered, With, Front, Ordered, KeyBefore, Possible, ChosenBy;
    StepKeys(a, k);
    var key, own := keys[a.flowLevel], OwnToken(k, a.mark);
    if k.Colon? && key.possible {
      ChosenElsewhere(a, m, cs);
      ColonParts(a, key);
      ColonKeeps(all, key, a.flowLevel == 0 && a.indent < key.mark.column, a.mark, m.mark, cs);
      assert [] + own == own;
    } else {
      NotChosen(a, k);
      FrontOthers(a, k);
      assert ChosenBy(a, k) + cs == cs;
      WithAppend(all + Front(a, k), own, cs);
      WithAppend(all, Front(a, k), cs);
      WithOthers(Front(a, k), cs);
      OrderedOthers(all, Front(a, k), a.mark);
      OrderedAppend(all + Front(a, k), own, a.mark, m.mark);
    }
  }

  lemma ColonKeeps(all: seq<Entry>, key: SimpleKey, opens: bool, mark: Mark, later: Mark, cs: seq<Chosen>)
    requires Ordered(all, mark) && Before(mark, later) && key.number < |all| && all[key.number].mark == key.mark
    requires StartsKey(all[key.number].token) && forall c | c in cs :: c.mark != key.mark
    ensures var value := [Entry(ValueToken, mark, false)];
            var placed := KeyBefore(all, key, opens) + value;
            && With(placed, cs) == With(all, [Chosen(key.mark, opens)] + cs) + value
            && With(value, [Chosen(key.mark, opens)] + cs) == value
            && Ordered(placed, later)
  {
    hide With, Ordered, KeyBefore;
    var value := [Entry(ValueToken, mark, false)];
    KeyInserted(all, key, Chosen(key.mark, opens), cs, mark);
    WithAppend(KeyBefore(all, key, opens), value, cs);
    WithOthers(value, cs);
    WithOthers(value, [Chosen(key.mark, opens)] + cs);
    BeforeOrdered(all, key, opens, mark);
    OrderedAppend(KeyBefore(all, key, opens), value, mark, later);
  }

  lemma ColonParts(a: Layout, key: SimpleKey)
    requires LayoutOk(a) && a.keys[a.flowLevel].possible && key.mark == a.keys[a.flowLevel].mark
    ensures ChosenBy(a, Colon) == [Chosen(key.mark, a.flowLevel == 0 && a.indent < key.mark.column)]
    ensures Front(a, Colon) == [] && OwnToken(Colon, a.mark) == [Entry(ValueToken, a.mark, false)]
  {
  }

  lemma NotChosen(a: Layout, k: Kind)
    requires LayoutOk(a) && !(k.Colon? && a.keys[a.flowLevel].possible)
    ensures ChosenBy(a, k) == []
  {
  }

  lemma ChosenElsewhere(a: Layout, m: Layout, cs: seq<Chosen>)
    requires LayoutOk(a) && KeysOrdered(a) && a.keys[a.flowLevel].possible && Before(a.mark, m.mark)
    requires !Possible(m, a.keys[a.flowLevel].mark)
    requires forall c | c in cs :: Possible(m, c.mark) || NotBefore(c.mark, m.mark)
    ensures forall c | c in cs :: c.mark != a.keys[a.flowLevel].mark
  {
    hide Possible;
  }

  lemma BeforeOrdered(all: seq<Entry>, key: SimpleKey, opens: bool, mark: Mark)
    requires key.number <= |all| && Ordered(all, mark)
    ensures Ordered(KeyBefore(all, key, opens), mark)
  {
    hide Ordered;
    var c := Chosen(key.mark, opens);
    assert KeyBefore(all, key, opens) == all[..key.number] + KeyEntries(c) + all[key.number..];
    OrderedInside(all, key.number, KeyEntries(c), mark);
  }

  lemma KeyIsPast(a: Layout, m: Layout)
    requires LayoutOk(a) && KeysOrdered(a) && a.keys[a.flowLevel].possible && Before(a.mark, m.mark)
    ensures Before(a.keys[a.flowLevel].mark, m.mark)
  {
  }

  /** The tokens so far, with what will be put in front of them, and the tokens to come. */
  function Outlook(all: seq<Entry>, l: Layout, script: seq<Lexeme>, lastGap: Move): seq<Entry>
    requires LayoutOk(l)
  {
    var cs := AllChosen(l, script);
    With(all, cs) + Arranged(l, script, cs, lastGap)
  }

  /** Taking the next lexeme does not change it. */
  lemma StepKeepsOutlook(all: seq<Entry>, l: Layout, keys: seq<SimpleKey>, script: seq<Lexeme>, m: Layout,
                         lastGap: Move)
    requires LayoutOk(l) && KeysOrdered(l) && ScriptOk(script) && script != [] && Step(l, script[0]) == Next(m)
    requires Ordered(all, l.mark)
    requires var a := Approached(l, script[0].gap); Tied(keys, a, all + Ends(Closed(l, a), a.mark))
    ensures var a := Approached(l, script[0].gap);
            var next := Placed(all + Ends(Closed(l, a), a.mark), a, keys, script[0].kind);
            && LayoutOk(m) && KeysOrdered(m) && Ordered(next, m.mark)
            && Outlook(next, m, script[1..], lastGap) == Outlook(all, l, script, lastGap)
  {
    hide StepKind, KeysOrdered, Approached, With, Front, Ordered, Placed, Arranged, Tied, Possible;
    var x, rest := script[0], script[1..];
    var a := Approached(l, x.gap);
    NextKind(script);
    ApproachedKeys(l, x.gap);
    StepKeys(a, x.kind);
    var cs := AllChosen(m, rest);
    ChosenLater(m, rest);
    var chosen, ends := ChosenBy(a, x.kind) + cs, Ends(Closed(l, a), a.mark);
    OrderedLater(all, l.mark, a.mark);
    OrderedOthers(all, ends, a.mark);
    PlacedKeeps(all + ends, a, keys, x.kind, m, cs);
    WithAppend(all, ends, chosen);
    WithOthers(ends, chosen);
    ChosenBefore(l, script, m, cs, lastGap);
    var own := Front(a, x.kind) + With(OwnToken(x.kind, a.mark), chosen);
    assert With(all, chosen) + ends + own + Arranged(m, rest, cs, lastGap) ==
           With(all, chosen) + (ends + own + Arranged(m, rest, cs, lastGap));
  }

  lemma OrderedLater(all: seq<Entry>, mark: Mark, later: Mark)
    requires Ordered(all, mark) && NotBefore(later, mark)
    ensures Ordered(all, later)
  {
  }

  lemma ChosenBefore(l: Layout, script: seq<Lexeme>, m: Layout, cs: seq<Chosen>, lastGap: Move)
    requires LayoutOk(l) && KeysOrdered(l) && ScriptOk(script) && script != [] && Step(l, script[0]) == Next(m)
    requires LayoutOk(m) && cs == AllChosen(m, script[1..])
    ensures var a := Approached(l, script[0].gap);
            var chosen := ChosenBy(a, script[0].kind) + cs;
            && chosen == AllChosen(l, script)
            && Arranged(l, script, chosen, lastGap) ==
               Ends(Closed(l, a), a.mark) +
               (Front(a, script[0].kind) + With(OwnToken(script[0].kind, a.mark), chosen)) +
               Arranged(m, script[1..], cs, lastGap)
  {
    hide StepKind, KeysOrdered, Approached, With, Front, Ends;
    var x, rest := script[0], script[1..];
    var a := Approached(l, x.gap);
    NextKind(script);
    ApproachedKeys(l, x.gap);
    StepKeys(a, x.kind);
    if ChosenBy(a, x.kind) == [] {
      assert ChosenBy(a, x.kind) + cs == cs;
    } else {
      KeyIsPast(a, m);
      ArrangedSame(m, rest, ChosenBy(a, x.kind)[0], cs, lastGap);
    }
  }

  // ---------------------------------------------------------------- beginning and end

  lemma {:induction false} WithNone(all: seq<Entry>)
    ensures With(all, []) == all
    decreases |all|
  {
    if all != [] {
      var n := |all| - 1;
      WithNone(all[..n]);
      assert [] + [all[n]] == [all[n]];
      assert all == all[..n] + [all[n]];
    }
  }

  lemma OutlookAtStart(mark: Mark, script: seq<Lexeme>, lastGap: Move)
    ensures var e := Entry(StreamStartToken, mark, false);
            Outlook([e], Initial(mark), script, lastGap) == TokensOfText(mark, script, lastGap) && Ordered([e], mark)
  {
    hide AllChosen, Arranged;
    WithOthers([Entry(StreamStartToken, mark, false)], AllChosen(Initial(mark), script));
  }

  lemma OutlookAtEnd(all: seq<Entry>, l: Layout, lastGap: Move)
    requires LayoutOk(l)
    ensures Outlook(all, l, [], lastGap) == all + EndEntries(l, lastGap)
  {
    hide EndEntries;
    WithNone(all);
  }

  /** To give up candidates as soon as they are too old does not change the tokens. */
  lemma FreshOutlook(all: seq<Entry>, l: Layout, script: seq<Lexeme>, lastGap: Move)
    requires LayoutOk(l) && !StaleFails(l.keys, l.mark)
    ensures Outlook(all, l.(keys := FreshKeys(l.keys, l.mark)), script, lastGap) == Outlook(all, l, script, lastGap)
  {
    hide StepKind, With, Front;
    var f := l.(keys := FreshKeys(l.keys, l.mark));
    if script == [] {
      OutlookAtEnd(all, l, lastGap);
      OutlookAtEnd(all, f, lastGap);
    } else {
      var m := Moved(l.mark, script[0].gap);
      assert FreshKeys(f.keys, m) == FreshKeys(l.keys, m);
      FreshFails(l.keys, l.mark, m);
      assert Approached(f, script[0].gap) == Approached(l, script[0].gap);
      assert Step(f, script[0]) == Step(l, script[0]);
      FreshParts(f, l, script, lastGap);
    }
  }

  lemma FreshParts(f: Layout, l: Layout, script: seq<Lexeme>, lastGap: Move)
    requires LayoutOk(l) && LayoutOk(f) && f.indents == l.indents && script != []
    requires Step(f, script[0]) == Step(l, script[0])
    requires Approached(f, script[0].gap) == Approached(l, script[0].gap)
    ensures AllChosen(f, script) == AllChosen(l, script)
    ensures forall cs :: Arranged(f, script, cs, lastGap) == Arranged(l, script, cs, lastGap)
  {
    hide Step, Approached, With, Front;
  }

  /** Candidates that are right in the queue are ordered, and tied to the layout. */
  lemma KeysAreTied(keys: seq<SimpleKey>, l: Layout, all: seq<Entry>, parsed: nat)
    requires KeysOk(keys, all, parsed, l.mark) && Ordered(all, l.mark) && |keys| == |l.keys|
    requires forall i | 0 <= i < |keys| :: l.keys[i] == keys[i].(number := 0)
    ensures KeysOrdered(l) && Tied(keys, l, all)
  {
  }
}
