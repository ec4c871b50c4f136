/**
 The scanner's token queue, as sequences: marks, candidates for simple keys, the indentation
 stack, and the balance of block tokens.
 */
module TokenQueue {
  import opened YamlTokens

  datatype Mark = Mark(index: nat, line: nat, column: nat)

  /** A step through the text: to a column of a later line, or along the same line. */
  datatype Move = Move(chars: nat, lines: nat, column: nat)

  function Moved(m: Mark, v: Move): Mark {
    Mark(m.index + v.chars, m.line + v.lines, if v.lines > 0 then v.column else m.column + v.chars)
  }

  predicate Before(a: Mark, b: Mark) {
    a.line < b.line || (a.line == b.line && a.column < b.column)
  }

  /** A token with its position; `added` if the scanner put it in, and it does not stand in the text. */
  datatype Entry = Entry(token: Token, mark: Mark, added: bool)

  datatype SimpleKey = SimpleKey(possible: bool, required: bool, number: nat, mark: Mark)

  const NO_KEY := SimpleKey(false, false, 0, Mark(0, 0, 0))

  /** The tokens that a simple key may begin with. */
  predicate StartsKey(t: Token) {
    || t.AliasToken? || t.AnchorToken? || t.TagToken? || t.ScalarToken?
    || t.FlowSequenceStartToken? || t.FlowMappingStartToken?
  }

  /** The candidate stands for a token that is in the queue, and lies before the current position. */
  predicate KeyOk(k: SimpleKey, all: seq<Entry>, parsed: nat, mark: Mark) {
    k.possible ==>
      && parsed <= k.number < |all| && all[k.number].mark == k.mark && StartsKey(all[k.number].token)
      && Before(k.mark, mark)
  }

  predicate KeysOk(keys: seq<SimpleKey>, all: seq<Entry>, parsed: nat, mark: Mark) {
    && (forall i | 0 <= i < |keys| :: KeyOk(keys[i], all, parsed, mark))
    && (forall i, j | 0 <= i < j < |keys| && keys[i].possible && keys[j].possible :: keys[i].number < keys[j].number)
  }

  lemma KeysAppend(keys: seq<SimpleKey>, all: seq<Entry>, parsed: nat, mark: Mark, e: Entry)
    requires KeysOk(keys, all, parsed, mark)
    ensures KeysOk(keys, all + [e], parsed, mark)
  {
  }

  lemma KeysMoved(keys: seq<SimpleKey>, all: seq<Entry>, parsed: nat, mark: Mark, later: Mark)
    requires KeysOk(keys, all, parsed, mark) && (later == mark || Before(mark, later))
    ensures KeysOk(keys, all, parsed, later)
  {
  }

  /** With some candidates given up, the rest stay right. */
  lemma KeysFewer(keys: seq<SimpleKey>, fewer: seq<SimpleKey>, all: seq<Entry>, parsed: nat, mark: Mark)
    requires KeysOk(keys, all, parsed, mark) && |fewer| <= |keys|
    requires forall i | 0 <= i < |fewer| :: fewer[i] == keys[i] || !fewer[i].possible
    ensures KeysOk(fewer, all, parsed, mark)
  {
  }

  /** One more level, without a candidate. */
  lemma KeysMore(keys: seq<SimpleKey>, all: seq<Entry>, parsed: nat, mark: Mark)
    requires KeysOk(keys, all, parsed, mark)
    ensures KeysOk(keys + [NO_KEY], all, parsed, mark)
  {
  }

  /** A candidate on top, for the token that comes next. */
  lemma KeysSaved(keys: seq<SimpleKey>, all: seq<Entry>, parsed: nat, mark: Mark, required: bool, e: Entry, later: Mark)
    requires KeysOk(keys, all, parsed, mark) && keys != [] && parsed <= |all|
    requires e.mark == mark && StartsKey(e.token) && Before(mark, later)
    ensures KeysOk(keys[|keys| - 1 := SimpleKey(true, required, |all|, mark)], all + [e], parsed, later)
  {
  }

  function Inserted(s: seq<Entry>, i: nat, e: Entry): (r: seq<Entry>)
    requires i <= |s|
    ensures |r| == |s| + 1 && r[..i] == s[..i] && r[i] == e && r[i + 1..] == s[i..]
  {
    s[..i] + [e] + s[i..]
  }

  /** The candidate on top given up. */
  function Dropped(keys: seq<SimpleKey>): (r: seq<SimpleKey>)
    requires keys != []
    ensures |r| == |keys| && !r[|r| - 1].possible && forall i | 0 <= i < |keys| - 1 :: r[i] == keys[i]
  {
    keys[|keys| - 1 := keys[|keys| - 1].(possible := false)]
  }

  /** An insertion in front of the top candidate leaves the candidates below it where they are. */
  lemma KeysInserted(keys: seq<SimpleKey>, all: seq<Entry>, parsed: nat, mark: Mark, e: Entry)
    requires KeysOk(keys, all, parsed, mark) && keys != [] && keys[|keys| - 1].possible
    ensures var k := keys[|keys| - 1].number;
            && parsed <= k < |all| && KeysOk(Dropped(keys), Inserted(all, k, e), parsed, mark)
            && (forall i | 0 <= i < |keys| && Dropped(keys)[i].possible :: Dropped(keys)[i].number < k)
  {
  }

  lemma KeysInsertedAgain(keys: seq<SimpleKey>, all: seq<Entry>, parsed: nat, mark: Mark, k: nat, e: Entry)
    requires KeysOk(keys, all, parsed, mark) && k <= |all|
    requires forall i | 0 <= i < |keys| && keys[i].possible :: keys[i].number < k
    ensures KeysOk(keys, Inserted(all, k, e), parsed, mark)
  {
  }

  // ---------------------------------------------------------------- indentation

  /** The columns of the open blocks, outermost first, grow from -1. */
  predicate Levels(indents: seq<int>, indent: int) {
    var all := indents + [indent];
    all[0] == -1 && forall i, j | 0 <= i < j < |all| :: all[i] < all[j]
  }

  lemma LevelsPush(indents: seq<int>, indent: int, column: int)
    requires Levels(indents, indent) && indent < column
    ensures Levels(indents + [indent], column)
  {
    var all, more := indents + [indent], indents + [indent] + [column];
    forall i, j | 0 <= i < j < |more| ensures more[i] < more[j] {
      assert all[i] <= all[|all| - 1];
      if j < |all| { assert all[i] < all[j]; }
    }
  }

  lemma LevelsPop(indents: seq<int>, indent: int)
    requires Levels(indents, indent) && indent > -1
    ensures indents != [] && Levels(indents[..|indents| - 1], indents[|indents| - 1]) && indents[|indents| - 1] < indent
  {
    var all := indents + [indent];
    if indents != [] {
      assert indents[..|indents| - 1] + [indents[|indents| - 1]] == all[..|indents|];
      assert all[|indents| - 1] < all[|indents|];
    }
  }

  lemma LevelsBottom(indents: seq<int>, indent: int)
    requires Levels(indents, indent)
    ensures indent >= -1 && (indent == -1 <==> indents == [])
  {
    var all := indents + [indent];
    if indents != [] { assert all[0] < all[|indents|]; }
  }

  // ---------------------------------------------------------------- balance

  function Change(t: Token): int {
    if t.BlockSequenceStartToken? || t.BlockMappingStartToken? then 1 else if t.BlockEndToken? then -1 else 0
  }

  /** Block starts less block ends. */
  function Depth(s: seq<Entry>): int {
    if s == [] then 0 else Depth(s[..|s| - 1]) + Change(s[|s| - 1].token)
  }

  /** No block is closed that was not opened. */
  ghost predicate NeverBelow(s: seq<Entry>) {
    forall k | 0 <= k <= |s| :: Depth(s[..k]) >= 0
  }

  lemma DepthAppend(s: seq<Entry>, e: Entry)
    ensures Depth(s + [e]) == Depth(s) + Change(e.token)
  {
  }

  lemma NeverBelowAppend(s: seq<Entry>, e: Entry)
    requires NeverBelow(s) && Depth(s) + Change(e.token) >= 0
    ensures NeverBelow(s + [e])
  {
    DepthAppend(s, e);
    forall k | 0 <= k <= |s| + 1 ensures Depth((s + [e])[..k]) >= 0 {
      if k <= |s| { assert (s + [e])[..k] == s[..k]; } else { assert (s + [e])[..k] == s + [e]; }
    }
  }

  lemma {:induction false} DepthInserted(s: seq<Entry>, i: nat, e: Entry)
    requires i <= |s|
    ensures Depth(Inserted(s, i, e)) == Depth(s) + Change(e.token)
    decreases |s|
  {
    var r := Inserted(s, i, e);
    if i == |s| {
      assert r == s + [e];
      DepthAppend(s, e);
    } else {
      var t := s[..|s| - 1];
      DepthInserted(t, i, e);
      assert r[..|s|] == Inserted(t, i, e);
      assert r[|s|] == r[i + 1..][|s| - i - 1] == s[|s| - 1];
    }
  }

  lemma NeverBelowInserted(s: seq<Entry>, i: nat, e: Entry)
    requires NeverBelow(s) && i <= |s| && Change(e.token) >= 0
    ensures NeverBelow(Inserted(s, i, e))
  {
    var r := Inserted(s, i, e);
    forall k | 0 <= k <= |r| ensures Depth(r[..k]) >= 0 {
      if k <= i {
        assert r[..k] == s[..k];
      } else {
        assert r[..k] == Inserted(s[..k - 1], i, e) by {
          assert forall j | 0 <= j < k :: r[j] == Inserted(s[..k - 1], i, e)[j];
        }
        DepthInserted(s[..k - 1], i, e);
        assert Depth(s[..k - 1]) >= 0;
      }
    }
  }

  // ---------------------------------------------------------------- what the text spells out

  function Shown(e: Entry): seq<Token> {
    if e.added then [] else [e.token]
  }

  /** The tokens that stand in the text. */
  function Spelled(s: seq<Entry>): seq<Token> {
    if s == [] then [] else Spelled(s[..|s| - 1]) + Shown(s[|s| - 1])
  }

  lemma SpelledAppend(s: seq<Entry>, e: Entry)
    ensures Spelled(s + [e]) == Spelled(s) + Shown(e)
  {
    assert (s + [e])[..|s|] == s;
  }

  /** An addition anywhere does not change what the text spells out. */
  lemma {:induction false} SpelledInserted(s: seq<Entry>, i: nat, e: Entry)
    requires i <= |s| && e.added
    ensures Spelled(Inserted(s, i, e)) == Spelled(s)
    decreases |s|
  {
    var r := Inserted(s, i, e);
    if i == |s| {
      assert r == s + [e];
      SpelledAppend(s, e);
    } else {
      var t := s[..|s| - 1];
      SpelledInserted(t, i, e);
      assert r[..|s|] == Inserted(t, i, e);
      assert r[|s|] == r[i + 1..][|s| - i - 1] == s[|s| - 1];
    }
  }
}
