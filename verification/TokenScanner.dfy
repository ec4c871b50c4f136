/**
 The scanner as steps over its queue, its stack of simple-key candidates and its indentation
 stack. What the text holds is an arbitrary list of lexemes. A candidate becomes a key only when
 its colon is seen; the KEY token, and the start of a block mapping, are then inserted into
 the queue in front of the token that the candidate was saved for.
 */
module TokenScanner {
  import opened YamlTokens
  import opened TokenQueue
  import opened ScannerLayout
  import opened ScannerTokens

  /** A candidate without the number of its token. */
  function Bare(k: SimpleKey): SimpleKey {
    k.(number := 0)
  }

  function BareAll(keys: seq<SimpleKey>): (r: seq<SimpleKey>)
    ensures |r| == |keys| && forall i | 0 <= i < |keys| :: r[i] == Bare(keys[i])
  {
    seq(|keys|, i requires 0 <= i < |keys| => Bare(keys[i]))
  }

  class Scanner {
    var script: seq<Lexeme>
    /** The blanks behind the last token. */
    const lastGap: Move
    var mark: Mark
    var tokens: seq<Entry>
    var head: nat
    var capacity: nat
    var tokensParsed: nat
    var available: bool
    var started: bool
    var endProduced: bool
    var indent: int
    var indents: seq<int>
    var flowLevel: nat
    var keys: seq<SimpleKey>
    var allowed: bool
    var failed: bool
    var panicked: bool

    /** The tokens handed out so far. */
    ghost var out: seq<Entry>
    /** STREAM-END is in the queue, or handed out. */
    ghost var finished: bool

    constructor (script: seq<Lexeme>, lastGap: Move)
      requires ScriptOk(script)
      ensures Valid() && Working() && Settled() && !started && !endProduced && out == []
      ensures this.script == script && mark == Mark(0, 0, 0)
    {
      this.script, this.lastGap, mark := script, lastGap, Mark(0, 0, 0);
      tokens, head, capacity, tokensParsed, available := [], 0, 0, 0, false;
      started, endProduced, indent, indents, flowLevel, keys, allowed := false, false, 0, [], 0, [], false;
      failed, panicked := false, false;
      out, finished := [], false;
    }

    /** All tokens, handed out or queued, in order. */
    ghost function All(): seq<Entry>
      requires head <= |tokens|
      reads this
    {
      out + tokens[head..]
    }

    predicate Working()
      reads this
    {
      !failed && !panicked
    }

    ghost predicate Frame()
      reads this
    {
      && head <= |tokens| <= capacity && |out| == tokensParsed
      && ScriptOk(script)
      && (!started ==> All() == [] && flowLevel == 0 && keys == [] && !finished)
      && (started ==> |keys| == flowLevel + 1 && Levels(indents, indent) && StartsStream(All()))
      && (finished ==> started && script == [] && Behind(keys, mark) && (flowLevel == 0 ==> indents == []))
      && EndsOnce(All(), finished) && (endProduced <==> finished && head == |tokens|)
    }

    ghost predicate Candidates()
      requires head <= |tokens|
      reads this
    {
      KeysOk(keys, All(), tokensParsed, mark)
    }

    ghost predicate Balanced()
      requires head <= |tokens|
      reads this
    {
      NeverBelow(All()) && Depth(All()) == if started then |indents| else 0
    }

    ghost predicate Core()
      reads this
    {
      Frame() && Candidates() && Balanced()
    }

    ghost predicate Valid()
      reads this
    {
      Working() ==> Core()
    }

    /** The layout that the scanner has reached. */
    ghost function View(): Layout
      reads this
    {
      Layout(mark, indents, indent, flowLevel, BareAll(keys), allowed)
    }

    /** The scanner has done what the layout says. */
    ghost predicate Follows(o: Outcome)
      reads this
    {
      match o
      case Refused => failed && !panicked
      case Panic => panicked && !failed
      case Next(l) => Working() && View() == l
    }

    /** The rest of the text will make the scanner panic. */
    ghost predicate AheadPanics()
      requires started ==> |keys| == flowLevel + 1
      reads this
    {
      Panics(if started then View() else Initial(mark), script)
    }

    /** Insert a token at a place of the queue, or at its end if the place is negative. */
    method Insert(pos: int, e: Entry)
      requires head <= |tokens| <= capacity && pos <= |tokens| - head
      modifies `tokens, `head, `capacity
      ensures head <= |tokens| <= capacity
      ensures tokens[head..] == Inserted(old(tokens[head..]), if pos < 0 then old(|tokens| - head) else pos, e)
    {
      ghost var queue := tokens[head..];
      if head > 0 && |tokens| == capacity {
        tokens, head := tokens[head..], 0;
      }
      assert tokens[head..] == queue;
      tokens := tokens + [e];
      if |tokens| > capacity { capacity := 2 * |tokens|; }
      assert tokens[head..] == queue + [e];
      if pos < 0 {
        assert queue + [e] == Inserted(queue, |queue|, e);
        return;
      }
      tokens := tokens[..head + pos] + [e] + tokens[head + pos..|tokens| - 1];
      assert tokens[head..] == queue[..pos] + [e] + queue[pos..];
    }

    /** The same, seen in the list of all tokens. */
    method InsertAt(number: int, e: Entry)
      requires head <= |tokens| <= capacity && |out| == tokensParsed
      requires (number >= 0 ==> tokensParsed <= number <= |All()|) && number != 0
      modifies `tokens, `head, `capacity
      ensures head <= |tokens| <= capacity
      ensures All() == Inserted(old(All()), if number < 0 then old(|All()|) else number, e)
      ensures old(All()) != [] ==> All()[0] == old(All())[0]
    {
      ghost var n, queue := if number < 0 then |All()| else number, tokens[head..];
      Insert(if number < 0 then -1 else number - tokensParsed, e);
      InsertedBehind(out, queue, n - |out|, e);
    }

    /** Give up the candidates that are on an earlier line or too far back. */
    method StaleKeys()
      requires Valid() && Working()
      modifies `keys, `failed
      ensures Valid() && !panicked && |keys| == old(|keys|)
      ensures !failed ==> keys == FreshKeys(old(keys), mark)
      ensures failed <==> StaleFails(old(keys), mark)
    {
      hide KeysOk, Levels, NeverBelow, Depth, EndsOnce, ScriptOk, Behind, Spelled;
      ghost var before := keys;
      var i := 0;
      while i < |keys|
        invariant i <= |keys| == |before| && Working()
        invariant forall j | 0 <= j < |keys| :: keys[j] == if j < i then FreshKey(before[j], mark) else before[j]
        invariant forall j | 0 <= j < i && IsStale(before[j], mark) :: !before[j].required
      {
        var k := keys[i];
        if IsStale(k, mark) {
          if k.required {
            failed := true;
            return;
          }
          keys := keys[i := k.(possible := false)];
        }
        i := i + 1;
      }
      KeysFewer(before, keys, All(), tokensParsed, mark);
      BehindFewer(before, keys, mark);
    }

    /** Give up the candidate on top; a required one must not be given up. */
    method RemoveKey()
      requires Core() && Working() && started
      modifies `keys, `failed
      ensures !panicked && (failed <==> TopRequired(old(View())))
      ensures !failed ==> Core() && keys == Dropped(old(keys))
      ensures !failed ==> View() == old(View()).(keys := Dropped(old(View()).keys))
    {
      hide KeysOk, Levels, NeverBelow, Depth, EndsOnce, ScriptOk, Behind, Spelled;
      var i := |keys| - 1;
      if keys[i].possible && keys[i].required {
        failed := true;
        return;
      }
      ghost var before := keys;
      keys := keys[i := keys[i].(possible := false)];
      KeysFewer(before, keys, All(), tokensParsed, mark);
      BehindFewer(before, keys, mark);
      BareDropped(before);
    }

    /** Close blocks until the indentation is at most the column; nothing in a flow collection. */
    method UnrollIndent(column: int)
      requires Core() && Working() && started && column >= -1 && !finished
      modifies `tokens, `head, `capacity, `indent, `indents
      ensures Core() && Working() && (flowLevel == 0 ==> indent <= column)
      ensures View() == Unrolled(old(View()), column)
      ensures All() == old(All()) + Ends(Closed(old(View()), View()), mark) && Spelled(All()) == old(Spelled(All()))
    {
      hide KeysOk, Levels, NeverBelow, Depth, EndsOnce, ScriptOk, Behind, Spelled;
      if flowLevel > 0 { return; }
      while indent > column
        invariant Core() && Working() && |indents| <= old(|indents|)
        invariant All() == old(All()) + Ends(old(|indents|) - |indents|, mark)
        invariant Unroll(indents, indent, column) == Unroll(old(indents), old(indent), column)
        invariant Spelled(All()) == old(Spelled(All()))
        decreases |indents|
      {
        LevelsPop(indents, indent);
        SpelledAppend(All(), Entry(BlockEndToken, mark, true));
        assert Spelled(All()) + [] == Spelled(All());
        Append(Entry(BlockEndToken, mark, true), indents[..|indents| - 1], indents[|indents| - 1]);
      }
    }

    /** A token at the end of the queue, with the indentation that goes with it. */
    method Append(e: Entry, newIndents: seq<int>, newIndent: int)
      requires Core() && Working() && started && !finished
      requires Levels(newIndents, newIndent) && |newIndents| == |indents| + Change(e.token) && !e.token.StreamEndToken?
      modifies `tokens, `head, `capacity, `indent, `indents
      ensures Core() && Working() && indents == newIndents && indent == newIndent && All() == old(All()) + [e]
    {
      hide KeysOk, Levels, NeverBelow, Depth, EndsOnce, ScriptOk, Behind, Spelled;
      ghost var all := All();
      InsertAt(-1, e);
      InsertedLast(all, e);
      EndsOnceInserted(all, |all|, e);
      indents, indent := newIndents, newIndent;
      KeysAppend(keys, all, tokensParsed, mark, e);
      NeverBelowAppend(all, e);
      DepthAppend(all, e);
    }

    /** Open a block at the column, with a token in front of the numbered one or at the end. */
    method RollIndent(column: nat, number: int, e: Entry)
      requires Valid() && Working() && started && !finished && Change(e.token) == 1 && e.added
      requires number >= 0 ==> 0 < number && tokensParsed <= number <= |All()|
      requires number >= 0 ==> forall i | 0 <= i < |keys| && keys[i].possible :: keys[i].number < number
      modifies `tokens, `head, `capacity, `indent, `indents
      ensures Valid() && Working() && View() == Rolled(old(View()), column)
      ensures Spelled(All()) == old(Spelled(All()))
      ensures var opens := flowLevel == 0 && old(indent) < column;
              All() == if !opens then old(All())
              else Inserted(old(All()), if number < 0 then old(|All()|) else number, e)
    {
      hide KeysOk, Levels, NeverBelow, Depth, EndsOnce, ScriptOk, Behind, Spelled, BareAll, Inserted;
      if flowLevel > 0 || indent >= column { return; }
      ghost var all := All();
      LevelsPush(indents, indent, column);
      indents, indent := indents + [indent], column;
      InsertAt(number, e);
      ghost var n := if number < 0 then |all| else number;
      if number >= 0 {
        KeysInsertedAgain(keys, all, tokensParsed, mark, n, e);
      } else {
        KeysAppend(keys, all, tokensParsed, mark, e);
        InsertedLast(all, e);
      }
      EndsOnceInserted(all, n, e);
      SpelledInserted(all, n, e);
      NeverBelowInserted(all, n, e);
      DepthInserted(all, n, e);
    }

    /** Step over a token that is no candidate, and append it. */
    method Produce(t: Token, v: Move, newAllowed: bool)
      requires Valid() && Working() && started && !finished && Change(t) == 0 && !t.StreamEndToken? && Advances(v)
      modifies `tokens, `head, `capacity, `indent, `indents, `mark, `allowed
      ensures Valid() && Working() && All() == old(All()) + [Entry(t, old(mark), false)]
      ensures Spelled(All()) == old(Spelled(All())) + [t]
      ensures View() == Took(old(View()), v, newAllowed)
    {
      hide KeysOk, Levels, NeverBelow, Depth, EndsOnce, ScriptOk, Behind, Spelled;
      var e := Entry(t, mark, false);
      KeysMoved(keys, All(), tokensParsed, mark, Moved(mark, v));
      mark, allowed := Moved(mark, v), newAllowed;
      SpelledAppend(All(), e);
      Append(e, indents, indent);
    }

    /** The candidates with one at the current position, if a key is allowed there. */
    ghost function Saved(): seq<SimpleKey>
      requires head <= |tokens| && keys != []
      reads this
    {
      if allowed then keys[|keys| - 1 := SimpleKey(true, flowLevel == 0 && indent == mark.column, |All()|, mark)]
      else keys
    }

    /** Note a candidate for a key at the current position. It panics where a key is required but not allowed. */
    method SaveKey()
      requires Valid() && Working() && started && !finished
      modifies `keys, `failed, `panicked
      ensures panicked <==> KeyPanics(old(View()))
      ensures !failed && !panicked ==> keys == old(Saved())
      ensures failed <==> !panicked && allowed && TopRequired(old(View()))
      ensures Working() && !allowed ==> Valid()
    {
      hide KeysOk, Levels, NeverBelow, Depth, EndsOnce, ScriptOk, Behind, Spelled;
      var required := flowLevel == 0 && indent == mark.column;
      if required && !allowed {
        panicked := true;
        return;
      }
      if allowed {
        var key := SimpleKey(true, required, tokensParsed + (|tokens| - head), mark);
        RemoveKey();
        if failed { return; }
        keys := keys[|keys| - 1 := key];
      }
    }

    /** A token that may be a key, or may begin one. Brackets open a flow level as well. */
    method ProduceKey(t: Token, v: Move, opens: bool, newAllowed: bool)
      requires Valid() && Working() && started && !finished && StartsKey(t) && Advances(v)
      modifies `tokens, `head, `capacity, `indent, `indents, `mark, `allowed, `keys, `flowLevel, `failed, `panicked
      ensures Valid() && Follows(TakeKey(old(View()), v, opens, newAllowed))
      ensures Working() ==> All() == old(All()) + [Entry(t, old(mark), false)]
      ensures Working() ==> Spelled(All()) == old(Spelled(All())) + [t]
    {
      hide KeysOk, Levels, NeverBelow, Depth, EndsOnce, ScriptOk, Behind, Spelled, Frame, Balanced, BareAll;
      var e := Entry(t, mark, false);
      SaveFor(e, v);
      if failed || panicked { return; }
      if opens {
        BareMore(keys);
        OpenLevel(e, v);
      }
      Place(e, v, newAllowed);
    }

    /** One more flow level, without a candidate yet. */
    method OpenLevel(ghost e: Entry, ghost v: Move)
      requires Frame() && Balanced() && started && !finished && KeysOk(keys, All() + [e], tokensParsed, Moved(mark, v))
      modifies `keys, `flowLevel
      ensures Frame() && Balanced() && KeysOk(keys, All() + [e], tokensParsed, Moved(mark, v))
      ensures keys == old(keys) + [NO_KEY] && flowLevel == old(flowLevel) + 1
    {
      hide KeysOk, Levels, NeverBelow, Depth, EndsOnce, ScriptOk, Behind, Spelled;
      KeysMore(keys, All() + [e], tokensParsed, Moved(mark, v));
      flowLevel, keys := flowLevel + 1, keys + [NO_KEY];
    }

    /** The candidates as they are once the token is in the queue. */
    method SaveFor(e: Entry, v: Move)
      requires Valid() && Working() && started && !finished && StartsKey(e.token) && e.mark == mark && Advances(v)
      modifies `keys, `failed, `panicked
      ensures panicked <==> KeyPanics(old(View()))
      ensures Working() ==> Frame() && Balanced() && KeysOk(keys, All() + [e], tokensParsed, Moved(mark, v))
      ensures Working() ==> |keys| == flowLevel + 1
      ensures Working() ==> BareAll(keys) == SavedKeys(old(View()))
      ensures failed <==> !panicked && allowed && TopRequired(old(View()))
    {
      hide KeysOk, Levels, NeverBelow, Depth, EndsOnce, ScriptOk, Behind, Spelled;
      ghost var all, before := All(), keys;
      SaveKey();
      if failed || panicked { return; }
      BareSaved(before, flowLevel, SimpleKey(true, flowLevel == 0 && indent == mark.column, |all|, mark));
      if allowed {
        KeysSaved(before, all, tokensParsed, mark, keys[|keys| - 1].required, e, Moved(mark, v));
      } else {
        KeysAppend(keys, all, tokensParsed, mark, e);
        KeysMoved(keys, all + [e], tokensParsed, mark, Moved(mark, v));
      }
    }

    /** Step over a token and append it, where the candidates are already up to date. */
    method Place(e: Entry, v: Move, newAllowed: bool)
      requires Frame() && Balanced() && KeysOk(keys, All() + [e], tokensParsed, Moved(mark, v))
      requires started && !finished && Change(e.token) == 0 && !e.token.StreamEndToken?
      modifies `tokens, `head, `capacity, `mark, `allowed
      ensures Core() && Spelled(All()) == old(Spelled(All())) + Shown(e) && All() == old(All()) + [e]
      ensures mark == Moved(old(mark), v) && allowed == newAllowed
    {
      hide KeysOk, Levels, NeverBelow, Depth, EndsOnce, ScriptOk, Behind, Spelled;
      ghost var all := All();
      allowed, mark := newAllowed, Moved(mark, v);
      InsertAt(-1, e);
      InsertedLast(all, e);
      EndsOnceInserted(all, |all|, e);
      NeverBelowAppend(all, e);
      DepthAppend(all, e);
      SpelledAppend(all, e);
    }

    /** No block is open, and a key may come first. */
    method StartLayout()
      modifies `indent, `indents, `keys, `allowed
      ensures indents == [] && indent == -1 && |keys| == 1 && !keys[0].possible
      ensures BareAll(keys) == [NO_KEY] && allowed
    {
      indent, indents, keys, allowed := -1, [], [NO_KEY], true;
      BareFirst();
    }

    method FetchStreamStart()
      requires Valid() && Working() && !started
      modifies `indent, `keys, `allowed, `started, `tokens, `head, `capacity, `indents
      ensures View() == Initial(mark)
      ensures Valid() && Working() && started && All() == [Entry(StreamStartToken, mark, false)] && !finished
      ensures Spelled(All()) == [StreamStartToken] && script == old(script)
    {
      hide KeysOk, Levels, NeverBelow, Depth, EndsOnce, ScriptOk, Behind, Spelled, BareAll;
      StartLayout();
      InsertFirst();
      FirstEntry(keys, Entry(StreamStartToken, mark, false));
      started := true;
      SpelledFirst(Entry(StreamStartToken, mark, false));
    }

    method InsertFirst()
      requires head <= |tokens| <= capacity && All() == []
      modifies `tokens, `head, `capacity
      ensures head <= |tokens| <= capacity && All() == [Entry(StreamStartToken, mark, false)]
    {
      assert out == [] && tokens[head..] == [];
      Insert(-1, Entry(StreamStartToken, mark, false));
    }

    /** The end of the text. In block context every open block is closed first. */
    method FetchStreamEnd()
      requires Valid() && Working() && started && !finished && script == []
      modifies `tokens, `head, `capacity, `indent, `indents, `mark, `allowed, `keys, `failed, `finished
      ensures Valid() && !panicked
      ensures Working() ==> finished && Spelled(All()) == old(Spelled(All())) + [StreamEndToken]
      ensures Working() && flowLevel == 0 ==> indents == [] && Depth(All()) == 0
      ensures var at := EndMark(old(mark));
              Working() ==> All() == old(All()) + Ends(Closed(old(View()), Unrolled(old(View()), -1)), at) +
                                     [Entry(StreamEndToken, at, false)]
    {
      hide KeysOk, Levels, NeverBelow, Depth, EndsOnce, ScriptOk, Behind, Spelled, BareAll, Inserted;
      if mark.column != 0 {
        KeysMoved(keys, All(), tokensParsed, mark, mark.(column := 0, line := mark.line + 1));
        mark := mark.(column := 0, line := mark.line + 1);
      }
      UnrollIndent(-1);
      RemoveKey();
      if failed { return; }
      LevelsBottom(indents, indent);
      AppendEnd();
    }

    method AppendEnd()
      requires Core() && Working() && started && !finished && script == [] && mark.column == 0
      requires flowLevel == 0 ==> indents == []
      modifies `tokens, `head, `capacity, `allowed, `finished
      ensures Valid() && finished && Depth(All()) == |indents|
      ensures All() == old(All()) + [Entry(StreamEndToken, mark, false)]
      ensures Spelled(All()) == old(Spelled(All())) + [StreamEndToken]
    {
      hide KeysOk, Levels, NeverBelow, Depth, EndsOnce, ScriptOk, Behind, Spelled, Inserted;
      allowed := false;
      ghost var all := All();
      var e := Entry(StreamEndToken, mark, false);
      InsertAt(-1, e);
      InsertedLast(all, e);
      KeysAppend(keys, all, tokensParsed, mark, e);
      KeysBehind(keys, all + [e], tokensParsed, mark);
      NeverBelowAppend(all, e);
      DepthAppend(all, e);
      SpelledAppend(all, e);
      EndsOnceLast(all, e);
      finished := true;
    }

    /** What holds when a token is about to be fetched. */
    ghost predicate Ready()
      reads this
    {
      && Core() && Working() && started && !finished && (flowLevel == 0 ==> indent <= mark.column)
      && (keys[flowLevel].possible ==> keys[flowLevel].mark.line >= mark.line)
    }

    /** The colon of a simple key: KEY, and perhaps the start of a mapping, go in front of the key's token. */
    method InsertKey()
      requires Ready() && keys[flowLevel].possible
      modifies `tokens, `head, `capacity, `indent, `indents, `keys
      ensures Core()
      ensures Spelled(All()) == old(Spelled(All()))
      ensures var l := old(View()); View() == Rolled(l.(keys := Dropped(l.keys)), l.keys[flowLevel].mark.column)
      ensures var k := old(keys[flowLevel]);
              && tokensParsed <= k.number < old(|All()|)
              && All() == KeyBefore(old(All()), k, flowLevel == 0 && old(indent) < k.mark.column)
    {
      hide KeysOk, Levels, NeverBelow, Depth, EndsOnce, ScriptOk, Behind, Spelled, KeyBefore, Inserted;
      var k := keys[|keys| - 1];
      ghost var all := All();
      InsertKeyToken(k);
      KeyBeforeParts(all, k);
      RollIndent(k.mark.column, k.number, Entry(BlockMappingStartToken, k.mark, true));
    }

    method InsertKeyToken(k: SimpleKey)
      requires Ready() && k == keys[flowLevel] && k.possible
      modifies `tokens, `head, `capacity, `keys
      ensures Core() && k.mark.column < mark.column && tokensParsed <= k.number < old(|All()|) && k.number > 0
      ensures All() == Inserted(old(All()), k.number, Entry(KeyToken, k.mark, true))
      ensures Spelled(All()) == old(Spelled(All()))
      ensures View() == old(View()).(keys := Dropped(old(View()).keys))
      ensures forall i | 0 <= i < |keys| && keys[i].possible :: keys[i].number < k.number
    {
      hide KeysOk, Levels, NeverBelow, Depth, EndsOnce, ScriptOk, Behind, Spelled, KeyBefore, Inserted;
      ghost var all := All();
      KeyBehind(keys, all, tokensParsed, mark);
      var e := Entry(KeyToken, k.mark, true);
      KeysInserted(keys, all, tokensParsed, mark, e);
      InsertAt(k.number, e);
      keys := keys[|keys| - 1 := k.(possible := false)];
      NeverBelowInserted(all, k.number, e);
      SpelledInserted(all, k.number, e);
      DepthInserted(all, k.number, e);
      EndsOnceInserted(all, k.number, e);
      BareDropped(old(keys));
    }

    method FetchValue()
      requires Ready()
      modifies `tokens, `head, `capacity, `indent, `indents, `keys, `mark, `allowed, `failed
      ensures Valid() && Follows(TakeColon(old(View())))
      ensures Working() ==> Spelled(All()) == old(Spelled(All())) + [ValueToken]
      ensures old(keys[flowLevel]).possible ==> Working() && tokensParsed <= old(keys[flowLevel]).number < old(|All()|)
      ensures var k, e := old(keys[flowLevel]), Entry(ValueToken, old(mark), false);
              k.possible ==> All() == KeyBefore(old(All()), k, flowLevel == 0 && old(indent) < k.mark.column) + [e]
      ensures var e := Entry(ValueToken, old(mark), false);
              Working() && !old(keys[flowLevel]).possible ==>
                All() == old(All()) + Opening(old(View()), BlockMappingStartToken) + [e]
    {
      hide KeysOk, Levels, NeverBelow, Depth, EndsOnce, ScriptOk, Behind, Spelled, BareAll, Inserted, KeyBefore;
      InsertedLast(All(), Entry(BlockMappingStartToken, mark, true));
      if keys[|keys| - 1].possible {
        InsertKey();
        Produce(ValueToken, ONE, false);
      } else {
        if flowLevel == 0 {
          if !allowed {
            failed := true;
            return;
          }
          RollIndent(mark.column, -1, Entry(BlockMappingStartToken, mark, true));
        }
        Produce(ValueToken, ONE, flowLevel == 0);
      }
    }

    /** A token that gives up the candidate on top. */
    method TakeAway(t: Token, v: Move, newAllowed: bool)
      requires Core() && Working() && started && !finished && Change(t) == 0 && !t.StreamEndToken? && Advances(v)
      modifies `tokens, `head, `capacity, `indent, `indents, `keys, `mark, `allowed, `failed
      ensures Valid() && Follows(TakeOther(old(View()), v, newAllowed))
      ensures Working() ==> All() == old(All()) + [Entry(t, old(mark), false)]
      ensures Working() ==> Spelled(All()) == old(Spelled(All())) + [t]
    {
      hide KeysOk, Levels, NeverBelow, Depth, EndsOnce, ScriptOk, Behind, Spelled, BareAll;
      RemoveKey();
      if !failed { Produce(t, v, newAllowed); }
    }

    /** A question mark or a dash, which may open a block at its column. */
    method FetchBlockIndicator(t: Token, block: Token)
      requires Ready() && Change(block) == 1 && (t.KeyToken? || t.BlockEntryToken?)
      modifies `tokens, `head, `capacity, `indent, `indents, `keys, `mark, `allowed, `failed
      ensures Valid() && Follows(TakeBlockIndicator(old(View()), t.BlockEntryToken?))
      ensures Working() ==> Spelled(All()) == old(Spelled(All())) + [t]
      ensures Working() ==> All() == old(All()) + Opening(old(View()), block) + [Entry(t, old(mark), false)]
    {
      hide KeysOk, Levels, NeverBelow, Depth, EndsOnce, ScriptOk, Behind, Spelled, Inserted, BareAll;
      InsertedLast(All(), Entry(block, mark, true));
      assert All() + [] == All();
      if flowLevel == 0 {
        if !allowed {
          failed := true;
          return;
        }
        RollIndent(mark.column, -1, Entry(block, mark, true));
      }
      TakeAway(t, ONE, t.BlockEntryToken? || flowLevel == 0);
    }

    /** A closing bracket or brace; at level 0 there is no level to leave. */
    method FetchFlowEnd(t: Token)
      requires Ready() && (t.FlowSequenceEndToken? || t.FlowMappingEndToken?)
      modifies `tokens, `head, `capacity, `indent, `indents, `keys, `mark, `allowed, `failed, `flowLevel
      ensures Valid() && Follows(TakeFlowEnd(old(View())))
      ensures Working() ==> All() == old(All()) + [Entry(t, old(mark), false)]
      ensures Working() ==> Spelled(All()) == old(Spelled(All())) + [t]
    {
      hide KeysOk, Levels, NeverBelow, Depth, EndsOnce, ScriptOk, Behind, Spelled, BareAll;
      RemoveKey();
      if failed { return; }
      if flowLevel > 0 {
        KeysFewer(keys, keys[..|keys| - 1], All(), tokensParsed, mark);
        BareTail(keys);
        flowLevel, keys := flowLevel - 1, keys[..|keys| - 1];
      }
      Close(t);
    }

    method Close(t: Token)
      requires Core() && Working() && started && !finished && Change(t) == 0 && !t.StreamEndToken?
      modifies `tokens, `head, `capacity, `indent, `indents, `mark, `allowed
      ensures Valid() && Working() && All() == old(All()) + [Entry(t, old(mark), false)]
      ensures Spelled(All()) == old(Spelled(All())) + [t]
      ensures View() == Took(old(View()), ONE, false)
    {
      hide KeysOk, Levels, NeverBelow, Depth, EndsOnce, ScriptOk, Behind, Spelled;
      var e := Entry(t, mark, false);
      KeysMoved(keys, All(), tokensParsed, mark, Moved(mark, ONE));
      KeysAppend(keys, All(), tokensParsed, Moved(mark, ONE), e);
      Place(e, ONE, false);
    }

    /** A directive or a document indicator: it ends every block. */
    method FetchAtMargin(t: Token, v: Move)
      requires Ready() && Change(t) == 0 && !t.StreamEndToken? && Advances(v)
      modifies `tokens, `head, `capacity, `indent, `indents, `keys, `mark, `allowed, `failed
      ensures Valid() && Follows(TakeOther(Unrolled(old(View()), -1), v, false))
      ensures Working() ==> Spelled(All()) == old(Spelled(All())) + [t]
      ensures var ends := Ends(Closed(old(View()), Unrolled(old(View()), -1)), old(mark));
              Working() ==> All() == old(All()) + ends + [Entry(t, old(mark), false)]
    {
      hide KeysOk, Levels, NeverBelow, Depth, EndsOnce, ScriptOk, Behind, Spelled;
      UnrollIndent(-1);
      TakeAway(t, v, false);
    }

    /** The fetchers of tokens that may begin a key. */
    method DispatchKey(k: Kind)
      requires Ready() && KindOk(k) && BeginsKey(k)
      modifies `tokens, `head, `capacity, `indent, `indents, `keys, `mark, `allowed, `failed, `flowLevel, `panicked
      ensures Valid() && Follows(StepKind(old(View()), k))
      ensures Working() ==> Spelled(All()) == old(Spelled(All())) + TokenOf(k)
      ensures Working() ==> All() == old(All()) + OwnToken(k, old(mark))
    {
      hide KeysOk, Levels, NeverBelow, Depth, EndsOnce, ScriptOk, Behind, Spelled;
      match k {
        case FlowStart(t) =>
          ProduceKey(t, ONE, true, true);
        case Property(t, v) =>
          ProduceKey(t, v, false, false);
        case QuotedScalar(t, v) =>
          ProduceKey(t, v, false, false);
        case PlainScalar(t, v, leadingBlanks) =>
          ProduceKey(t, v, false, leadingBlanks);
          // On a line of its block, a plain scalar goes on only to the right of the indentation.
          if Working() && flowLevel == 0 && !leadingBlanks && mark.column <= indent { failed := true; }
      }
    }

    /** The indicators of block collections, and the colon. */
    method DispatchIndicator(k: Kind)
      requires Ready() && (k.BlockDash? || k.QuestionMark? || k.Colon?)
      modifies `tokens, `head, `capacity, `indent, `indents, `keys, `mark, `allowed, `failed, `flowLevel, `panicked
      ensures Valid() && Follows(StepKind(old(View()), k))
      ensures Working() ==> Spelled(All()) == old(Spelled(All())) + TokenOf(k)
      ensures Working() && old(Tied(keys, View(), All())) ==> All() == Placed(old(All()), old(View()), old(keys), k)
    {
      hide KeysOk, Levels, NeverBelow, Depth, EndsOnce, ScriptOk, Behind, Spelled, BareAll;
      hide KeyBefore;
      match k {
        case BlockDash =>
          FetchBlockIndicator(BlockEntryToken, BlockSequenceStartToken);
        case QuestionMark =>
          FetchBlockIndicator(KeyToken, BlockMappingStartToken);
        case Colon =>
          FetchValue();
      }
    }

    /** What belongs at the margin. */
    method DispatchMargin(k: Kind)
      requires Ready() && KindOk(k) && (k.DirectiveLine? || k.DocumentIndicator?)
      modifies `tokens, `head, `capacity, `indent, `indents, `keys, `mark, `allowed, `failed, `flowLevel, `panicked
      ensures Valid() && Follows(StepKind(old(View()), k))
      ensures Working() ==> Spelled(All()) == old(Spelled(All())) + TokenOf(k)
      ensures Working() && old(Tied(keys, View(), All())) ==> All() == Placed(old(All()), old(View()), old(keys), k)
    {
      hide KeysOk, Levels, NeverBelow, Depth, EndsOnce, ScriptOk, Behind, Spelled, BareAll;
      hide Ends;
      KindsClose(k);
      if mark.column != 0 {
        failed := true;
        return;
      }
      match k {
        case DirectiveLine(t, v) => FetchAtMargin(t, v);
        case DocumentIndicator(t) => FetchAtMargin(t, Move(3, 0, 0));
      }
    }

    /** The token fetchers, by what comes next in the text. */
    method Dispatch(k: Kind)
      requires Ready() && KindOk(k)
      modifies `tokens, `head, `capacity, `indent, `indents, `keys, `mark, `allowed, `failed, `flowLevel, `panicked
      ensures Valid() && Follows(StepKind(old(View()), k))
      ensures Working() ==> Spelled(All()) == old(Spelled(All())) + TokenOf(k)
      ensures Working() && old(Tied(keys, View(), All())) ==> All() == Placed(old(All()), old(View()), old(keys), k)
    {
      hide KeysOk, Levels, NeverBelow, Depth, EndsOnce, ScriptOk, Behind, Spelled, BareAll;
      hide Ends, KeyBefore;
      match k {
        case Unknown =>
          failed := true;
        case DirectiveLine(_, _) =>
          DispatchMargin(k);
        case DocumentIndicator(_) =>
          DispatchMargin(k);
        case FlowStart(_) =>
          DispatchKey(k);
        case FlowEnd(t) =>
          FetchFlowEnd(t);
        case FlowComma =>
          TakeAway(FlowEntryToken, ONE, true);
        case BlockDash =>
          DispatchIndicator(k);
        case QuestionMark =>
          DispatchIndicator(k);
        case Colon =>
          DispatchIndicator(k);
        case Property(_, _) =>
          DispatchKey(k);
        case BlockScalar(t, v) =>
          if flowLevel > 0 { failed := true; } else { TakeAway(t, v, true); }
        case QuotedScalar(_, _) =>
          DispatchKey(k);
        case PlainScalar(_, _, _) =>
          DispatchKey(k);
      }
    }

    /** Blanks, comments and line breaks. In block context a new line may start with a key. */
    method ScanToNext(gap: Move)
      requires Valid() && Working() && started && !finished
      modifies `mark, `allowed
      ensures Valid() && mark == Moved(old(mark), gap) && allowed == (old(allowed) || (gap.lines > 0 && flowLevel == 0))
    {
      hide KeysOk, Levels, NeverBelow, Depth, EndsOnce, ScriptOk, Behind, Spelled;
      KeysMoved(keys, All(), tokensParsed, mark, Moved(mark, gap));
      mark := Moved(mark, gap);
      if gap.lines > 0 && flowLevel == 0 {
        allowed := true;
      }
    }

    /** What the rest of the text spells out. */
    ghost function Owed(): seq<Token>
      reads this
    {
      (if started then [] else [StreamStartToken]) + TokensOf(script) + if finished then [] else [StreamEndToken]
    }

    /** What has been read and what is still to come: the whole text. */
    ghost function Whole(): seq<Token>
      requires head <= |tokens|
      reads this
    {
      Spelled(All()) + Owed()
    }

    /** All tokens of the text: those that are there, with what will be put in front of them, and those to come. */
    ghost function Final(): seq<Entry>
      requires head <= |tokens| && (started ==> |keys| == flowLevel + 1)
      reads this
    {
      if finished then All()
      else if started then Outlook(All(), View(), script, lastGap)
      else TokensOfText(mark, script, lastGap)
    }

    /** The tokens that may begin a key are in order, as long as any are to come. */
    ghost predicate InOrder()
      requires head <= |tokens|
      reads this
    {
      finished || Ordered(All(), mark)
    }

    /** How much of the text is still to come. */
    ghost function Left(): nat
      reads this
    {
      |script| + (if finished then 0 else 1) + (if started then 0 else 1)
    }

    /** Up to the next token: candidates that are too old are given up, and blocks that end here are closed. */
    method Approach(gap: Move)
      requires Valid() && Working() && started && !finished
      modifies `mark, `allowed, `keys, `failed, `tokens, `head, `capacity, `indent, `indents
      ensures !panicked && (failed <==> StaleFails(old(View()).keys, Moved(old(mark), gap)))
      ensures !failed ==> Ready() && Spelled(All()) == old(Spelled(All())) && View() == Approached(old(View()), gap)
      ensures !failed ==>
                All() == old(All()) + Ends(Closed(old(View()), View()), mark) && keys == FreshKeys(old(keys), mark)
    {
      hide KeysOk, Levels, NeverBelow, Depth, EndsOnce, ScriptOk, Behind, Spelled, BareAll, FreshKeys;
      ScanToNext(gap);
      ghost var before := keys;
      StaleKeys();
      BareFresh(before, keys, mark);
      if failed { return; }
      UnrollIndent(mark.column);
    }

    /** The next lexeme of the text. */
    method FetchToken()
      requires Valid() && Working() && started && !finished && script != []
      modifies `script, `tokens, `head, `capacity, `indent, `indents, `keys, `mark, `allowed, `failed, `flowLevel
      modifies `panicked
      ensures Valid() && Follows(Step(old(View()), old(script[0]))) && script == old(script[1..])
      ensures Working() ==> Spelled(All()) == old(Spelled(All())) + TokenOf(old(script[0].kind))
      ensures Working() && old(Ordered(All(), mark)) ==>
                && Ordered(All(), mark) && KeysOrdered(View())
                && Outlook(All(), View(), script, lastGap) == old(Outlook(All(), View(), script, lastGap))
    {
      hide KeysOk, Levels, NeverBelow, Depth, EndsOnce, ScriptOk, Behind, Spelled, StepKind, Approached, BareAll;
      hide Ordered, Outlook, Tied, Placed, Ends;
      var x := script[0];
      NextKind(script);
      script := script[1..];
      Approach(x.gap);
      if failed { return; }
      ghost var all, view, numbered := All(), View(), keys;
      if old(Ordered(All(), mark)) { ApproachTied(old(All()), old(View()), old(keys), x.gap); }
      Dispatch(x.kind);
      if Working() && old(Ordered(All(), mark)) {
        StepKeepsOutlook(old(All()), old(View()), numbered, old(script), View(), lastGap);
      }
    }

    /** Where the next token begins, the candidates are still tied to their tokens. */
    lemma ApproachTied(all: seq<Entry>, l: Layout, was: seq<SimpleKey>, gap: Move)
      requires Core() && Working() && started && View() == Approached(l, gap)
      requires KeysOk(was, all, tokensParsed, l.mark) && l.keys == BareAll(was) && Ordered(all, l.mark) && LayoutOk(l)
      requires All() == all + Ends(Closed(l, View()), mark)
      ensures KeysOrdered(l) && Tied(keys, View(), All())
    {
      KeysAreTied(was, l, all, tokensParsed);
      MovedLater(l.mark, gap);
      OrderedLater(all, l.mark, mark);
      OrderedOthers(all, Ends(Closed(l, View()), mark), mark);
      KeysAreTied(keys, View(), All(), tokensParsed);
    }

    method FetchNext()
      requires Valid() && Working() && !finished && InOrder()
      modifies `script, `tokens, `head, `capacity, `indent, `indents, `keys, `mark, `allowed, `failed, `flowLevel
      modifies `panicked, `started, `finished
      ensures Valid() && (Working() ==> Left() < old(Left()) && Whole() == old(Whole()))
      ensures Working() ==> AheadPanics() == old(AheadPanics())
      ensures (panicked ==> old(AheadPanics())) && (failed ==> !old(AheadPanics()))
      ensures Working() ==> InOrder() && Final() == old(Final())
    {
      hide KeysOk, Levels, NeverBelow, Depth, EndsOnce, ScriptOk, Behind, Spelled, Step, BareAll;
      hide Ordered, Outlook, TokensOfText, Ends, EndEntries, Arranged, AllChosen;
      ghost var was := Spelled(All());
      if !started {
        SpelledNothing(All());
        StartsWhole(TokensOf(script));
        FetchStreamStart();
        OutlookAtStart(mark, script, lastGap);
      } else if script == [] {
        EndsWhole(was);
        FetchEnd();
      } else {
        ghost var k := script[0].kind;
        FetchToken();
        Spells(was, k, TokensOf(script));
      }
    }

    /** Behind the last token of the text. */
    method FetchEnd()
      requires Valid() && Working() && started && !finished && script == []
      modifies `tokens, `head, `capacity, `indent, `indents, `mark, `allowed, `keys, `failed, `finished
      ensures Valid() && !panicked
      ensures Working() ==> finished && Spelled(All()) == old(Spelled(All())) + [StreamEndToken]
      ensures Working() ==> All() == old(Outlook(All(), View(), script, lastGap))
    {
      hide KeysOk, Levels, NeverBelow, Depth, EndsOnce, ScriptOk, Behind, Spelled, Step, BareAll;
      hide Ordered, Outlook, Ends, Unrolled;
      OutlookAtEnd(All(), View(), lastGap);
      Approach(lastGap);
      if failed { return; }
      FetchStreamEnd();
    }

    /** A token that was looked at cannot get another one in front of it any more. */
    ghost predicate Settled()
      reads this
    {
      available ==> head < |tokens| && forall i | 0 <= i < |keys| && keys[i].possible :: keys[i].number != tokensParsed
    }

    /** Some candidate stands for the token at the head of the queue. */
    ghost predicate HeadIsCandidate()
      reads this
    {
      exists i :: 0 <= i < |keys| && keys[i].possible && keys[i].number == tokensParsed
    }

    method KeyAtHead() returns (found: bool)
      requires Valid() && Working()
      ensures found <==> HeadIsCandidate()
    {
      var i := 0;
      while i < |keys|
        invariant i <= |keys| && forall j | 0 <= j < i && keys[j].possible :: keys[j].number != tokensParsed
      {
        if keys[i].possible && keys[i].number == tokensParsed { return true; }
        i := i + 1;
      }
      return false;
    }

    /** Candidates may be given up as soon as they are too old. */
    lemma AheadFresh()
      requires Valid() && Working()
      ensures StaleFails(keys, mark) ==> !AheadPanics()
      ensures !StaleFails(keys, mark) && started ==>
                LayoutOk(View()) && AheadPanics() == Panics(View().(keys := BareAll(FreshKeys(keys, mark))), script)
    {
      BareFresh(keys, FreshKeys(keys, mark), mark);
      if started {
        if StaleFails(keys, mark) { StaleNeverPanics(View(), script); } else { FreshPanics(View(), script); }
      }
    }

    lemma FinalFresh()
      requires Valid() && Working()
      ensures !StaleFails(keys, mark) && started ==>
                && LayoutOk(View().(keys := BareAll(FreshKeys(keys, mark))))
                && Outlook(All(), View().(keys := BareAll(FreshKeys(keys, mark))), script, lastGap) ==
                   Outlook(All(), View(), script, lastGap)
    {
      hide Outlook;
      BareFresh(keys, FreshKeys(keys, mark), mark);
      if started && !StaleFails(keys, mark) { FreshOutlook(All(), View(), script, lastGap); }
    }

    /** The queue is empty, or a candidate stands for the token at its head. */
    method NeedsMore() returns (more: bool)
      requires Valid() && Working() && !endProduced
      modifies `keys, `failed
      ensures Valid() && !panicked && (more && !failed ==> !finished)
      ensures !failed ==> Whole() == old(Whole()) && AheadPanics() == old(AheadPanics()) && Final() == old(Final())
      ensures failed ==> !old(AheadPanics())
      ensures !failed ==> (more <==> head == |tokens| || HeadIsCandidate())
    {
      hide KeysOk, Levels, NeverBelow, Depth, EndsOnce, ScriptOk, Behind, Spelled, Outlook;
      more := head == |tokens|;
      if !more {
        AheadFresh();
        FinalFresh();
        StaleKeys();
        if failed { return; }
        more := KeyAtHead();
        AllStale(keys, mark);
      }
    }

    /** Fetch tokens until the one at the head is final. */
    method FetchMore()
      requires Valid() && Working() && !available && !endProduced && InOrder()
      modifies `script, `tokens, `head, `capacity, `indent, `indents, `keys, `mark, `allowed, `failed, `flowLevel
      modifies `panicked, `started, `finished, `available
      ensures Valid() && (Working() ==> available && Settled() && started)
      ensures Working() ==> Whole() == old(Whole()) && AheadPanics() == old(AheadPanics())
      ensures Working() ==> InOrder() && Final() == old(Final())
      ensures (panicked ==> old(AheadPanics())) && (failed ==> !old(AheadPanics()))
      ensures Working() ==> Left() < old(Left()) || (Left() == old(Left()) && All() == old(All()))
    {
      hide KeysOk, Levels, NeverBelow, Depth, EndsOnce, ScriptOk, Behind, Spelled, Owed, Candidates, Balanced;
      hide Outlook, TokensOfText, Ordered;
      while true
        invariant Valid() && Working() && !endProduced && Whole() == old(Whole()) && AheadPanics() == old(AheadPanics())
        invariant InOrder() && Final() == old(Final())
        invariant Left() < old(Left()) || (Left() == old(Left()) && All() == old(All()))
        decreases Left()
      {
        var needMore := NeedsMore();
        if failed { return; }
        if !needMore { break; }
        FetchNext();
        if failed || panicked { return; }
      }
      MarkAvailable();
    }

    method MarkAvailable()
      requires Valid() && Working() && head < |tokens|
      requires forall i | 0 <= i < |keys| && keys[i].possible :: keys[i].number != tokensParsed
      modifies `available
      ensures Valid() && Working() && available && Settled() && Whole() == old(Whole()) && All() == old(All())
      ensures Left() == old(Left()) && AheadPanics() == old(AheadPanics())
      ensures InOrder() == old(InOrder()) && Final() == old(Final())
    {
      hide KeysOk, Levels, NeverBelow, Depth, EndsOnce, ScriptOk, Behind, Spelled, Outlook, TokensOfText, Ordered;
      available := true;
    }

    /** The next token, which stays in the queue. */
    method Peek() returns (e: Entry)
      requires Valid() && Working() && Settled() && !endProduced && InOrder()
      modifies `script, `tokens, `head, `capacity, `indent, `indents, `keys, `mark, `allowed, `failed, `flowLevel
      modifies `panicked, `started, `finished, `available
      ensures Valid() && (Working() ==> available && Settled() && e == tokens[head])
      ensures Working() ==> Whole() == old(Whole()) && AheadPanics() == old(AheadPanics())
      ensures Working() ==> InOrder() && Final() == old(Final())
      ensures (panicked ==> old(AheadPanics())) && (failed ==> !old(AheadPanics()))
      ensures Working() ==> Left() < old(Left()) || (Left() == old(Left()) && All() == old(All()))
    {
      e := Entry(StreamEndToken, mark, false);
      if !available {
        FetchMore();
        if failed || panicked { return; }
      }
      e := tokens[head];
    }

    /** Hand the token out that was looked at. */
    method Skip()
      requires Valid() && Working() && Settled() && available
      modifies `head, `tokensParsed, `available, `endProduced, `out
      ensures Valid() && Working() && Settled() && out == old(out) + [old(tokens[head])] && All() == old(All())
      ensures Whole() == old(Whole()) && AheadPanics() == old(AheadPanics())
      ensures InOrder() == old(InOrder()) && Final() == old(Final())
      ensures endProduced <==> old(tokens[head]).token.StreamEndToken?
    {
      hide KeysOk, Levels, NeverBelow, Depth, EndsOnce, ScriptOk, Behind, Spelled, Panics, Outlook, Ordered;
      KeysAhead(keys, All(), tokensParsed, mark);
      OnlyLastEnds(All(), finished, tokensParsed);
      ghost var all := All();
      assert All()[tokensParsed] == tokens[head];
      endProduced := tokens[head].token.StreamEndToken?;
      out := out + [tokens[head]];
      available, tokensParsed, head := false, tokensParsed + 1, head + 1;
      assert All() == all;
    }

    /**
     The whole stream, token by token. Without an error the tokens handed out begin with STREAM-START,
     end with the one STREAM-END, and never close a block that is not open; outside flow
     collections every block is closed at the end. The tokens that stand in the text come out as
     they are, in order; and the others are where hindsight puts them. The scanner panics on the texts that Panics
     describes, and on no other.
     */
    method Run()
      requires Valid() && Working() && Settled() && !endProduced && out == [] && !started
      modifies this
      ensures panicked <==> Panics(Initial(old(mark)), old(script))
      ensures Working() ==> Spelled(out) == [StreamStartToken] + TokensOf(old(script)) + [StreamEndToken]
      ensures Working() ==> out == TokensOfText(old(mark), old(script), lastGap)
      ensures Valid() && (Working() ==> Complete(out) && NeverBelow(out) && (flowLevel == 0 ==> Depth(out) == 0))
    {
      hide KeysOk, Levels, NeverBelow, Depth, EndsOnce, ScriptOk, Behind, Spelled, Candidates, Balanced;
      hide TokensOfText, Outlook, Panics, Complete;
      AtStart();
      while !endProduced
        invariant Valid() && Working() && Settled() && (endProduced ==> started) && Whole() == old(Whole())
        invariant AheadPanics() == old(AheadPanics()) && InOrder() && Final() == old(Final())
        decreases Left(), |All()| - |out|
      {
        var e := Peek();
        if failed || panicked { return; }
        Skip();
      }
      AtEnd();
    }

    lemma AtStart()
      requires Valid() && Working() && out == [] && !started
      ensures Whole() == [StreamStartToken] + TokensOf(script) + [StreamEndToken] && InOrder()
    {
      SpelledNothing(All());
    }

    lemma AtEnd()
      requires Valid() && Working() && endProduced && started
      ensures All() == out && Final() == out && Whole() == Spelled(out) && !AheadPanics()
      ensures Complete(out) && NeverBelow(out) && (flowLevel == 0 ==> Depth(out) == 0)
    {
      hide KeysOk, Levels, NeverBelow, Depth, EndsOnce, ScriptOk, Behind, Spelled;
      assert All() == out;
      assert Spelled(out) + ([] + [] + []) == Spelled(out);
    }
  }

  /**
   The text of a key whose value is quoted and ends on the next line, left of the key; another key follows at once.
   */
  function CrookedText(key: Token, value: Token, next: Token): seq<Lexeme> {
    [Lexeme(Move(2, 0, 0), PlainScalar(key, Move(1, 0, 0), false)),
     Lexeme(Move(0, 0, 0), Colon),
     Lexeme(Move(1, 0, 0), QuotedScalar(value, Move(4, 1, 1))),
     Lexeme(Move(1, 0, 0), PlainScalar(next, Move(1, 0, 0), false))]
  }

  lemma PanicsLater(l: Layout, script: seq<Lexeme>, m: Layout)
    requires LayoutOk(l) && script != [] && Step(l, script[0]) == Next(m)
    ensures Panics(l, script) == Panics(m, script[1..])
  {
  }

  /** A lexeme to the right, on the same line and outside flow collections. */
  lemma FlatStep(l: Layout, x: Lexeme)
    requires l.flowLevel == 0 && |l.keys| == 1 && !IsStale(l.keys[0], Moved(l.mark, x.gap))
    requires x.gap.lines == 0 && l.indent <= Moved(l.mark, x.gap).column
    ensures Step(l, x) == StepKind(l.(mark := Moved(l.mark, x.gap)), x.kind)
  {
    hide StepKind;
    assert FreshKeys(l.keys, Moved(l.mark, x.gap)) == l.keys;
  }

  lemma PlainKey(l: Layout, key: Token, v: Move)
    requires l.flowLevel == 0 && |l.keys| == 1 && !l.keys[0].possible && l.allowed && l.indent < l.mark.column
    requires v.lines == 0
    ensures var k := SimpleKey(true, false, 0, l.mark);
            StepKind(l, PlainScalar(key, v, false)) == Next(l.(keys := [k], mark := Moved(l.mark, v), allowed := false))
  {
  }

  lemma KeyColon(l: Layout)
    requires l.flowLevel == 0 && |l.keys| == 1 && l.keys[0].possible && l.indent < l.keys[0].mark.column
    ensures var k := l.keys[0];
            StepKind(l, Colon) == Next(l.(indents := l.indents + [l.indent], indent := k.mark.column,
                                          keys := [k.(possible := false)],
                                          mark := Moved(l.mark, ONE), allowed := false))
  {
  }

  lemma QuotedValue(l: Layout, value: Token, v: Move)
    requires l.flowLevel == 0 && |l.keys| == 1 && !l.allowed && l.indent < l.mark.column
    ensures StepKind(l, QuotedScalar(value, v)) == Next(l.(mark := Moved(l.mark, v)))
  {
  }

  lemma CrookedValue(l: Layout, script: seq<Lexeme>)
    requires l.flowLevel == 0 && |l.keys| == 1 && !l.keys[0].possible && !l.allowed && l.indent == 2
    requires l.mark.column > 2
    requires |script| == 2 && script[0].gap == ONE && script[0].kind.QuotedScalar?
    requires script[0].kind.extent == Move(4, 1, 1)
    requires script[1].gap == ONE && script[1].kind.PlainScalar?
    ensures Panics(l, script)
  {
    hide Step, StepKind;
    FlatStep(l, script[0]);
    QuotedValue(l.(mark := Moved(l.mark, ONE)), script[0].kind.scalar, Move(4, 1, 1));
    var m := l.(mark := Moved(Moved(l.mark, ONE), Move(4, 1, 1)));
    PanicsLater(l, script, m);
    PanicStep(m, script[1]);
  }

  lemma CrookedColon(l: Layout, script: seq<Lexeme>)
    requires l.flowLevel == 0 && |l.keys| == 1 && l.keys[0].possible && l.keys[0].mark == Mark(2, 0, 2) && !l.allowed
    requires l.indent == -1 && l.mark == Mark(3, 0, 3)
    requires |script| == 3 && script[0] == Lexeme(Move(0, 0, 0), Colon) && script[1].gap == ONE && script[2].gap == ONE
    requires script[1].kind.QuotedScalar? && script[1].kind.extent == Move(4, 1, 1) && script[2].kind.PlainScalar?
    ensures Panics(l, script)
  {
    hide Step, StepKind;
    FlatStep(l, script[0]);
    KeyColon(l);
    var m := Step(l, script[0]).layout;
    PanicsLater(l, script, m);
    CrookedValue(m, script[1..]);
  }

  /** The layout behind the key. */
  function BehindKey(): Layout {
    Initial(Mark(0, 0, 0)).(keys := [SimpleKey(true, false, 0, Mark(2, 0, 2))], mark := Mark(3, 0, 3), allowed := false)
  }

  lemma CrookedKey(x: Lexeme, key: Token)
    requires x == Lexeme(Move(2, 0, 0), PlainScalar(key, ONE, false))
    ensures Step(Initial(Mark(0, 0, 0)), x) == Next(BehindKey())
  {
    hide Step, StepKind;
    var l := Initial(Mark(0, 0, 0));
    FlatStep(l, x);
    PlainKey(l.(mark := Mark(2, 0, 2)), key, ONE);
  }

  lemma CrookedPanics(key: Token, value: Token, next: Token)
    ensures Panics(Initial(Mark(0, 0, 0)), CrookedText(key, value, next))
  {
    hide Step, StepKind, Panics;
    var s := CrookedText(key, value, next);
    CrookedKey(s[0], key);
    PanicsLater(Initial(Mark(0, 0, 0)), s, BehindKey());
    CrookedColon(BehindKey(), s[1..]);
  }

  /** Every scanner panics that is new and has this text in front of it. */
  method PanicRun(s: Scanner, key: Token, value: Token, next: Token)
    requires s.Valid() && s.Working() && s.Settled() && !s.started && !s.endProduced && s.out == []
    requires s.mark == Mark(0, 0, 0) && s.script == CrookedText(key, value, next)
    modifies s
    ensures s.panicked
  {
    CrookedPanics(key, value, next);
    s.Run();
  }

  lemma BareDropped(keys: seq<SimpleKey>)
    requires keys != []
    ensures BareAll(Dropped(keys)) == Dropped(BareAll(keys))
  {
  }

  lemma BareSaved(keys: seq<SimpleKey>, level: nat, key: SimpleKey)
    requires level < |keys|
    ensures BareAll(keys[level := key]) == BareAll(keys)[level := Bare(key)]
  {
  }

  lemma BareMore(keys: seq<SimpleKey>)
    ensures BareAll(keys + [NO_KEY]) == BareAll(keys) + [NO_KEY]
  {
  }

  lemma BareTail(keys: seq<SimpleKey>)
    requires keys != []
    ensures BareAll(keys[..|keys| - 1]) == BareAll(keys)[..|keys| - 1]
  {
  }

  lemma BareFirst()
    ensures BareAll([NO_KEY]) == [NO_KEY]
  {
  }

  lemma BareFresh(before: seq<SimpleKey>, keys: seq<SimpleKey>, mark: Mark)
    ensures StaleFails(BareAll(before), mark) == StaleFails(before, mark)
    ensures keys == FreshKeys(before, mark) ==> BareAll(keys) == FreshKeys(BareAll(before), mark)
  {
    if StaleFails(before, mark) {
      var i :| 0 <= i < |before| && IsStale(before[i], mark) && before[i].required;
      assert IsStale(BareAll(before)[i], mark);
    }
  }

  lemma KeyBeforeParts(all: seq<Entry>, k: SimpleKey)
    requires k.number <= |all|
    ensures var withKey := Inserted(all, k.number, Entry(KeyToken, k.mark, true));
            && withKey == KeyBefore(all, k, false)
            && Inserted(withKey, k.number, Entry(BlockMappingStartToken, k.mark, true)) == KeyBefore(all, k, true)
  {
    var withKey := Inserted(all, k.number, Entry(KeyToken, k.mark, true));
    assert withKey[k.number..] == [Entry(KeyToken, k.mark, true)] + all[k.number..];
  }

  lemma KeyBehind(keys: seq<SimpleKey>, all: seq<Entry>, parsed: nat, mark: Mark)
    requires KeysOk(keys, all, parsed, mark) && keys != []
    ensures var k := keys[|keys| - 1];
            k.possible && k.mark.line >= mark.line ==> k.mark.column < mark.column
    ensures keys[|keys| - 1].possible && StartsStream(all) ==> keys[|keys| - 1].number > 0
  {
  }

  /** Every candidate is on an earlier line. */
  predicate Behind(keys: seq<SimpleKey>, mark: Mark) {
    forall i | 0 <= i < |keys| && keys[i].possible :: keys[i].mark.line < mark.line
  }

  predicate StartsStream(all: seq<Entry>) {
    all != [] && all[0].token.StreamStartToken?
  }

  /** STREAM-START first, STREAM-END last, and no other STREAM-END. */
  ghost predicate Complete(all: seq<Entry>) {
    StartsStream(all) && EndsOnce(all, true)
  }

  /** STREAM-END comes once, and last. */
  ghost predicate EndsOnce(all: seq<Entry>, finished: bool) {
    forall i | 0 <= i < |all| :: all[i].token.StreamEndToken? <==> finished && i == |all| - 1
  }

  lemma EndsOnceInserted(all: seq<Entry>, i: nat, e: Entry)
    requires EndsOnce(all, false) && i <= |all| && !e.token.StreamEndToken?
    ensures EndsOnce(Inserted(all, i, e), false)
  {
  }

  lemma EndsOnceLast(all: seq<Entry>, e: Entry)
    requires EndsOnce(all, false) && e.token.StreamEndToken?
    ensures EndsOnce(all + [e], true)
  {
  }

  lemma KindsClose(k: Kind)
    requires KindOk(k)
    ensures k.DirectiveLine? ==> Change(k.directive) == 0 && !k.directive.StreamEndToken?
    ensures k.DocumentIndicator? ==> Change(k.indicator) == 0 && !k.indicator.StreamEndToken?
  {
  }

  lemma SpelledNothing(s: seq<Entry>)
    requires s == []
    ensures Spelled(s) == []
  {
  }

  lemma StartsWhole(rest: seq<Token>)
    ensures [] + ([StreamStartToken] + rest + [StreamEndToken]) == [StreamStartToken] + ([] + rest + [StreamEndToken])
  {
  }

  lemma EndsWhole(was: seq<Token>)
    ensures was + ([] + [] + [StreamEndToken]) == (was + [StreamEndToken]) + ([] + [] + [])
  {
  }

  lemma Spells(was: seq<Token>, k: Kind, rest: seq<Token>)
    ensures was + ([] + (TokenOf(k) + rest) + [StreamEndToken]) == (was + TokenOf(k)) + ([] + rest + [StreamEndToken])
  {
  }

  lemma SpelledFirst(e: Entry)
    ensures Spelled([e]) == Shown(e)
  {
    SpelledAppend([], e);
    assert [] + [e] == [e];
  }

  lemma FirstEntry(keys: seq<SimpleKey>, e: Entry)
    requires e.token.StreamStartToken? && |keys| == 1 && !keys[0].possible
    ensures KeysOk(keys, [e], 0, e.mark) && Levels([], -1) && EndsOnce([e], false) && NeverBelow([e]) && Depth([e]) == 0
  {
  }

  lemma AllStale(keys: seq<SimpleKey>, mark: Mark)
    requires forall i | 0 <= i < |keys| :: !IsStale(keys[i], mark)
    ensures Behind(keys, mark) ==> forall i | 0 <= i < |keys| :: !keys[i].possible
  {
  }

  lemma OnlyLastEnds(all: seq<Entry>, finished: bool, i: nat)
    requires EndsOnce(all, finished) && i < |all|
    ensures all[i].token.StreamEndToken? <==> finished && i == |all| - 1
  {
  }

  lemma KeysAhead(keys: seq<SimpleKey>, all: seq<Entry>, parsed: nat, mark: Mark)
    requires KeysOk(keys, all, parsed, mark)
    requires forall i | 0 <= i < |keys| && keys[i].possible :: keys[i].number != parsed
    ensures KeysOk(keys, all, parsed + 1, mark)
  {
  }

  lemma BehindFewer(keys: seq<SimpleKey>, fewer: seq<SimpleKey>, mark: Mark)
    requires |fewer| == |keys| && forall i | 0 <= i < |fewer| :: fewer[i] == keys[i] || !fewer[i].possible
    ensures Behind(keys, mark) ==> Behind(fewer, mark)
  {
  }

  /** At the start of a line, every candidate is on an earlier one. */
  lemma KeysBehind(keys: seq<SimpleKey>, all: seq<Entry>, parsed: nat, mark: Mark)
    requires KeysOk(keys, all, parsed, mark) && mark.column == 0
    ensures Behind(keys, mark)
  {
  }

  lemma InsertedBehind(a: seq<Entry>, b: seq<Entry>, i: nat, e: Entry)
    requires i <= |b|
    ensures a + Inserted(b, i, e) == Inserted(a + b, |a| + i, e)
    ensures |a| + i > 0 ==> Inserted(a + b, |a| + i, e)[0] == (a + b)[0]
  {
  }

  lemma InsertedLast(all: seq<Entry>, e: Entry)
    ensures Inserted(all, |all|, e) == all + [e]
  {
  }
}
