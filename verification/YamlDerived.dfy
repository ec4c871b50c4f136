/**
 The other direction, and whole streams: every token list that the reading as written
 completes is spelled out by a derivation, whose events are those of the reading.
 */
module YamlDerived {
  import opened Wrappers
  import opened YamlEvents
  import opened YamlTokens
  import opened YamlGrammar
  import opened YamlSyntax
  import W = YamlWritten

  // ---------------------------------------------------------------- what a derivation has to do with a reading

  ghost predicate IsTree(td: seq<TagDirective>, toks: seq<Token>, o: Out, t: Derivation, block: bool,
                         indentless: bool)
  {
    TreeOk(td, t, block, indentless) && toks == Spell(t) + o.rest && o.events == EventsOf(td, t)
  }

  ghost predicate IsBody(td: seq<TagDirective>, anchor: Option<string>, tag: string, toks: seq<Token>, o: Out, c: Body,
                         block: bool, indentless: bool)
  {
    && ContentOk(td, c, block, indentless) && (c.Nothing? ==> NonEmpty(anchor) || tag != "")
    && toks == SpellContent(c) + o.rest && o.events == ContentEvents(td, anchor, tag, c)
  }

  ghost predicate AllItems(td: seq<TagDirective>, os: seq<Opt>) {
    forall i | 0 <= i < |os| :: OptOk(td, os[i], true, false)
  }

  ghost predicate AllPairs(td: seq<TagDirective>, es: seq<Entry>) {
    && (forall i | 0 <= i < |es| :: BlockEntryOk(td, es[i]))
    && forall i | 0 <= i < |es| - 1 :: Longest(es[i], es[i + 1])
  }

  ghost predicate AllFlow(td: seq<TagDirective>, es: seq<Entry>) {
    forall i | 0 <= i < |es| :: FlowEntryOk(td, es[i])
  }

  lemma AllItemsCons(td: seq<TagDirective>, o: Opt, os: seq<Opt>)
    requires OptOk(td, o, true, false) && AllItems(td, os)
    ensures AllItems(td, [o] + os) && ([o] + os)[1..] == os
  {
    hide OptOk;
  }

  lemma AllFlowCons(td: seq<TagDirective>, e: Entry, es: seq<Entry>)
    requires FlowEntryOk(td, e) && AllFlow(td, es)
    ensures AllFlow(td, [e] + es) && ([e] + es)[1..] == es
  {
    hide FlowEntryOk;
  }

  lemma AllPairsCons(td: seq<TagDirective>, e: Entry, es: seq<Entry>)
    requires BlockEntryOk(td, e) && AllPairs(td, es) && (es != [] ==> Longest(e, es[0]))
    ensures AllPairs(td, [e] + es) && ([e] + es)[1..] == es
  {
    hide BlockEntryOk, Longest;
    var all := [e] + es;
    forall i | 0 <= i < |all| - 1 ensures Longest(all[i], all[i + 1]) {
      if i > 0 { assert all[i] == es[i - 1] && all[i + 1] == es[i]; }
    }
  }

  lemma ThenOk(a: Out, b: Out)
    requires Then(a, b).ok
    ensures a.ok && b.ok && Then(a, b).events == a.events + b.events && Then(a, b).rest == b.rest
  {
  }

  lemma EmitOk(e: Event, o: Out)
    ensures Emit(e, o).ok == o.ok && Emit(e, o).events == [e] + o.events && Emit(e, o).rest == o.rest
  {
  }

  lemma Around<T>(a: seq<T>, b: seq<T>, c: seq<T>, d: seq<T>, e: seq<T>)
    ensures a + (b + c + (d + e)) == a + b + c + d + e
    ensures a + (b + (d + e)) == a + b + d + e
  {
  }

  // ---------------------------------------------------------------- nodes

  lemma {:induction false} TreeOf(td: seq<TagDirective>, toks: seq<Token>, block: bool, indentless: bool)
    returns (t: Derivation)
    requires Node(td, toks, block, indentless, true).ok
    ensures IsTree(td, toks, Node(td, toks, block, indentless, true), t, block, indentless)
    decreases |toks|, 3
  {
    hide Content;
    if toks[0].AliasToken? {
      t := AliasTree(toks[0].name);
    } else {
      var p := Properties(toks);
      var tag := ResolveTag(td, p.tag).value;
      var props := PropsOf(toks);
      var c := BodyOf(td, p.anchor, tag, p.rest, block, indentless);
      t := NodeTree(props, c);
      TreeParts(td, toks, props, c, Content(td, p.anchor, tag, p.rest, block, indentless, true), block, indentless);
    }
  }

  lemma TreeParts(td: seq<TagDirective>, toks: seq<Token>, props: seq<Token>, c: Body, o: Out, block: bool,
                  indentless: bool)
    requires PropsOk(props) && toks == props + Properties(toks).rest
    requires Properties(props).anchor == Properties(toks).anchor && Properties(props).tag == Properties(toks).tag
    requires ResolveTag(td, Properties(toks).tag).Some?
    requires IsBody(td, Properties(toks).anchor, ResolveTag(td, Properties(toks).tag).value, Properties(toks).rest, o,
                    c, block, indentless)
    ensures IsTree(td, toks, o, NodeTree(props, c), block, indentless)
  {
    hide ResolveTag, Properties, ContentOk, SpellContent, ContentEvents;
    assert props + (SpellContent(c) + o.rest) == props + SpellContent(c) + o.rest;
  }

  lemma PropsOf(toks: seq<Token>) returns (props: seq<Token>)
    ensures PropsOk(props) && toks == props + Properties(toks).rest
    ensures Properties(props).anchor == Properties(toks).anchor && Properties(props).tag == Properties(toks).tag
  {
    var n := |toks| - |Properties(toks).rest|;
    props := toks[..n];
    assert toks == toks[..n] + toks[n..];
  }

  lemma {:induction false} BodyOf(td: seq<TagDirective>, anchor: Option<string>, tag: string, toks: seq<Token>,
                                  block: bool, indentless: bool)
    returns (c: Body)
    requires toks != [] && Content(td, anchor, tag, toks, block, indentless, true).ok
    ensures IsBody(td, anchor, tag, toks, Content(td, anchor, tag, toks, block, indentless, true), c, block, indentless)
    decreases |toks|, 2
  {
    hide FlowSequence, FlowMappingKey, BlockSequence, BlockMappingKey, IndentlessSequence;
    var t := toks[0];
    if t.ScalarToken? && !(indentless && t.BlockEntryToken?) {
      c := OneScalar(t);
      assert toks == [t] + toks[1..];
    } else if indentless && t.BlockEntryToken? {
      c := WithoutIndentation(td, anchor, tag, toks, block, indentless);
    } else if t.FlowSequenceStartToken? || t.FlowMappingStartToken? {
      c := FlowOf(td, anchor, tag, toks, block, indentless);
    } else if StartsCollection(t, block, indentless) {
      c := BlockOf(td, anchor, tag, toks, block, indentless);
    } else {
      c := Nothing;
      assert toks == [] + toks;
    }
  }

  lemma {:induction false} FlowOf(td: seq<TagDirective>, anchor: Option<string>, tag: string, toks: seq<Token>,
                                        block: bool, indentless: bool)
    returns (c: Body)
    requires toks != [] && (toks[0].FlowSequenceStartToken? || toks[0].FlowMappingStartToken?)
    requires Content(td, anchor, tag, toks, block, indentless, true).ok
    ensures IsBody(td, anchor, tag, toks, Content(td, anchor, tag, toks, block, indentless, true), c, block, indentless)
    decreases |toks|, 1
  {
    hide Content, FlowSequence, FlowMappingKey, BlockSequence, BlockMappingKey, IndentlessSequence, Emit;
    hide SpellFlow, SpellItems, SpellEntries, FlowEvents, ItemsEvents, EntriesEvents, OptOk, FlowEntryOk, BlockEntryOk;
    hide Comma;
    ContentStarts(td, anchor, tag, toks, block, indentless);
    var t, rest := toks[0], toks[1..];
    assert toks == [t] + rest;
    if t.FlowSequenceStartToken? {
      var start := SequenceStart(anchor, tag, tag == "", true);
      EmitOk(start, FlowSequence(td, true, rest, true));
      var es, comma := FlowItemsOf(td, rest);
      c := FlowItems(es, comma);
      assert [start] + (FlowEvents(td, es, true) + [SequenceEnd]) == ContentEvents(td, anchor, tag, c);
      Around([t], SpellFlow(es), Comma(comma), [FlowSequenceEndToken], FlowSequence(td, true, rest, true).rest);
    } else {
      var start := MappingStart(anchor, tag, tag == "", true);
      EmitOk(start, FlowMappingKey(td, true, rest, true));
      var es, comma := FlowPairsOf(td, rest);
      c := FlowPairs(es, comma);
      assert [start] + (FlowEvents(td, es, false) + [MappingEnd]) == ContentEvents(td, anchor, tag, c);
      Around([t], SpellFlow(es), Comma(comma), [FlowMappingEndToken], FlowMappingKey(td, true, rest, true).rest);
    }
  }

  lemma {:induction false} BlockOf(td: seq<TagDirective>, anchor: Option<string>, tag: string, toks: seq<Token>,
                                        block: bool, indentless: bool)
    returns (c: Body)
    requires toks != [] && block && (toks[0].BlockSequenceStartToken? || toks[0].BlockMappingStartToken?)
    requires Content(td, anchor, tag, toks, block, indentless, true).ok
    ensures IsBody(td, anchor, tag, toks, Content(td, anchor, tag, toks, block, indentless, true), c, block, indentless)
    decreases |toks|, 1
  {
    hide Content, FlowSequence, FlowMappingKey, BlockSequence, BlockMappingKey, IndentlessSequence, Emit;
    hide SpellFlow, SpellItems, SpellEntries, FlowEvents, ItemsEvents, EntriesEvents, OptOk, FlowEntryOk, BlockEntryOk;
    hide Comma;
    ContentStarts(td, anchor, tag, toks, block, indentless);
    var t, rest := toks[0], toks[1..];
    assert toks == [t] + rest;
    if t.BlockSequenceStartToken? {
      var start := SequenceStart(anchor, tag, tag == "", false);
      EmitOk(start, BlockSequence(td, rest, true));
      var os := BlockItemsOf(td, rest);
      c := BlockItems(os);
      Around([t], SpellItems(os), [], [BlockEndToken], BlockSequence(td, rest, true).rest);
      assert [start] + (ItemsEvents(td, os) + [SequenceEnd]) == ContentEvents(td, anchor, tag, c);
    } else {
      var start := MappingStart(anchor, tag, tag == "", false);
      EmitOk(start, BlockMappingKey(td, rest, true));
      var es := BlockPairsOf(td, rest);
      c := BlockPairs(es);
      Around([t], SpellEntries(es), [], [BlockEndToken], BlockMappingKey(td, rest, true).rest);
      assert [start] + (EntriesEvents(td, es) + [MappingEnd]) == ContentEvents(td, anchor, tag, c);
    }
  }

  lemma {:induction false} WithoutIndentation(td: seq<TagDirective>, anchor: Option<string>, tag: string,
                                              toks: seq<Token>, block: bool, indentless: bool)
    returns (c: Body)
    requires toks != [] && indentless && toks[0].BlockEntryToken?
    requires Content(td, anchor, tag, toks, block, indentless, true).ok
    ensures IsBody(td, anchor, tag, toks, Content(td, anchor, tag, toks, block, indentless, true), c, block, indentless)
    decreases |toks|, 1
  {
    hide Content, FlowSequence, FlowMappingKey, BlockSequence, BlockMappingKey, IndentlessSequence, Emit;
    hide SpellFlow, SpellItems, SpellEntries, FlowEvents, ItemsEvents, EntriesEvents, OptOk, FlowEntryOk, BlockEntryOk;
    hide Comma;
    ContentStarts(td, anchor, tag, toks, block, indentless);
    var t, rest := toks[0], toks[1..];
    assert toks == [t] + rest;
    var start := SequenceStart(anchor, tag, tag == "", false);
    EmitOk(start, IndentlessSequence(td, toks, true));
    var os := IndentlessOf(td, toks);
    c := IndentlessItems(os);
    assert [start] + (ItemsEvents(td, os) + [SequenceEnd]) == ContentEvents(td, anchor, tag, c);
  }

  // ---------------------------------------------------------------- block collections

  /** A node that is there or not, in front of the rest of its collection. */
  lemma {:induction false} PresentOf(td: seq<TagDirective>, t: seq<Token>, block: bool, indentless: bool, o: Out)
    returns (x: Opt)
    requires Then(Node(td, t, block, indentless, true), o).ok
    ensures x.Present? && OptOk(td, x, block, indentless) && o.ok
    ensures var n := Node(td, t, block, indentless, true);
            && t == SpellOpt(x) + n.rest
            && Then(n, o).events == OptEvents(td, x) + o.events && Then(n, o).rest == o.rest
    decreases |t|, 4
  {
    hide Node, Then;
    ThenOk(Node(td, t, block, indentless, true), o);
    var tree := TreeOf(td, t, block, indentless);
    x := Present(tree);
  }

  lemma {:induction false} BlockItemsOf(td: seq<TagDirective>, toks: seq<Token>) returns (os: seq<Opt>)
    requires BlockSequence(td, toks, true).ok
    ensures var o := BlockSequence(td, toks, true);
            && AllItems(td, os) && toks == SpellItems(os) + ([BlockEndToken] + o.rest)
            && o.events == ItemsEvents(td, os) + [SequenceEnd]
    decreases |toks|, 0
  {
    hide Node, Emit, Then, OptOk, AllItems, SpellOpt, OptEvents;
    if toks[0].BlockEndToken? {
      os := [];
      NoItems(td);
      assert toks == [] + ([BlockEndToken] + toks[1..]) && [SequenceEnd] == [] + [SequenceEnd];
    } else {
      var t := toks[1..];
      var x, more := Absent, t;
      if t[0].BlockEntryToken? || t[0].BlockEndToken? {
        EmitOk(EMPTY_SCALAR, BlockSequence(td, t, true));
        AbsentParts(td, true, false);
      } else {
        more := Node(td, t, true, false, true).rest;
        x := PresentOf(td, t, true, false, BlockSequence(td, more, true));
      }
      var others := BlockItemsOf(td, more);
      os := [x] + others;
      AllItemsCons(td, x, others);
      ItemsCons(td, os, [BlockEndToken] + BlockSequence(td, toks, true).rest);
      assert toks == [BlockEntryToken] + t;
    }
  }

  lemma NoItems(td: seq<TagDirective>)
    ensures AllItems(td, []) && SpellItems([]) == [] && ItemsEvents(td, []) == []
  {
  }

  lemma AbsentParts(td: seq<TagDirective>, block: bool, indentless: bool)
    ensures OptOk(td, Absent, block, indentless) && OptEvents(td, Absent) == [EMPTY_SCALAR]
    ensures forall t :: SpellOpt(Absent) + t == t
  {
  }

  lemma {:induction false} IndentlessOf(td: seq<TagDirective>, toks: seq<Token>) returns (os: seq<Opt>)
    requires IndentlessSequence(td, toks, true).ok
    ensures var o := IndentlessSequence(td, toks, true);
            && AllItems(td, os) && toks == SpellItems(os) + o.rest && o.events == ItemsEvents(td, os) + [SequenceEnd]
            && (toks[0].BlockEntryToken? ==> os != [])
    decreases |toks|, 0
  {
    hide Node, Emit, Then, OptOk, AllItems, SpellOpt, OptEvents, SpellItems, ItemsEvents;
    if !toks[0].BlockEntryToken? {
      os := [];
      NoItems(td);
      assert toks == [] + toks && [SequenceEnd] == [] + [SequenceEnd];
    } else {
      var t := toks[1..];
      assert toks == [BlockEntryToken] + t;
      IndentlessStep(td, t);
      hide IndentlessSequence;
      var x, more := Absent, t;
      if t[0].BlockEntryToken? || EndsBlockEntry(t[0]) {
        EmitOk(EMPTY_SCALAR, IndentlessSequence(td, t, true));
        AbsentParts(td, true, false);
      } else {
        more := Node(td, t, true, false, true).rest;
        x := PresentOf(td, t, true, false, IndentlessSequence(td, more, true));
      }
      var others := IndentlessOf(td, more);
      os := [x] + others;
      AllItemsCons(td, x, others);
      ItemsCons(td, os, IndentlessSequence(td, toks, true).rest);
    }
  }

  lemma {:induction false} BlockPairsOf(td: seq<TagDirective>, toks: seq<Token>) returns (es: seq<Entry>)
    requires BlockMappingKey(td, toks, true).ok
    ensures var o := BlockMappingKey(td, toks, true);
            && AllPairs(td, es) && toks == SpellEntries(es) + ([BlockEndToken] + o.rest)
            && o.events == EntriesEvents(td, es) + [MappingEnd]
            && (es != [] && es[0].Unkeyed? ==> toks[0].ValueToken?)
    decreases |toks|, 1
  {
    hide Node, Emit, Then, OptOk, ColonOk, AllPairs, SpellOpt, OptEvents, SpellColon, ColonEvents, BlockMappingValue;
    hide SpellEntry, PairEvents, SpellEntries, EntriesEvents;
    var rest := BlockMappingKey(td, toks, true).rest;
    if toks[0].BlockEndToken? {
      es := [];
      NoPairs(td);
      assert toks == [] + ([BlockEndToken] + toks[1..]) && [MappingEnd] == [] + [MappingEnd];
    } else if toks[0].KeyToken? {
      var t := toks[1..];
      var x, mid := Absent, t;
      if EndsBlockEntry(t[0]) {
        EmitOk(EMPTY_SCALAR, BlockMappingValue(td, t, true));
        AbsentParts(td, true, true);
      } else {
        mid := Node(td, t, true, true, true).rest;
        x := PresentOf(td, t, true, true, BlockMappingValue(td, mid, true));
      }
      var colon, others := ColonOf(td, mid);
      var e := Keyed(x, colon);
      es := [e] + others;
      AllPairsCons(td, e, others);
      EntriesCons(td, es, [BlockEndToken] + rest);
      KeyedEvents(td, e, EntriesEvents(td, others) + [MappingEnd]);
      KeyedSpells(e, SpellEntries(others) + ([BlockEndToken] + rest));
      assert toks == [KeyToken] + t;
    } else {
      EmitOk(EMPTY_SCALAR, BlockMappingValue(td, toks, true));
      var colon, others := ColonOf(td, toks);
      var e := Unkeyed(colon.value);
      es := [e] + others;
      UnkeyedParts(td, colon);
      AllPairsCons(td, e, others);
      EntriesCons(td, es, [BlockEndToken] + rest);
      assert [EMPTY_SCALAR] + (ColonEvents(td, colon) + (EntriesEvents(td, others) + [MappingEnd])) ==
             [EMPTY_SCALAR] + ColonEvents(td, colon) + (EntriesEvents(td, others) + [MappingEnd]);
    }
  }

  lemma NoPairs(td: seq<TagDirective>)
    ensures AllPairs(td, []) && SpellEntries([]) == [] && EntriesEvents(td, []) == []
  {
  }

  lemma KeyedSpells(e: Entry, more: seq<Token>)
    requires e.Keyed?
    ensures SpellEntry(e) + more == [KeyToken] + (SpellOpt(e.key) + (SpellColon(e.colon) + more))
  {
    hide SpellOpt, SpellColon;
  }

  lemma UnkeyedParts(td: seq<TagDirective>, colon: Colon)
    requires colon.Colon? && ColonOk(td, colon, true)
    ensures BlockEntryOk(td, Unkeyed(colon.value)) && SpellEntry(Unkeyed(colon.value)) == SpellColon(colon)
    ensures PairEvents(td, Unkeyed(colon.value)) == [EMPTY_SCALAR] + ColonEvents(td, colon)
  {
  }

  lemma ColonParts(td: seq<TagDirective>, x: Opt, block: bool, more: seq<Token>)
    requires OptOk(td, x, block, block)
    ensures ColonOk(td, Colon(x), block) && [ValueToken] + (SpellOpt(x) + more) == SpellColon(Colon(x)) + more
    ensures ColonEvents(td, Colon(x)) == OptEvents(td, x)
  {
    hide SpellOpt;
  }

  lemma NoColonParts(td: seq<TagDirective>, block: bool, toks: seq<Token>)
    ensures ColonOk(td, NoColon, block) && SpellColon(NoColon) + toks == toks
    ensures ColonEvents(td, NoColon) == [EMPTY_SCALAR]
  {
  }

  /** The value of an entry, and the entries behind it. */
  lemma {:induction false} ColonOf(td: seq<TagDirective>, toks: seq<Token>) returns (colon: Colon, es: seq<Entry>)
    requires BlockMappingValue(td, toks, true).ok
    ensures var o := BlockMappingValue(td, toks, true);
            && ColonOk(td, colon, true) && AllPairs(td, es) && (colon.Colon? <==> toks[0].ValueToken?)
            && toks == SpellColon(colon) + (SpellEntries(es) + ([BlockEndToken] + o.rest))
            && o.events == ColonEvents(td, colon) + (EntriesEvents(td, es) + [MappingEnd])
            && (colon.NoColon? && es != [] ==> !es[0].Unkeyed?)
    decreases |toks|, if toks != [] && toks[0].ValueToken? then 0 else 2
  {
    hide Node, Emit, Then, OptOk, AllPairs, SpellOpt, OptEvents, BlockMappingKey, SpellEntries, EntriesEvents;
    hide SpellColon, ColonEvents, ColonOk;
    if toks[0].ValueToken? {
      var t := toks[1..];
      var x, more := Absent, t;
      if EndsBlockEntry(t[0]) {
        EmitOk(EMPTY_SCALAR, BlockMappingKey(td, t, true));
        AbsentParts(td, true, true);
      } else {
        more := Node(td, t, true, true, true).rest;
        x := PresentOf(td, t, true, true, BlockMappingKey(td, more, true));
      }
      es := BlockPairsOf(td, more);
      colon := Colon(x);
      assert toks == [ValueToken] + t;
      ColonParts(td, x, true, more);
    } else {
      EmitOk(EMPTY_SCALAR, BlockMappingKey(td, toks, true));
      es := BlockPairsOf(td, toks);
      colon := NoColon;
      NoColonParts(td, true, toks);
    }
  }

  // ---------------------------------------------------------------- flow collections

  lemma NoFlow(td: seq<TagDirective>, sequence: bool)
    ensures AllFlow(td, []) && SpellFlow([]) == [] && FlowEvents(td, [], sequence) == []
    ensures forall end :: SpellFlow([]) + Comma(false) + end == end
  {
  }

  lemma FlowCons(td: seq<TagDirective>, e: Entry, es: seq<Entry>, sequence: bool, end: Event)
    ensures FlowEvents(td, [e] + es, sequence) + [end] ==
            FlowEntryEvents(td, e, sequence) + (FlowEvents(td, es, sequence) + [end])
  {
    hide FlowEntryEvents;
    assert ([e] + es)[1..] == es;
  }

  /** An entry, and the rest of its collection. */
  lemma FlowLonger(e: Entry, es: seq<Entry>, comma: bool, end: seq<Token>)
    ensures SpellFlow([e] + es) + Comma(comma) + end == SpellEntry(e) + FlowTail(es, comma, end)
  {
    FlowSplit([e] + es, comma, end);
    assert ([e] + es)[1..] == es;
  }

  lemma {:induction false} FlowItemsOf(td: seq<TagDirective>, toks: seq<Token>) returns (es: seq<Entry>, comma: bool)
    requires FlowSequence(td, true, toks, true).ok
    ensures var o := FlowSequence(td, true, toks, true);
            && AllFlow(td, es) && (comma ==> es != [])
            && toks == SpellFlow(es) + Comma(comma) + ([FlowSequenceEndToken] + o.rest)
            && o.events == FlowEvents(td, es, true) + [SequenceEnd]
    decreases |toks|, 7
  {
    hide FlowSequenceEntry, AllFlow;
    if toks[0].FlowSequenceEndToken? {
      es, comma := [], false;
      NoFlow(td, true);
      assert toks == [FlowSequenceEndToken] + toks[1..] && [SequenceEnd] == [] + [SequenceEnd];
    } else {
      es, comma := ItemsOf(td, toks);
    }
  }

  lemma {:induction false} ItemsOf(td: seq<TagDirective>, toks: seq<Token>) returns (es: seq<Entry>, comma: bool)
    requires toks != [] && FlowSequenceEntry(td, toks, true).ok
    ensures var o := FlowSequenceEntry(td, toks, true);
            && AllFlow(td, es) && es != []
            && toks == SpellFlow(es) + Comma(comma) + ([FlowSequenceEndToken] + o.rest)
            && o.events == FlowEvents(td, es, true) + [SequenceEnd]
    decreases |toks|, 6
  {
    hide Node, Emit, Then, PairKey, FlowSequence, AllFlow, TreeOk, Spell, EventsOf, SpellFlow, FlowEvents, FlowTail;
    var end := [FlowSequenceEndToken] + FlowSequenceEntry(td, toks, true).rest;
    var e, others;
    if toks[0].KeyToken? {
      var t := toks[1..];
      EmitOk(MappingStart(None, "", true, true), PairKey(td, t, true));
      e, others, comma := SingleOf(td, t);
      KeyedSpells(e, FlowTail(others, comma, end));
      assert toks == [KeyToken] + t;
      SingleEvents(td, e, FlowEvents(td, others, true) + [SequenceEnd]);
    } else {
      var more := Node(td, toks, false, false, true).rest;
      var x := PresentOf(td, toks, false, false, FlowSequence(td, false, more, true));
      others, comma := MoreItemsOf(td, more);
      e := Lone(x.tree);
    }
    es := [e] + others;
    AllFlowCons(td, e, others);
    FlowLonger(e, others, comma, end);
    FlowCons(td, e, others, true, SequenceEnd);
  }

  lemma SingleEvents(td: seq<TagDirective>, e: Entry, fs: seq<Event>)
    requires e.Keyed?
    ensures [MappingStart(None, "", true, true)] + (PairEvents(td, e) + ([MappingEnd] + fs)) ==
            FlowEntryEvents(td, e, true) + fs
  {
    hide PairEvents;
  }

  /** Behind an entry. */
  lemma {:induction false} MoreItemsOf(td: seq<TagDirective>, toks: seq<Token>) returns (es: seq<Entry>, comma: bool)
    requires FlowSequence(td, false, toks, true).ok
    ensures var o := FlowSequence(td, false, toks, true);
            && AllFlow(td, es) && toks == FlowTail(es, comma, [FlowSequenceEndToken] + o.rest)
            && o.events == FlowEvents(td, es, true) + [SequenceEnd]
    decreases |toks|, 0
  {
    hide FlowSequenceEntry, AllFlow, FlowTail, SpellFlow, FlowEvents;
    var end := [FlowSequenceEndToken] + FlowSequence(td, false, toks, true).rest;
    NoFlow(td, true);
    if toks[0].FlowSequenceEndToken? {
      es, comma := [], false;
      FlowTailLast(comma, end);
      assert toks == [toks[0]] + toks[1..] && [SequenceEnd] == [] + [SequenceEnd];
    } else {
      var t := toks[1..];
      assert toks == [FlowEntryToken] + t;
      if t[0].FlowSequenceEndToken? {
        es, comma := [], true;
        FlowTailLast(comma, end);
        assert t == [t[0]] + t[1..] && [SequenceEnd] == [] + [SequenceEnd];
      } else {
        es, comma := ItemsOf(td, t);
        FlowTailMore(es, comma, end);
      }
    }
  }

  /** A single pair, from its key on, and what comes behind it. */
  lemma {:induction false} SingleOf(td: seq<TagDirective>, toks: seq<Token>)
    returns (e: Entry, es: seq<Entry>, comma: bool)
    requires PairKey(td, toks, true).ok
    ensures var o := PairKey(td, toks, true);
            && e.Keyed? && FlowEntryOk(td, e) && AllFlow(td, es)
            && toks == SpellOpt(e.key) + (SpellColon(e.colon) + FlowTail(es, comma, [FlowSequenceEndToken] + o.rest))
            && o.events == PairEvents(td, e) + ([MappingEnd] + (FlowEvents(td, es, true) + [SequenceEnd]))
    decreases |toks|, 6
  {
    hide Node, Emit, Then, PairValue, AllFlow, OptOk, ColonOk, SpellOpt, SpellColon, FlowTail, FlowEvents, Harmless;
    hide OptEvents, ColonEvents;
    var x, mid := Absent, toks;
    if toks[0].ValueToken? || EndsPair(toks[0]) {
      EmitOk(EMPTY_SCALAR, PairValue(td, toks, true));
      AbsentParts(td, false, false);
    } else {
      mid := Node(td, toks, false, false, true).rest;
      x := PresentOf(td, toks, false, false, PairValue(td, mid, true));
    }
    var colon;
    colon, es, comma := SingleColonOf(td, mid);
    e := Keyed(x, colon);
    KeyedEvents(td, e, [MappingEnd] + (FlowEvents(td, es, true) + [SequenceEnd]));
  }

  lemma PairValueStep(td: seq<TagDirective>, toks: seq<Token>)
    requires toks != [] && (toks[0].ValueToken? ==> |toks| > 1)
    ensures PairValue(td, toks, true) ==
            if !toks[0].ValueToken? then Emit(EMPTY_SCALAR, PairEnd(td, toks, true))
            else if EndsPair(toks[1]) then Emit(EMPTY_SCALAR, PairEnd(td, toks[1..], true))
            else
              var n := Node(td, toks[1..], false, false, true);
              Then(n, PairEnd(td, n.rest, true))
  {
    hide Node, Emit, Then, PairEnd;
  }

  lemma PairEndOf(td: seq<TagDirective>, toks: seq<Token>)
    requires PairEnd(td, toks, true).ok
    ensures var o := FlowSequence(td, false, toks, true);
            o.ok && PairEnd(td, toks, true).events == [MappingEnd] + o.events && PairEnd(td, toks, true).rest == o.rest
  {
  }

  lemma {:induction false} SingleColonOf(td: seq<TagDirective>, toks: seq<Token>)
    returns (colon: Colon, es: seq<Entry>, comma: bool)
    requires PairValue(td, toks, true).ok
    ensures var o := PairValue(td, toks, true);
            && ColonOk(td, colon, false) && AllFlow(td, es)
            && toks == SpellColon(colon) + FlowTail(es, comma, [FlowSequenceEndToken] + o.rest)
            && o.events == ColonEvents(td, colon) + ([MappingEnd] + (FlowEvents(td, es, true) + [SequenceEnd]))
    decreases |toks|, 2
  {
    hide Node, Emit, Then, AllFlow, OptOk, SpellOpt, FlowTail, FlowEvents, OptEvents, FlowSequence, PairEnd;
    PairValueStep(td, toks);
    hide PairValue, SpellColon, ColonEvents, ColonOk;
    var x, more := Absent, toks;
    if toks[0].ValueToken? {
      var t := toks[1..];
      assert toks == [ValueToken] + t;
      if EndsPair(t[0]) {
        more := t;
        EmitOk(EMPTY_SCALAR, PairEnd(td, t, true));
        AbsentParts(td, false, false);
      } else {
        more := Node(td, t, false, false, true).rest;
        x := PresentOf(td, t, false, false, PairEnd(td, more, true));
      }
      colon := Colon(x);
      ColonParts(td, x, false, more);
    } else {
      EmitOk(EMPTY_SCALAR, PairEnd(td, toks, true));
      colon := NoColon;
      NoColonParts(td, false, toks);
    }
    PairEndOf(td, more);
    es, comma := MoreItemsOf(td, more);
  }

  lemma {:induction false} FlowPairsOf(td: seq<TagDirective>, toks: seq<Token>) returns (es: seq<Entry>, comma: bool)
    requires FlowMappingKey(td, true, toks, true).ok
    ensures var o := FlowMappingKey(td, true, toks, true);
            && AllFlow(td, es) && (comma ==> es != [])
            && toks == SpellFlow(es) + Comma(comma) + ([FlowMappingEndToken] + o.rest)
            && o.events == FlowEvents(td, es, false) + [MappingEnd]
    decreases |toks|, 7
  {
    hide FlowMappingEntry, AllFlow;
    if toks[0].FlowMappingEndToken? {
      es, comma := [], false;
      NoFlow(td, false);
      assert toks == [FlowMappingEndToken] + toks[1..] && [MappingEnd] == [] + [MappingEnd];
    } else {
      es, comma := PairsOf(td, toks);
    }
  }

  lemma {:induction false} PairsOf(td: seq<TagDirective>, toks: seq<Token>) returns (es: seq<Entry>, comma: bool)
    requires toks != [] && FlowMappingEntry(td, toks, true).ok
    ensures var o := FlowMappingEntry(td, toks, true);
            && AllFlow(td, es) && es != []
            && toks == SpellFlow(es) + Comma(comma) + ([FlowMappingEndToken] + o.rest)
            && o.events == FlowEvents(td, es, false) + [MappingEnd]
    decreases |toks|, 6
  {
    hide Node, Emit, Then, AllFlow, OptOk, ColonOk, SpellOpt, OptEvents, SpellColon, ColonEvents, SpellFlow, FlowEvents;
    hide FlowTail, FlowMappingValue;
    var end := [FlowMappingEndToken] + FlowMappingEntry(td, toks, true).rest;
    var e, others;
    if toks[0].KeyToken? {
      var t := toks[1..];
      var x, mid := Absent, t;
      if t[0].ValueToken? || EndsFlowEntry(t[0]) {
        EmitOk(EMPTY_SCALAR, FlowMappingValue(td, false, t, true));
        AbsentParts(td, false, false);
      } else {
        mid := Node(td, t, false, false, true).rest;
        x := PresentOf(td, t, false, false, FlowMappingValue(td, false, mid, true));
      }
      var colon;
      colon, others, comma := MapColonOf(td, false, mid);
      e := Keyed(x, colon);
      KeyedSpells(e, FlowTail(others, comma, end));
      KeyedEvents(td, e, FlowEvents(td, others, false) + [MappingEnd]);
      assert toks == [KeyToken] + t;
    } else {
      var mid := Node(td, toks, false, false, true).rest;
      var x := PresentOf(td, toks, false, false, FlowMappingValue(td, true, mid, true));
      var colon;
      colon, others, comma := MapColonOf(td, true, mid);
      e := Lone(x.tree);
      LoneParts(td, x, others, comma, end);
    }
    es := [e] + others;
    AllFlowCons(td, e, others);
    FlowLonger(e, others, comma, end);
    FlowCons(td, e, others, false, MappingEnd);
  }

  lemma LoneParts(td: seq<TagDirective>, x: Opt, es: seq<Entry>, comma: bool, end: seq<Token>)
    requires x.Present? && OptOk(td, x, false, false)
    ensures FlowEntryOk(td, Lone(x.tree)) && SpellEntry(Lone(x.tree)) == SpellOpt(x)
    ensures SpellColon(NoColon) + FlowTail(es, comma, end) == FlowTail(es, comma, end)
    ensures forall fs ::
              FlowEntryEvents(td, Lone(x.tree), false) + fs == OptEvents(td, x) + (ColonEvents(td, NoColon) + fs)
  {
    hide EventsOf, Spell, FlowTail, TreeOk;
    forall fs
      ensures FlowEntryEvents(td, Lone(x.tree), false) + fs == OptEvents(td, x) + (ColonEvents(td, NoColon) + fs)
    {
      assert EventsOf(td, x.tree) + [EMPTY_SCALAR] + fs == EventsOf(td, x.tree) + ([EMPTY_SCALAR] + fs);
    }
  }

  lemma MapValueStep(td: seq<TagDirective>, empty: bool, toks: seq<Token>)
    requires toks != [] && (!empty && toks[0].ValueToken? ==> |toks| > 1)
    ensures FlowMappingValue(td, empty, toks, true) ==
            if empty || !toks[0].ValueToken? then Emit(EMPTY_SCALAR, FlowMappingKey(td, false, toks, true))
            else if EndsFlowEntry(toks[1]) then Emit(EMPTY_SCALAR, FlowMappingKey(td, false, toks[1..], true))
            else
              var n := Node(td, toks[1..], false, false, true);
              Then(n, FlowMappingKey(td, false, n.rest, true))
  {
    hide Node, Emit, Then, FlowMappingKey;
  }

  /** The value of an entry of a flow mapping, and what comes behind it; none behind a node without KEY. */
  lemma {:induction false} MapColonOf(td: seq<TagDirective>, empty: bool, toks: seq<Token>)
    returns (colon: Colon, es: seq<Entry>, comma: bool)
    requires FlowMappingValue(td, empty, toks, true).ok
    ensures var o := FlowMappingValue(td, empty, toks, true);
            && ColonOk(td, colon, false) && AllFlow(td, es) && (empty ==> colon == NoColon)
            && toks == SpellColon(colon) + FlowTail(es, comma, [FlowMappingEndToken] + o.rest)
            && o.events == ColonEvents(td, colon) + (FlowEvents(td, es, false) + [MappingEnd])
    decreases |toks|, 1
  {
    hide Node, Emit, Then, AllFlow, OptOk, SpellOpt, FlowTail, FlowEvents, OptEvents, FlowMappingKey;
    MapValueStep(td, empty, toks);
    hide FlowMappingValue, SpellColon, ColonEvents, ColonOk;
    var x, more := Absent, toks;
    if !empty && toks[0].ValueToken? {
      var t := toks[1..];
      assert toks == [ValueToken] + t;
      if EndsFlowEntry(t[0]) {
        more := t;
        EmitOk(EMPTY_SCALAR, FlowMappingKey(td, false, t, true));
        AbsentParts(td, false, false);
      } else {
        more := Node(td, t, false, false, true).rest;
        x := PresentOf(td, t, false, false, FlowMappingKey(td, false, more, true));
      }
      colon := Colon(x);
      ColonParts(td, x, false, more);
    } else {
      EmitOk(EMPTY_SCALAR, FlowMappingKey(td, false, toks, true));
      colon := NoColon;
      NoColonParts(td, false, toks);
    }
    es, comma := MorePairsOf(td, more);
  }

  lemma {:induction false} MorePairsOf(td: seq<TagDirective>, toks: seq<Token>) returns (es: seq<Entry>, comma: bool)
    requires FlowMappingKey(td, false, toks, true).ok
    ensures var o := FlowMappingKey(td, false, toks, true);
            && AllFlow(td, es) && toks == FlowTail(es, comma, [FlowMappingEndToken] + o.rest)
            && o.events == FlowEvents(td, es, false) + [MappingEnd]
    decreases |toks|, 0
  {
    hide FlowMappingEntry, AllFlow, FlowTail, SpellFlow, FlowEvents;
    var end := [FlowMappingEndToken] + FlowMappingKey(td, false, toks, true).rest;
    NoFlow(td, false);
    if toks[0].FlowMappingEndToken? {
      es, comma := [], false;
      FlowTailLast(comma, end);
      assert toks == [toks[0]] + toks[1..] && [MappingEnd] == [] + [MappingEnd];
    } else {
      var t := toks[1..];
      assert toks == [FlowEntryToken] + t;
      if t[0].FlowMappingEndToken? {
        es, comma := [], true;
        FlowTailLast(comma, end);
        assert t == [t[0]] + t[1..] && [MappingEnd] == [] + [MappingEnd];
      } else {
        es, comma := PairsOf(td, t);
        FlowTailMore(es, comma, end);
      }
    }
  }

  // ---------------------------------------------------------------- directives

  /** Directives only; at most one %YAML, which is 1.1, and no handle twice. */
  predicate DirectivesOk(ds: seq<Token>) {
    && (forall i | 0 <= i < |ds| :: IsDirective(ds[i]))
    && (forall i | 0 <= i < |ds| && ds[i].VersionDirectiveToken? :: ds[i] == VersionDirectiveToken(1, 1))
    && (forall i, j | 0 <= i < j < |ds| :: !(ds[i].VersionDirectiveToken? && ds[j].VersionDirectiveToken?))
    && forall i, j | 0 <= i < j < |ds| && ds[i].TagDirectiveToken? && ds[j].TagDirectiveToken? ::
         ds[i].handle != ds[j].handle
  }

  function VersionOf(ds: seq<Token>): Option<Version> {
    if ds == [] then None
    else
      match ds[|ds| - 1]
      case VersionDirectiveToken(major, minor) => Some(Version(major, minor))
      case _ => VersionOf(ds[..|ds| - 1])
  }

  function Declared(ds: seq<Token>): seq<TagDirective> {
    if ds == [] then []
    else
      Declared(ds[..|ds| - 1]) +
      match ds[|ds| - 1] case TagDirectiveToken(handle, prefix) => [TagDirective(handle, prefix)] case _ => []
  }

  lemma {:induction false} HasVersion(ds: seq<Token>)
    ensures VersionOf(ds).Some? <==> exists i :: 0 <= i < |ds| && ds[i].VersionDirectiveToken?
    decreases |ds|
  {
    if ds != [] {
      var front := ds[..|ds| - 1];
      HasVersion(front);
      if i :| 0 <= i < |ds| && ds[i].VersionDirectiveToken? {
        if i < |front| { assert front[i].VersionDirectiveToken?; }
      }
    }
  }

  lemma {:induction false} HasHandle(ds: seq<Token>, handle: string)
    ensures FindHandle(Declared(ds), handle).Some? <==>
            exists i :: 0 <= i < |ds| && ds[i].TagDirectiveToken? && ds[i].handle == handle
    decreases |ds|
  {
    if ds != [] {
      var n := |ds| - 1;
      HasHandle(ds[..n], handle);
      if ds[n].TagDirectiveToken? {
        FindLast(Declared(ds[..n]), TagDirective(ds[n].handle, ds[n].prefix), handle);
      } else {
        assert Declared(ds[..n]) + [] == Declared(ds[..n]);
      }
      if i :| 0 <= i < |ds| && ds[i].TagDirectiveToken? && ds[i].handle == handle {
        if i < n { assert ds[..n][i].TagDirectiveToken? && ds[..n][i].handle == handle; }
      }
    }
  }

  lemma {:induction false} FindLast(td: seq<TagDirective>, d: TagDirective, handle: string)
    ensures FindHandle(td + [d], handle).Some? <==> FindHandle(td, handle).Some? || d.handle == handle
    decreases |td|
  {
    if td != [] {
      assert (td + [d])[0] == td[0] && (td + [d])[1..] == td[1..] + [d];
      FindLast(td[1..], d, handle);
    }
  }

  lemma OneMoreDirective(ds: seq<Token>, t: Token)
    requires DirectivesOk(ds)
    ensures DirectivesOk(ds + [t]) <==>
            || (t == VersionDirectiveToken(1, 1) && VersionOf(ds).None?)
            || (t.TagDirectiveToken? && FindHandle(Declared(ds), t.handle).None?)
    ensures VersionOf(ds + [t]) ==
            if t.VersionDirectiveToken? then Some(Version(t.major, t.minor)) else VersionOf(ds)
    ensures Declared(ds + [t]) ==
            Declared(ds) + if t.TagDirectiveToken? then [TagDirective(t.handle, t.prefix)] else []
  {
    var more := ds + [t];
    assert more[..|ds|] == ds && more[|ds|] == t;
    HasVersion(ds);
    if t.TagDirectiveToken? { HasHandle(ds, t.handle); }
    if DirectivesOk(more) { assert IsDirective(more[|ds|]); }
  }

  /** Directives that have been read, and those that follow. */
  lemma {:induction false} DirectivesRead(done: seq<Token>, ds: seq<Token>, tail: seq<Token>)
    requires DirectivesOk(done) && tail != [] && !IsDirective(tail[0]) && forall i | 0 <= i < |ds| :: IsDirective(ds[i])
    ensures Directives(Header(VersionOf(done), Declared(done), Declared(done), ds + tail)) ==
            if DirectivesOk(done + ds) then
              Some(Header(VersionOf(done + ds), Declared(done + ds), WithDefaults(Declared(done + ds)), tail))
            else None
    decreases |ds|
  {
    hide VersionOf, Declared, WithDefaults, FindHandle;
    if ds == [] {
      assert ds + tail == tail && done + ds == done;
    } else {
      var t, more := ds[0], done + [ds[0]];
      assert (ds + tail)[0] == t && (ds + tail)[1..] == ds[1..] + tail && done + ds == more + ds[1..];
      OneMoreDirective(done, t);
      assert Declared(done) + [] == Declared(done);
      hide DirectivesOk;
      if DirectivesOk(more) {
        DirectivesRead(more, ds[1..], tail);
      } else {
        LaterDirectives(more, ds[1..]);
      }
    }
  }

  lemma LaterDirectives(ds: seq<Token>, more: seq<Token>)
    requires !DirectivesOk(ds)
    ensures !DirectivesOk(ds + more)
  {
    if DirectivesOk(ds + more) {
      assert forall i | 0 <= i < |ds| :: (ds + more)[i] == ds[i];
      assert DirectivesOk(ds);
    }
  }

  // ---------------------------------------------------------------- documents

  /** DIRECTIVE* DOCUMENT-START block_node? DOCUMENT-END* */
  datatype Explicit = Explicit(directives: seq<Token>, content: Opt, ends: nat)

  /** block_node DOCUMENT-END* */
  datatype Implicit = Implicit(content: Derivation, ends: nat)

  /** STREAM-START implicit_document? explicit_document* STREAM-END */
  datatype StreamTree = StreamTree(first: Option<Implicit>, others: seq<Explicit>)

  function Ends(n: nat): (r: seq<Token>)
    ensures |r| == n && forall i | 0 <= i < n :: r[i] == DocumentEndToken
  {
    seq(n, _ => DocumentEndToken)
  }

  function SpellExplicit(d: Explicit): seq<Token> {
    d.directives + [DocumentStartToken] + SpellOpt(d.content) + Ends(d.ends)
  }

  function SpellDocuments(ds: seq<Explicit>): seq<Token> {
    if ds == [] then [StreamEndToken] else SpellExplicit(ds[0]) + SpellDocuments(ds[1..])
  }

  function SpellStream(s: StreamTree): seq<Token> {
    [StreamStartToken] +
    (match s.first case None => [] case Some(d) => Spell(d.content) + Ends(d.ends)) + SpellDocuments(s.others)
  }

  ghost predicate ExplicitOk(d: Explicit) {
    DirectivesOk(d.directives) && OptOk(WithDefaults(Declared(d.directives)), d.content, true, false)
  }

  ghost predicate StreamOk(s: StreamTree) {
    && (s.first.Some? ==> TreeOk(WithDefaults([]), s.first.value.content, true, false))
    && forall i | 0 <= i < |s.others| :: ExplicitOk(s.others[i])
  }

  ghost function ExplicitEvents(d: Explicit): seq<Event> {
    [DocumentStart(VersionOf(d.directives), Declared(d.directives), false)] +
    OptEvents(WithDefaults(Declared(d.directives)), d.content) + [DocumentEnd(d.ends == 0)]
  }

  ghost function DocumentsEvents(ds: seq<Explicit>): seq<Event> {
    if ds == [] then [StreamEnd] else ExplicitEvents(ds[0]) + DocumentsEvents(ds[1..])
  }

  ghost function ImplicitEvents(d: Implicit): seq<Event> {
    [DocumentStart(None, [], false)] + EventsOf(WithDefaults([]), d.content) + [DocumentEnd(d.ends == 0)]
  }

  ghost function StreamEvents(s: StreamTree): seq<Event> {
    [StreamStart] + (match s.first case None => [] case Some(d) => ImplicitEvents(d)) + DocumentsEvents(s.others)
  }

  // ---------------------------------------------------------------- documents are read

  /** What a document may begin with, and the end of the stream. */
  predicate Opens(t: Token) {
    IsDirective(t) || t.DocumentStartToken? || t.StreamEndToken?
  }

  lemma DocumentsStart(ds: seq<Explicit>)
    requires forall i | 0 <= i < |ds| :: ExplicitOk(ds[i])
    ensures SpellDocuments(ds) != [] && Opens(SpellDocuments(ds)[0])
    ensures SpellDocuments(ds)[0].StreamEndToken? <==> ds == []
  {
    hide OptOk, SpellOpt, WithDefaults, Declared;
    if ds != [] {
      var d := ds[0];
      assert ExplicitOk(d);
      assert SpellExplicit(d)[0] == if d.directives == [] then DocumentStartToken else d.directives[0];
    }
  }

  lemma {:induction false} SkipEnds(n: nat, toks: seq<Token>)
    requires toks == [] || !toks[0].DocumentEndToken?
    ensures SkipDocumentEnds(Ends(n) + toks) == toks
    decreases n
  {
    if n == 0 {
      assert Ends(n) + toks == toks;
    } else {
      assert (Ends(n) + toks)[1..] == Ends(n - 1) + toks;
      SkipEnds(n - 1, toks);
    }
  }

  lemma EndsRead(n: nat, toks: seq<Token>, es: seq<Event>, rest: seq<Token>)
    requires toks != [] && !toks[0].DocumentEndToken? && Reads(Documents([], false, toks, true), es, rest)
    ensures Reads(EndOfDocument(Ends(n) + toks, true), [DocumentEnd(n == 0)] + es, rest)
  {
    hide DocumentsFrom;
    SkipEnds(0, toks);
    assert Ends(0) + toks == toks;
    if n > 0 {
      assert (Ends(n) + toks)[1..] == Ends(n - 1) + toks && (Ends(n) + toks)[0] == DocumentEndToken;
      SkipEnds(n - 1, toks);
    }
  }

  /** The content of a document, in front of its end. */
  lemma ContentOfDocument(td: seq<TagDirective>, x: Opt, tail: seq<Token>, es: seq<Event>, rest: seq<Token>)
    requires OptOk(td, x, true, false) && tail != [] && (Opens(tail[0]) || tail[0].DocumentEndToken?)
    requires Reads(EndOfDocument(tail, true), es, rest)
    ensures var n := DocumentContent(td, SpellOpt(x) + tail, true);
            n.rest == tail && Reads(Then(n, EndOfDocument(n.rest, true)), OptEvents(td, x) + es, rest)
  {
    hide Node, EndOfDocument, Then, Reads;
    var toks := SpellOpt(x) + tail;
    if x.Absent? {
      assert toks == tail;
      ReadsEmpty(td, tail);
      ReadsThen(DocumentContent(td, tail, true), [EMPTY_SCALAR], tail, EndOfDocument(tail, true), es, rest);
    } else {
      OptReads(td, x, true, false, tail, EndOfDocument(tail, true), es, rest);
      BeginsOpt(td, x, tail);
    }
  }

  lemma ReadsEmpty(td: seq<TagDirective>, tail: seq<Token>)
    requires tail != [] && (Opens(tail[0]) || tail[0].DocumentEndToken?)
    ensures Reads(DocumentContent(td, tail, true), [EMPTY_SCALAR], tail) && DocumentContent(td, tail, true).rest == tail
  {
  }

  lemma BeginsOpt(td: seq<TagDirective>, x: Opt, tail: seq<Token>)
    requires x.Present? && OptOk(td, x, true, false)
    ensures var t := SpellOpt(x) + tail; t != [] && !Opens(t[0]) && !t[0].DocumentEndToken?
    ensures DocumentContent(td, SpellOpt(x) + tail, true) == Node(td, SpellOpt(x) + tail, true, false, true)
  {
    hide Node;
    BeginsTree(td, x.tree, true, false);
  }

  lemma ExplicitParts(d: Explicit, more: seq<Token>, es: seq<Event>)
    ensures SpellExplicit(d) + more ==
            d.directives + ([DocumentStartToken] + (SpellOpt(d.content) + (Ends(d.ends) + more)))
    ensures ExplicitEvents(d) + es ==
            [DocumentStart(VersionOf(d.directives), Declared(d.directives), false)] +
            (OptEvents(WithDefaults(Declared(d.directives)), d.content) + ([DocumentEnd(d.ends == 0)] + es))
  {
    hide SpellOpt, OptEvents, WithDefaults;
  }

  lemma NoneYet()
    ensures DirectivesOk([]) && VersionOf([]) == None && Declared([]) == []
  {
  }

  /** An explicit document, where the documents behind it are read. */
  lemma ExplicitReads(d: Explicit, more: seq<Token>, implicit: bool, es: seq<Event>, rest: seq<Token>)
    requires ExplicitOk(d) && more != [] && Opens(more[0]) && Reads(Documents([], false, more, true), es, rest)
    ensures var toks := SpellExplicit(d) + more;
            toks != [] && Reads(DocumentsFrom([], implicit, toks, true), ExplicitEvents(d) + es, rest)
  {
    hide Documents, EndOfDocument, DocumentContent, Reads, Then, Emit, SpellOpt, OptEvents, DirectivesOk, Directives;
    var td, ends := WithDefaults(Declared(d.directives)), Ends(d.ends) + more;
    var tail, toks := [DocumentStartToken] + (SpellOpt(d.content) + ends), SpellExplicit(d) + more;
    var start := DocumentStart(VersionOf(d.directives), Declared(d.directives), false);
    var fs := [DocumentEnd(d.ends == 0)] + es;
    ExplicitParts(d, more, es);
    NoneYet();
    AllDirectives(d.directives);
    DirectivesRead([], d.directives, tail);
    assert [] + d.directives == d.directives;
    EndsRead(d.ends, more, es, rest);
    assert ends != [] && (Opens(ends[0]) || ends[0].DocumentEndToken?);
    ContentOfDocument(td, d.content, ends, fs, rest);
    var n := DocumentContent(td, SpellOpt(d.content) + ends, true);
    assert tail[1..] == SpellOpt(d.content) + ends;
    ReadsEmit(start, Then(n, EndOfDocument(n.rest, true)), OptEvents(td, d.content) + fs, rest);
    assert toks[0] == if d.directives == [] then DocumentStartToken else d.directives[0];
  }

  lemma AllDirectives(ds: seq<Token>)
    requires DirectivesOk(ds)
    ensures forall i | 0 <= i < |ds| :: IsDirective(ds[i])
  {
  }

  lemma {:induction false} DocumentsRead(ds: seq<Explicit>, rest: seq<Token>)
    requires forall i | 0 <= i < |ds| :: ExplicitOk(ds[i])
    ensures Reads(Documents([], false, SpellDocuments(ds) + rest, true), DocumentsEvents(ds), rest)
    decreases |ds|
  {
    hide DocumentsFrom, Reads, SpellExplicit, ExplicitEvents, ExplicitOk, SkipDocumentEnds;
    var toks := SpellDocuments(ds) + rest;
    DocumentsStart(ds);
    SkipEnds(0, toks);
    assert Ends(0) + toks == toks;
    if ds == [] {
      StreamEndReads(toks, rest);
    } else {
      var more := SpellDocuments(ds[1..]) + rest;
      assert toks == SpellExplicit(ds[0]) + more;
      DocumentsRead(ds[1..], rest);
      DocumentsStart(ds[1..]);
      ExplicitReads(ds[0], more, false, DocumentsEvents(ds[1..]), rest);
    }
  }

  lemma StreamEndReads(toks: seq<Token>, rest: seq<Token>)
    requires toks == [StreamEndToken] + rest
    ensures forall implicit :: Reads(DocumentsFrom([], implicit, toks, true), [StreamEnd], rest)
  {
    assert toks[1..] == rest;
  }

  /** The first document, or the documents from the first on. */
  lemma FirstReads(s: StreamTree, rest: seq<Token>)
    requires StreamOk(s)
    ensures var toks := SpellStream(s)[1..] + rest;
            Reads(Documents([], true, toks, true), StreamEvents(s)[1..], rest)
  {
    hide DocumentsFrom, Reads, SpellExplicit, ExplicitEvents, ExplicitOk, Spell, EventsOf, DocumentsEvents;
    var toks, docs := SpellStream(s)[1..] + rest, SpellDocuments(s.others) + rest;
    DocumentsRead(s.others, rest);
    DocumentsStart(s.others);
    if s.first.None? {
      assert toks == docs && StreamEvents(s)[1..] == DocumentsEvents(s.others);
      if s.others == [] {
        StreamEndReads(toks, rest);
        OnlyEnd();
      } else {
        var more := SpellDocuments(s.others[1..]) + rest;
        assert toks == SpellExplicit(s.others[0]) + more;
        DocumentsStart(s.others[1..]);
        DocumentsRead(s.others[1..], rest);
        ExplicitReads(s.others[0], more, true, DocumentsEvents(s.others[1..]), rest);
        FirstEvents(s.others);
      }
    } else {
      ImplicitReads(s.first.value, docs, DocumentsEvents(s.others), rest);
      assert toks == Spell(s.first.value.content) + (Ends(s.first.value.ends) + docs);
      assert StreamEvents(s)[1..] == ImplicitEvents(s.first.value) + DocumentsEvents(s.others);
    }
  }

  lemma OnlyEnd()
    ensures DocumentsEvents([]) == [StreamEnd]
  {
  }

  lemma FirstEvents(ds: seq<Explicit>)
    requires ds != []
    ensures DocumentsEvents(ds) == ExplicitEvents(ds[0]) + DocumentsEvents(ds[1..])
  {
  }

  lemma ImplicitReads(d: Implicit, more: seq<Token>, es: seq<Event>, rest: seq<Token>)
    requires TreeOk(WithDefaults([]), d.content, true, false) && more != [] && Opens(more[0])
    requires Reads(Documents([], false, more, true), es, rest)
    ensures var toks := Spell(d.content) + (Ends(d.ends) + more);
            toks != [] && Reads(DocumentsFrom([], true, toks, true), ImplicitEvents(d) + es, rest)
  {
    hide Documents, EndOfDocument, Node, Reads, Then, Emit, WithDefaults, EventsOf, TreeOk, Spell;
    var td, ends := WithDefaults([]), Ends(d.ends) + more;
    var toks, fs := Spell(d.content) + ends, [DocumentEnd(d.ends == 0)] + es;
    BeginsTree(td, d.content, true, false);
    EndsRead(d.ends, more, es, rest);
    assert ends != [] && Delimits(ends[0], false);
    NodeReads(td, d.content, true, false, ends);
    NodeThen(td, toks, true, false, d.content, ends, EndOfDocument(ends, true), fs, rest);
    ReadsEmit(DocumentStart(None, [], false), Then(Node(td, toks, true, false, true), EndOfDocument(ends, true)),
              EventsOf(td, d.content) + fs, rest);
    assert [DocumentStart(None, [], false)] + (EventsOf(td, d.content) + fs) == ImplicitEvents(d) + es;
  }

  // ---------------------------------------------------------------- what is read is spelled

  lemma {:induction false} EndsOf(toks: seq<Token>) returns (n: nat)
    ensures toks == Ends(n) + SkipDocumentEnds(toks)
    decreases |toks|
  {
    if toks != [] && toks[0].DocumentEndToken? {
      var k := EndsOf(toks[1..]);
      n := k + 1;
      assert toks == [toks[0]] + toks[1..] && Ends(n) == [DocumentEndToken] + Ends(k);
    } else {
      n := 0;
      assert toks == Ends(0) + toks;
    }
  }

  lemma {:induction false} DirectiveRun(toks: seq<Token>) returns (ds: seq<Token>, tail: seq<Token>)
    ensures toks == ds + tail && forall i | 0 <= i < |ds| :: IsDirective(ds[i])
    ensures tail != [] ==> !IsDirective(tail[0])
    decreases |toks|
  {
    if toks != [] && IsDirective(toks[0]) {
      var more;
      more, tail := DirectiveRun(toks[1..]);
      ds := [toks[0]] + more;
    } else {
      ds, tail := [], toks;
    }
  }

  /** A document that is read was spelled, and the end of it is where the next one begins. */
  lemma {:induction false} ExplicitOf(toks: seq<Token>, implicit: bool) returns (d: Explicit, others: seq<Explicit>)
    requires toks != [] && (IsDirective(toks[0]) || toks[0].DocumentStartToken? || !implicit)
    requires !toks[0].StreamEndToken? && DocumentsFrom([], implicit, toks, true).ok
    ensures var o := DocumentsFrom([], implicit, toks, true);
            && ExplicitOk(d) && (forall i | 0 <= i < |others| :: ExplicitOk(others[i]))
            && toks == SpellExplicit(d) + (SpellDocuments(others) + o.rest)
            && o.events == ExplicitEvents(d) + DocumentsEvents(others)
    decreases |toks|, 1
  {
    hide EndOfDocument, DocumentContent, Then, Emit, SpellOpt, OptEvents, OptOk, Directives, DirectivesOk;
    hide SpellDocuments, DocumentsEvents, ExplicitOk, SpellExplicit, ExplicitEvents;
    var ds, tail := DirectiveRun(toks);
    NoneYet();
    TailThere(toks, ds, tail);
    DirectivesRead([], ds, tail);
    assert [] + ds == ds;
    var td, t := WithDefaults(Declared(ds)), tail[1..];
    var start := DocumentStart(VersionOf(ds), Declared(ds), false);
    var n := DocumentContent(td, t, true);
    EmitOk(start, Then(n, EndOfDocument(n.rest, true)));
    ThenOk(n, EndOfDocument(n.rest, true));
    var x := ContentFound(td, t);
    var ends;
    ends, others := EndOf(n.rest);
    d := Explicit(ds, x, ends);
    ExplicitFound(d);
    ExplicitParts(d, SpellDocuments(others) + DocumentsFrom([], implicit, toks, true).rest, DocumentsEvents(others));
    assert tail == [DocumentStartToken] + t;
  }

  lemma ExplicitFound(d: Explicit)
    requires DirectivesOk(d.directives) && OptOk(WithDefaults(Declared(d.directives)), d.content, true, false)
    ensures ExplicitOk(d)
  {
  }

  lemma TailThere(toks: seq<Token>, ds: seq<Token>, tail: seq<Token>)
    requires toks == ds + tail && forall i | 0 <= i < |ds| :: IsDirective(ds[i])
    requires Directives(Header(None, [], [], toks)).Some?
    ensures tail != []
  {
    if tail == [] { OnlyDirectives(Header(None, [], [], toks)); assert false; }
  }

  lemma {:induction false} OnlyDirectives(h: Header)
    requires forall i | 0 <= i < |h.rest| :: IsDirective(h.rest[i])
    ensures Directives(h).None?
    decreases |h.rest|
  {
    if h.rest != [] {
      match h.rest[0] {
        case VersionDirectiveToken(major, minor) =>
          OnlyDirectives(h.(version := Some(Version(major, minor)), rest := h.rest[1..]));
        case TagDirectiveToken(handle, prefix) =>
          var d := TagDirective(handle, prefix);
          OnlyDirectives(h.(directives := h.directives + [d], known := h.known + [d], rest := h.rest[1..]));
        case _ =>
      }
    }
  }

  lemma ContentFound(td: seq<TagDirective>, toks: seq<Token>) returns (x: Opt)
    requires DocumentContent(td, toks, true).ok
    ensures var n := DocumentContent(td, toks, true);
            OptOk(td, x, true, false) && toks == SpellOpt(x) + n.rest && n.events == OptEvents(td, x)
  {
    hide Node;
    if Opens(toks[0]) || toks[0].DocumentEndToken? {
      x := Absent;
      assert toks == [] + toks;
    } else {
      var t := TreeOf(td, toks, true, false);
      x := Present(t);
    }
  }

  lemma {:induction false} EndOf(toks: seq<Token>) returns (ends: nat, others: seq<Explicit>)
    requires EndOfDocument(toks, true).ok
    ensures var o := EndOfDocument(toks, true);
            && (forall i | 0 <= i < |others| :: ExplicitOk(others[i]))
            && toks == Ends(ends) + (SpellDocuments(others) + o.rest)
            && o.events == [DocumentEnd(ends == 0)] + DocumentsEvents(others)
    decreases |toks|, 3
  {
    hide Documents, Emit, ExplicitOk, SpellDocuments, DocumentsEvents;
    if toks[0].DocumentEndToken? {
      EmitOk(DocumentEnd(false), Documents([], false, toks[1..], true));
      var k;
      k, others := DocumentsOf(toks[1..]);
      ends := k + 1;
      assert toks == [toks[0]] + toks[1..] && Ends(ends) == [DocumentEndToken] + Ends(k);
    } else {
      EmitOk(DocumentEnd(true), Documents([], false, toks, true));
      ends, others := DocumentsOf(toks);
    }
  }

  lemma {:induction false} DocumentsOf(toks: seq<Token>) returns (ends: nat, ds: seq<Explicit>)
    requires Documents([], false, toks, true).ok
    ensures var o := Documents([], false, toks, true);
            && (forall i | 0 <= i < |ds| :: ExplicitOk(ds[i]))
            && toks == Ends(ends) + (SpellDocuments(ds) + o.rest) && o.events == DocumentsEvents(ds)
    decreases |toks|, 2
  {
    hide DocumentsFrom, ExplicitOk, SpellExplicit, ExplicitEvents;
    ends := EndsOf(toks);
    var t := SkipDocumentEnds(toks);
    if t[0].StreamEndToken? {
      ds := [];
      assert t == [StreamEndToken] + t[1..];
      StreamEndReads(t, t[1..]);
    } else {
      var d, others := ExplicitOf(t, false);
      ds := [d] + others;
      assert ds[1..] == others;
      assert SpellExplicit(d) + (SpellDocuments(others) + Documents([], false, toks, true).rest) ==
             SpellExplicit(d) + SpellDocuments(others) + Documents([], false, toks, true).rest;
    }
  }

  lemma {:induction false} FirstOf(toks: seq<Token>) returns (s: StreamTree)
    requires Documents([], true, toks, true).ok
    ensures var o := Documents([], true, toks, true);
            && StreamOk(s) && [StreamStartToken] + toks == SpellStream(s) + o.rest
            && [StreamStart] + o.events == StreamEvents(s)
  {
    hide DocumentsFrom, ExplicitOk, SpellExplicit, ExplicitEvents, Spell, EventsOf, TreeOk;
    var rest := Documents([], true, toks, true).rest;
    if toks[0].StreamEndToken? {
      s := StreamTree(None, []);
      assert toks == [StreamEndToken] + toks[1..];
      StreamEndReads(toks, toks[1..]);
      assert SpellStream(s) == [StreamStartToken, StreamEndToken] && StreamEvents(s) == [StreamStart, StreamEnd];
    } else if IsDirective(toks[0]) || toks[0].DocumentStartToken? {
      var d, others := ExplicitOf(toks, true);
      s := StreamTree(None, [d] + others);
      assert ([d] + others)[1..] == others;
      assert [StreamStartToken] + (SpellExplicit(d) + (SpellDocuments(others) + rest)) ==
             [StreamStartToken] + [] + (SpellExplicit(d) + SpellDocuments(others)) + rest;
      assert [StreamStart] + (ExplicitEvents(d) + DocumentsEvents(others)) ==
             [StreamStart] + [] + (ExplicitEvents(d) + DocumentsEvents(others));
    } else {
      s := ImplicitOf(toks);
    }
  }

  lemma {:induction false} ImplicitOf(toks: seq<Token>) returns (s: StreamTree)
    requires toks != [] && !Opens(toks[0]) && DocumentsFrom([], true, toks, true).ok
    ensures var o := DocumentsFrom([], true, toks, true);
            && StreamOk(s) && [StreamStartToken] + toks == SpellStream(s) + o.rest
            && [StreamStart] + o.events == StreamEvents(s)
  {
    hide Node, EndOfDocument, Emit, Then, ExplicitOk, SpellDocuments, DocumentsEvents, Spell, EventsOf, TreeOk;
    hide WithDefaults;
    var td := WithDefaults([]);
    var n := Node(td, toks, true, false, true);
    EmitOk(DocumentStart(None, [], false), Then(n, EndOfDocument(n.rest, true)));
    ThenOk(n, EndOfDocument(n.rest, true));
    var t := TreeOf(td, toks, true, false);
    var ends, others := EndOf(n.rest);
    var rest := DocumentsFrom([], true, toks, true).rest;
    s := StreamTree(Some(Implicit(t, ends)), others);
    assert [StreamStartToken] + (Spell(t) + (Ends(ends) + (SpellDocuments(others) + rest))) == SpellStream(s) + rest;
    assert [StreamStart] + ([DocumentStart(None, [], false)] +
                            (EventsOf(td, t) + ([DocumentEnd(ends == 0)] + DocumentsEvents(others)))) ==
           StreamEvents(s);
  }

  // ---------------------------------------------------------------- whole streams

  /** The tokens are spelled out by a derivation with these events. */
  ghost predicate Derives(toks: seq<Token>, es: seq<Event>, rest: seq<Token>) {
    exists s :: StreamOk(s) && toks == SpellStream(s) + rest && es == StreamEvents(s)
  }

  /**
   For every list of tokens, the reading as written is complete with these events and this rest exactly if the grammar
   at the head of the parser derives them.
   */
  lemma StreamExact(toks: seq<Token>, es: seq<Event>, rest: seq<Token>)
    ensures Reads(Stream(toks, true), es, rest) <==> Derives(toks, es, rest)
  {
    hide Documents, StreamOk, SpellDocuments, DocumentsEvents, Spell, EventsOf, ImplicitEvents, Emit;
    if Reads(Stream(toks, true), es, rest) {
      EmitOk(StreamStart, Documents([], true, toks[1..], true));
      var s := FirstOf(toks[1..]);
      assert toks == [StreamStartToken] + toks[1..];
      assert StreamOk(s) && toks == SpellStream(s) + rest && es == StreamEvents(s);
    }
    if s :| StreamOk(s) && toks == SpellStream(s) + rest && es == StreamEvents(s) {
      FirstReads(s, rest);
      assert toks[1..] == SpellStream(s)[1..] + rest;
      ReadsEmit(StreamStart, Documents([], true, toks[1..], true), StreamEvents(s)[1..], rest);
      assert [StreamStart] + StreamEvents(s)[1..] == StreamEvents(s);
    }
  }

  /** The code reads just what the grammar derives. */
  ghost predicate Agrees(toks: seq<Token>) {
    forall es, rest :: Reads(Stream(toks), es, rest) <==> Derives(toks, es, rest)
  }

  /**
   Where the code completes a stream, or the grammar derives one, the two agree exactly if no entry of a block mapping
   lacks its key, and no single pair of a flow sequence does so in a harmful form.
   */
  lemma CodeExact(toks: seq<Token>)
    ensures !Stream(toks, true).odd ==> Agrees(toks)
    ensures Stream(toks).ok || (exists es, rest :: Derives(toks, es, rest)) ==>
              (Agrees(toks) <==> !Stream(toks, true).odd)
  {
    hide Stream, Derives;
    var f, w := Stream(toks), Stream(toks, true);
    W.StreamDeparts(toks);
    forall es, rest ensures Reads(w, es, rest) <==> Derives(toks, es, rest) {
      StreamExact(toks, es, rest);
    }
    if Agrees(toks) {
      if f.ok { assert Reads(f, f.events, f.rest); }
      if w.ok { assert Reads(w, w.events, w.rest); }
      if es, rest :| Derives(toks, es, rest) { assert Reads(w, es, rest); }
    }
  }
}
