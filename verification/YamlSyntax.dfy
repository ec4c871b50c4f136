/**
 The grammar at the head of the parser, as trees of derivations: what a tree spells out in
 tokens, and the events that it stands for. The reading as written accepts exactly the token lists that some tree
 spells out, and gives its events.
 */
module YamlSyntax {
  import opened Wrappers
  import opened YamlEvents
  import opened YamlTokens
  import opened YamlGrammar

  // ---------------------------------------------------------------- derivations

  /** ALIAS | properties content? | content */
  datatype Derivation = AliasTree(name: string) | NodeTree(props: seq<Token>, content: Body)

  datatype Body =
    | Nothing
    | OneScalar(token: Token)
    | FlowItems(entries: seq<Entry>, comma: bool)
    | FlowPairs(entries: seq<Entry>, comma: bool)
    | BlockItems(items: seq<Opt>)
    | IndentlessItems(items: seq<Opt>)
    | BlockPairs(entries: seq<Entry>)

  /** node? */
  datatype Opt = Absent | Present(tree: Derivation)

  /** (VALUE node?)? */
  datatype Colon = NoColon | Colon(value: Opt)

  /** node | KEY node? (VALUE node?)? | VALUE node? */
  datatype Entry = Lone(tree: Derivation) | Keyed(key: Opt, colon: Colon) | Unkeyed(value: Opt)

  // ---------------------------------------------------------------- what a derivation spells out

  function Spell(t: Derivation): seq<Token>
    decreases t
  {
    match t
    case AliasTree(name) => [AliasToken(name)]
    case NodeTree(props, content) => props + SpellContent(content)
  }

  function SpellContent(c: Body): seq<Token>
    decreases c
  {
    match c
    case Nothing => []
    case OneScalar(t) => [t]
    case FlowItems(entries, comma) =>
      [FlowSequenceStartToken] + SpellFlow(entries) + Comma(comma) + [FlowSequenceEndToken]
    case FlowPairs(entries, comma) =>
      [FlowMappingStartToken] + SpellFlow(entries) + Comma(comma) + [FlowMappingEndToken]
    case BlockItems(items) => [BlockSequenceStartToken] + SpellItems(items) + [BlockEndToken]
    case IndentlessItems(items) => SpellItems(items)
    case BlockPairs(entries) => [BlockMappingStartToken] + SpellEntries(entries) + [BlockEndToken]
  }

  function Comma(comma: bool): seq<Token> {
    if comma then [FlowEntryToken] else []
  }

  function SpellOpt(o: Opt): seq<Token>
    decreases o
  {
    match o case Absent => [] case Present(t) => Spell(t)
  }

  function SpellColon(c: Colon): seq<Token>
    decreases c
  {
    match c case NoColon => [] case Colon(o) => [ValueToken] + SpellOpt(o)
  }

  function SpellEntry(e: Entry): seq<Token>
    decreases e
  {
    match e
    case Lone(t) => Spell(t)
    case Keyed(key, colon) => [KeyToken] + SpellOpt(key) + SpellColon(colon)
    case Unkeyed(value) => [ValueToken] + SpellOpt(value)
  }

  /** Entries one after the other. */
  function SpellEntries(es: seq<Entry>): seq<Token>
    decreases es
  {
    if es == [] then [] else SpellEntry(es[0]) + SpellEntries(es[1..])
  }

  /** Entries with FLOW-ENTRY between them. */
  function SpellFlow(es: seq<Entry>): seq<Token>
    decreases es
  {
    if es == [] then []
    else if |es| == 1 then SpellEntry(es[0])
    else SpellEntry(es[0]) + [FlowEntryToken] + SpellFlow(es[1..])
  }

  /** Items, each behind a BLOCK-ENTRY. */
  function SpellItems(os: seq<Opt>): seq<Token>
    decreases os
  {
    if os == [] then [] else [BlockEntryToken] + SpellOpt(os[0]) + SpellItems(os[1..])
  }

  // ---------------------------------------------------------------- which derivations there are

  /** TAG ANCHOR? | ANCHOR TAG?, or nothing */
  predicate PropsOk(props: seq<Token>) {
    || props == []
    || (|props| == 1 && (props[0].AnchorToken? || props[0].TagToken?))
    || (|props| == 2 && props[0].AnchorToken? && props[1].TagToken?)
    || (|props| == 2 && props[0].TagToken? && props[1].AnchorToken?)
  }

  function TagOf(td: seq<TagDirective>, props: seq<Token>): Option<string> {
    ResolveTag(td, Properties(props).tag)
  }

  /** Block collections only in block nodes; a sequence without indentation only as key or value of a block mapping. */
  ghost predicate TreeOk(td: seq<TagDirective>, t: Derivation, block: bool, indentless: bool)
    decreases t
  {
    match t
    case AliasTree(_) => true
    case NodeTree(props, content) =>
      && PropsOk(props) && TagOf(td, props).Some? && ContentOk(td, content, block, indentless)
      && (content.Nothing? ==> NonEmpty(Properties(props).anchor) || TagOf(td, props).value != "")
  }

  ghost predicate ContentOk(td: seq<TagDirective>, c: Body, block: bool, indentless: bool)
    decreases c
  {
    match c
    case Nothing => true
    case OneScalar(t) => t.ScalarToken?
    case FlowItems(entries, comma) =>
      (comma ==> entries != []) && forall i | 0 <= i < |entries| :: FlowEntryOk(td, entries[i])
    case FlowPairs(entries, comma) =>
      (comma ==> entries != []) && forall i | 0 <= i < |entries| :: FlowEntryOk(td, entries[i])
    case BlockItems(items) => block && forall i | 0 <= i < |items| :: OptOk(td, items[i], true, false)
    case IndentlessItems(items) =>
      indentless && items != [] && forall i | 0 <= i < |items| :: OptOk(td, items[i], true, false)
    case BlockPairs(entries) =>
      && block && (forall i | 0 <= i < |entries| :: BlockEntryOk(td, entries[i]))
      && forall i | 0 <= i < |entries| - 1 :: Longest(entries[i], entries[i + 1])
  }

  /** A VALUE behind a key belongs to it. */
  predicate Longest(e: Entry, next: Entry) {
    e.Keyed? && e.colon.NoColon? ==> !next.Unkeyed?
  }

  ghost predicate OptOk(td: seq<TagDirective>, o: Opt, block: bool, indentless: bool)
    decreases o
  {
    match o case Absent => true case Present(t) => TreeOk(td, t, block, indentless)
  }

  ghost predicate ColonOk(td: seq<TagDirective>, c: Colon, block: bool)
    decreases c
  {
    match c case NoColon => true case Colon(o) => OptOk(td, o, block, block)
  }

  ghost predicate FlowEntryOk(td: seq<TagDirective>, e: Entry)
    decreases e
  {
    match e
    case Lone(t) => TreeOk(td, t, false, false)
    case Keyed(key, colon) => OptOk(td, key, false, false) && ColonOk(td, colon, false)
    case Unkeyed(_) => false
  }

  ghost predicate BlockEntryOk(td: seq<TagDirective>, e: Entry)
    decreases e
  {
    match e
    case Lone(_) => false
    case Keyed(key, colon) => OptOk(td, key, true, true) && ColonOk(td, colon, true)
    case Unkeyed(value) => OptOk(td, value, true, true)
  }

  // ---------------------------------------------------------------- the events of a derivation

  ghost function EventsOf(td: seq<TagDirective>, t: Derivation): seq<Event>
    decreases t
  {
    match t
    case AliasTree(name) => [Alias(name)]
    case NodeTree(props, content) =>
      var tag := TagOf(td, props);
      ContentEvents(td, Properties(props).anchor, if tag.Some? then tag.value else "", content)
  }

  ghost function ContentEvents(td: seq<TagDirective>, anchor: Option<string>, tag: string, c: Body): seq<Event>
    decreases c
  {
    match c
    case Nothing => [Scalar(anchor, tag, "", tag == "", false, Plain)]
    case OneScalar(t) => if t.ScalarToken? then [ScalarEvent(anchor, tag, t)] else []
    case FlowItems(entries, _) =>
      [SequenceStart(anchor, tag, tag == "", true)] + FlowEvents(td, entries, true) + [SequenceEnd]
    case FlowPairs(entries, _) =>
      [MappingStart(anchor, tag, tag == "", true)] + FlowEvents(td, entries, false) + [MappingEnd]
    case BlockItems(items) =>
      [SequenceStart(anchor, tag, tag == "", false)] + ItemsEvents(td, items) + [SequenceEnd]
    case IndentlessItems(items) =>
      [SequenceStart(anchor, tag, tag == "", false)] + ItemsEvents(td, items) + [SequenceEnd]
    case BlockPairs(entries) =>
      [MappingStart(anchor, tag, tag == "", false)] + EntriesEvents(td, entries) + [MappingEnd]
  }

  ghost function OptEvents(td: seq<TagDirective>, o: Opt): seq<Event>
    decreases o
  {
    match o case Absent => [EMPTY_SCALAR] case Present(t) => EventsOf(td, t)
  }

  ghost function ColonEvents(td: seq<TagDirective>, c: Colon): seq<Event>
    decreases c
  {
    match c case NoColon => [EMPTY_SCALAR] case Colon(o) => OptEvents(td, o)
  }

  /** A key and a value. */
  ghost function PairEvents(td: seq<TagDirective>, e: Entry): seq<Event>
    decreases e, 0
  {
    match e
    case Lone(t) => EventsOf(td, t) + [EMPTY_SCALAR]
    case Keyed(key, colon) => OptEvents(td, key) + ColonEvents(td, colon)
    case Unkeyed(value) => [EMPTY_SCALAR] + OptEvents(td, value)
  }

  ghost function EntriesEvents(td: seq<TagDirective>, es: seq<Entry>): seq<Event>
    decreases es
  {
    if es == [] then [] else PairEvents(td, es[0]) + EntriesEvents(td, es[1..])
  }

  /** In a sequence a lone node is an item, and a pair is a mapping of its own. */
  ghost function FlowEvents(td: seq<TagDirective>, es: seq<Entry>, sequence: bool): seq<Event>
    decreases es, 1
  {
    if es == [] then [] else FlowEntryEvents(td, es[0], sequence) + FlowEvents(td, es[1..], sequence)
  }

  ghost function FlowEntryEvents(td: seq<TagDirective>, e: Entry, sequence: bool): seq<Event>
    decreases e, 1
  {
    if !sequence then PairEvents(td, e)
    else if e.Lone? then EventsOf(td, e.tree)
    else [MappingStart(None, "", true, true)] + PairEvents(td, e) + [MappingEnd]
  }

  ghost function ItemsEvents(td: seq<TagDirective>, os: seq<Opt>): seq<Event>
    decreases os
  {
    if os == [] then [] else OptEvents(td, os[0]) + ItemsEvents(td, os[1..])
  }

  // ---------------------------------------------------------------- readings

  /** The production is complete, with these events and this rest. */
  predicate Reads(o: Out, es: seq<Event>, rest: seq<Token>) {
    o.ok && o.events == es && o.rest == rest
  }

  lemma ReadsEmit(e: Event, o: Out, es: seq<Event>, rest: seq<Token>)
    ensures Reads(o, es, rest) ==> Reads(Emit(e, o), [e] + es, rest)
  {
  }

  lemma ReadsThen(a: Out, es: seq<Event>, mid: seq<Token>, b: Out, fs: seq<Event>, rest: seq<Token>)
    requires Reads(a, es, mid) && Reads(b, fs, rest)
    ensures Reads(Then(a, b), es + fs, rest)
  {
  }

  /** Tokens that come behind a node, and that no node begins with; in a block mapping these are only three. */
  predicate Delimits(t: Token, indentless: bool) {
    || EndsBlockEntry(t)
    || (!indentless &&
        (t.BlockEntryToken? || t.FlowEntryToken? || t.FlowSequenceEndToken? || t.FlowMappingEndToken? ||
         t.DocumentStartToken? || t.DocumentEndToken? || t.StreamEndToken? || IsDirective(t)))
  }

  /** Tokens that a node begins with. */
  predicate Begins(t: Token, block: bool, indentless: bool) {
    t.AliasToken? || t.AnchorToken? || t.TagToken? || t.ScalarToken? || StartsCollection(t, block, indentless)
  }

  lemma BeginsContent(td: seq<TagDirective>, c: Body, block: bool, indentless: bool)
    requires ContentOk(td, c, block, indentless) && !c.Nothing?
    ensures SpellContent(c) != []
    ensures var t := SpellContent(c)[0]; t.ScalarToken? || StartsCollection(t, block, indentless)
  {
  }

  lemma BeginsTree(td: seq<TagDirective>, t: Derivation, block: bool, indentless: bool)
    requires TreeOk(td, t, block, indentless)
    ensures Spell(t) != [] && Begins(Spell(t)[0], block, indentless)
  {
    if t.NodeTree? && t.props == [] {
      assert Properties([]) == Props(None, None, []);
      BeginsContent(td, t.content, block, indentless);
      assert Spell(t) == SpellContent(t.content);
    }
  }

  lemma NotBoth(t: Token, block: bool, indentless: bool)
    requires Begins(t, block, indentless)
    ensures !Delimits(t, indentless)
  {
  }

  lemma PropsRead(props: seq<Token>, t: seq<Token>)
    requires PropsOk(props) && t != [] && !t[0].AnchorToken? && !t[0].TagToken?
    ensures Properties(props + t) == Properties(props).(rest := t)
  {
    var s := props + t;
    assert s[|props|..] == t;
    assert |s| > |props| && s[|props|] == t[0];
  }

  /** A node in front of a token that no node begins with. */
  lemma {:induction false} NodeReads(td: seq<TagDirective>, t: Derivation, block: bool, indentless: bool,
                                     rest: seq<Token>)
    requires TreeOk(td, t, block, indentless) && rest != [] && Delimits(rest[0], indentless)
    ensures Reads(Node(td, Spell(t) + rest, block, indentless, true), EventsOf(td, t), rest)
    decreases t, 1
  {
    var toks := Spell(t) + rest;
    match t {
      case AliasTree(name) =>
        assert toks[0] == AliasToken(name) && toks[1..] == rest;
      case NodeTree(props, c) =>
        var tail := SpellContent(c) + rest;
        assert toks == props + tail;
        if !c.Nothing? { BeginsContent(td, c, block, indentless); }
        TailStarts(c, rest, block, indentless);
        PropsRead(props, tail);
        ContentReads(td, Properties(props).anchor, TagOf(td, props).value, c, block, indentless, rest);
        NodeIsContent(td, toks, tail, props, block, indentless);
    }
  }

  lemma TailStarts(c: Body, rest: seq<Token>, block: bool, indentless: bool)
    requires rest != [] && Delimits(rest[0], indentless)
    requires !c.Nothing? ==>
               && SpellContent(c) != []
               && (SpellContent(c)[0].ScalarToken? || StartsCollection(SpellContent(c)[0], block, indentless))
    ensures var t := SpellContent(c) + rest; t != [] && !t[0].AnchorToken? && !t[0].TagToken?
  {
  }

  lemma NodeIsContent(td: seq<TagDirective>, toks: seq<Token>, tail: seq<Token>, props: seq<Token>, block: bool,
                      indentless: bool)
    requires tail != [] && toks == props + tail && Properties(toks) == Properties(props).(rest := tail)
    requires TagOf(td, props).Some? && (props == [] ==> !tail[0].AliasToken?) && PropsOk(props)
    ensures Node(td, toks, block, indentless, true) ==
            Content(td, Properties(props).anchor, TagOf(td, props).value, tail, block, indentless, true)
  {
    hide Content, ResolveTag, Properties;
    assert toks[0] == if props == [] then tail[0] else props[0];
  }

  lemma ContentStarts(td: seq<TagDirective>, anchor: Option<string>, tag: string, toks: seq<Token>, block: bool,
                      indentless: bool)
    requires toks != []
    ensures var o, t := Content(td, anchor, tag, toks, block, indentless, true), toks[0];
            && (t.ScalarToken? ==> o == Out([ScalarEvent(anchor, tag, t)], toks[1..], true))
            && (t.FlowSequenceStartToken? ==>
                  o == Emit(SequenceStart(anchor, tag, tag == "", true), FlowSequence(td, true, toks[1..], true)))
            && (t.FlowMappingStartToken? ==>
                  o == Emit(MappingStart(anchor, tag, tag == "", true), FlowMappingKey(td, true, toks[1..], true)))
            && (block && t.BlockSequenceStartToken? ==>
                  o == Emit(SequenceStart(anchor, tag, tag == "", false), BlockSequence(td, toks[1..], true)))
            && (block && t.BlockMappingStartToken? ==>
                  o == Emit(MappingStart(anchor, tag, tag == "", false), BlockMappingKey(td, toks[1..], true)))
            && (indentless && t.BlockEntryToken? ==>
                  o == Emit(SequenceStart(anchor, tag, tag == "", false), IndentlessSequence(td, toks, true)))
            && (Delimits(t, indentless) && (NonEmpty(anchor) || tag != "") ==>
                  o == Out([Scalar(anchor, tag, "", tag == "", false, Plain)], toks, true))
  {
    hide FlowSequence, FlowMappingKey, BlockSequence, BlockMappingKey, IndentlessSequence, Emit;
  }

  lemma {:induction false} ContentReads(td: seq<TagDirective>, anchor: Option<string>, tag: string, c: Body,
                                        block: bool, indentless: bool, rest: seq<Token>)
    requires ContentOk(td, c, block, indentless) && (c.Nothing? ==> NonEmpty(anchor) || tag != "")
    requires rest != [] && Delimits(rest[0], indentless)
    ensures SpellContent(c) + rest != []
    ensures Reads(Content(td, anchor, tag, SpellContent(c) + rest, block, indentless, true),
                  ContentEvents(td, anchor, tag, c), rest)
    decreases c, 1
  {
    hide Content, Delimits;
    var toks := SpellContent(c) + rest;
    ContentStarts(td, anchor, tag, toks, block, indentless);
    match c {
      case Nothing =>
        assert toks == rest;
      case OneScalar(t) =>
        assert toks[0] == t && toks[1..] == rest;
      case FlowItems(_, _) => FlowReads(td, anchor, tag, c, block, indentless, rest);
      case FlowPairs(_, _) => FlowReads(td, anchor, tag, c, block, indentless, rest);
      case BlockItems(_) => SequenceReads(td, anchor, tag, c, block, indentless, rest);
      case IndentlessItems(_) => SequenceReads(td, anchor, tag, c, block, indentless, rest);
      case BlockPairs(_) => MappingReads(td, anchor, tag, c, block, indentless, rest);
    }
  }

  lemma {:induction false} FlowReads(td: seq<TagDirective>, anchor: Option<string>, tag: string, c: Body,
                                           block: bool, indentless: bool, rest: seq<Token>)
    requires ContentOk(td, c, block, indentless) && (c.FlowItems? || c.FlowPairs?)
    requires rest != [] && Delimits(rest[0], indentless)
    ensures Reads(Content(td, anchor, tag, SpellContent(c) + rest, block, indentless, true),
                  ContentEvents(td, anchor, tag, c), rest)
    decreases c, 0
  {
    hide Content, FlowSequence, FlowMappingKey, BlockSequence, BlockMappingKey, IndentlessSequence, Emit, Reads;
    hide SpellFlow, SpellItems, SpellEntries, FlowEvents, ItemsEvents, EntriesEvents, Delimits;
    var toks := SpellContent(c) + rest;
    match c {
      case FlowItems(entries, comma) =>
        var start, fs := SequenceStart(anchor, tag, tag == "", true), FlowEvents(td, entries, true) + [SequenceEnd];
        FlowItemsRead(td, entries, comma, rest);
        assert toks[1..] == SpellFlow(entries) + Comma(comma) + ([FlowSequenceEndToken] + rest);
        ReadsEmit(start, FlowSequence(td, true, toks[1..], true), fs, rest);
        assert [start] + fs == ContentEvents(td, anchor, tag, c);
      case FlowPairs(entries, comma) =>
        var start, fs := MappingStart(anchor, tag, tag == "", true), FlowEvents(td, entries, false) + [MappingEnd];
        FlowPairsRead(td, entries, comma, rest);
        assert toks[1..] == SpellFlow(entries) + Comma(comma) + ([FlowMappingEndToken] + rest);
        ReadsEmit(start, FlowMappingKey(td, true, toks[1..], true), fs, rest);
        assert [start] + fs == ContentEvents(td, anchor, tag, c);
    }
    ContentStarts(td, anchor, tag, toks, block, indentless);
  }

  lemma {:induction false} SequenceReads(td: seq<TagDirective>, anchor: Option<string>, tag: string, c: Body,
                                           block: bool, indentless: bool, rest: seq<Token>)
    requires ContentOk(td, c, block, indentless) && (c.BlockItems? || c.IndentlessItems?)
    requires rest != [] && Delimits(rest[0], indentless)
    ensures Reads(Content(td, anchor, tag, SpellContent(c) + rest, block, indentless, true),
                  ContentEvents(td, anchor, tag, c), rest)
    decreases c, 0
  {
    hide Content, FlowSequence, FlowMappingKey, BlockSequence, BlockMappingKey, IndentlessSequence, Emit, Reads;
    hide SpellFlow, SpellItems, SpellEntries, FlowEvents, ItemsEvents, EntriesEvents, Delimits;
    var toks := SpellContent(c) + rest;
    match c {
      case BlockItems(items) =>
        var start, fs := SequenceStart(anchor, tag, tag == "", false), ItemsEvents(td, items) + [SequenceEnd];
        BlockItemsRead(td, items, rest);
        assert toks[1..] == SpellItems(items) + ([BlockEndToken] + rest);
        ReadsEmit(start, BlockSequence(td, toks[1..], true), fs, rest);
        assert [start] + fs == ContentEvents(td, anchor, tag, c);
      case IndentlessItems(items) =>
        var start, fs := SequenceStart(anchor, tag, tag == "", false), ItemsEvents(td, items) + [SequenceEnd];
        IndentlessRead(td, items, rest);
        ItemsStart(items);
        ReadsEmit(start, IndentlessSequence(td, toks, true), fs, rest);
        assert [start] + fs == ContentEvents(td, anchor, tag, c);
    }
    ContentStarts(td, anchor, tag, toks, block, indentless);
  }

  lemma {:induction false} MappingReads(td: seq<TagDirective>, anchor: Option<string>, tag: string, c: Body,
                                           block: bool, indentless: bool, rest: seq<Token>)
    requires ContentOk(td, c, block, indentless) && (c.BlockPairs?)
    requires rest != [] && Delimits(rest[0], indentless)
    ensures Reads(Content(td, anchor, tag, SpellContent(c) + rest, block, indentless, true),
                  ContentEvents(td, anchor, tag, c), rest)
    decreases c, 0
  {
    hide Content, FlowSequence, FlowMappingKey, BlockSequence, BlockMappingKey, IndentlessSequence, Emit, Reads;
    hide SpellFlow, SpellItems, SpellEntries, FlowEvents, ItemsEvents, EntriesEvents, Delimits;
    var toks := SpellContent(c) + rest;
    match c {
      case BlockPairs(entries) =>
        var start, fs := MappingStart(anchor, tag, tag == "", false), EntriesEvents(td, entries) + [MappingEnd];
        BlockPairsRead(td, entries, rest);
        assert toks[1..] == SpellEntries(entries) + ([BlockEndToken] + rest);
        ReadsEmit(start, BlockMappingKey(td, toks[1..], true), fs, rest);
        assert [start] + fs == ContentEvents(td, anchor, tag, c);
    }
    ContentStarts(td, anchor, tag, toks, block, indentless);
  }

  lemma ItemsStart(os: seq<Opt>)
    requires os != []
    ensures SpellItems(os) != [] && SpellItems(os)[0] == BlockEntryToken
  {
  }

  // ---------------------------------------------------------------- block collections

  lemma BlockItemStep(td: seq<TagDirective>, t: seq<Token>)
    requires t != []
    ensures BlockSequence(td, [BlockEntryToken] + t, true) ==
            if t[0].BlockEntryToken? || t[0].BlockEndToken? then Emit(EMPTY_SCALAR, BlockSequence(td, t, true))
            else Then(Node(td, t, true, false, true), BlockSequence(td, Node(td, t, true, false, true).rest, true))
  {
    hide Node, Emit, Then;
    assert ([BlockEntryToken] + t)[1..] == t;
  }

  lemma BlockItemsEnd(td: seq<TagDirective>, rest: seq<Token>)
    ensures Reads(BlockSequence(td, [BlockEndToken] + rest, true), [SequenceEnd], rest)
  {
    assert ([BlockEndToken] + rest)[1..] == rest;
  }

  /** What comes behind an item. */
  lemma ItemsGoOn(os: seq<Opt>, end: seq<Token>)
    requires end != []
    ensures var more := SpellItems(os) + end;
            more != [] && more[0] == (if os == [] then end[0] else BlockEntryToken) && (os == [] ==> more == end)
  {
  }

  lemma ItemsCons(td: seq<TagDirective>, os: seq<Opt>, end: seq<Token>)
    requires os != []
    ensures SpellItems(os) + end == [BlockEntryToken] + (SpellOpt(os[0]) + (SpellItems(os[1..]) + end))
    ensures ItemsEvents(td, os) + [SequenceEnd] == OptEvents(td, os[0]) + (ItemsEvents(td, os[1..]) + [SequenceEnd])
  {
    hide OptEvents, SpellOpt;
  }

  lemma {:induction false} BlockItemsRead(td: seq<TagDirective>, os: seq<Opt>, rest: seq<Token>)
    requires forall i | 0 <= i < |os| :: OptOk(td, os[i], true, false)
    ensures Reads(BlockSequence(td, SpellItems(os) + ([BlockEndToken] + rest), true),
                  ItemsEvents(td, os) + [SequenceEnd], rest)
    decreases os
  {
    hide BlockSequence, Node, Emit, Then, Reads, OptOk, Spell, EventsOf;
    var end := [BlockEndToken] + rest;
    if os == [] {
      ItemsGoOn(os, end);
      assert ItemsEvents(td, os) + [SequenceEnd] == [SequenceEnd];
      BlockItemsEnd(td, rest);
    } else {
      var more, fs := SpellItems(os[1..]) + end, ItemsEvents(td, os[1..]) + [SequenceEnd];
      var t := SpellOpt(os[0]) + more;
      BlockItemsRead(td, os[1..], rest);
      ItemsCons(td, os, end);
      ItemsGoOn(os[1..], end);
      hide SpellItems, ItemsEvents;
      if os[0].Absent? {
        assert t == more;
        ReadsEmit(EMPTY_SCALAR, BlockSequence(td, more, true), fs, rest);
      } else {
        OptReads(td, os[0], true, false, more, BlockSequence(td, more, true), fs, rest);
      }
      BlockItemStep(td, t);
    }
  }

  lemma ReadsEnd(td: seq<TagDirective>, toks: seq<Token>, e: Event, rest: seq<Token>)
    requires toks != [] && toks[1..] == rest
    ensures Reads(Out([e], toks[1..], true), [e], rest)
  {
  }

  /** A node, and what is read behind it. */
  lemma NodeThen(td: seq<TagDirective>, toks: seq<Token>, block: bool, indentless: bool, t: Derivation,
                 more: seq<Token>, o: Out, fs: seq<Event>, rest: seq<Token>)
    requires Reads(Node(td, toks, block, indentless, true), EventsOf(td, t), more) && Reads(o, fs, rest)
    ensures Node(td, toks, block, indentless, true).rest == more
    ensures Reads(Then(Node(td, toks, block, indentless, true), o), EventsOf(td, t) + fs, rest)
  {
    ReadsThen(Node(td, toks, block, indentless, true), EventsOf(td, t), more, o, fs, rest);
  }

  /** A node that is there, and what is read behind it. */
  lemma {:induction false} OptReads(td: seq<TagDirective>, x: Opt, block: bool, indentless: bool, more: seq<Token>,
                                    o: Out, fs: seq<Event>, rest: seq<Token>)
    requires x.Present? && OptOk(td, x, block, indentless) && more != [] && Delimits(more[0], indentless)
    requires Reads(o, fs, rest)
    ensures var t := SpellOpt(x) + more;
            && t != [] && !Delimits(t[0], indentless) && Node(td, t, block, indentless, true).rest == more
            && Reads(Then(Node(td, t, block, indentless, true), o), OptEvents(td, x) + fs, rest)
    decreases x, 1
  {
    hide Node, Then, Reads;
    BeginsTree(td, x.tree, block, indentless);
    NotBoth(Spell(x.tree)[0], block, indentless);
    NodeReads(td, x.tree, block, indentless, more);
    NodeThen(td, SpellOpt(x) + more, block, indentless, x.tree, more, o, fs, rest);
  }

  lemma IndentlessStep(td: seq<TagDirective>, t: seq<Token>)
    requires t != []
    ensures var rest := Node(td, t, true, false, true).rest;
            IndentlessSequence(td, [BlockEntryToken] + t, true) ==
            if t[0].BlockEntryToken? || EndsBlockEntry(t[0]) then Emit(EMPTY_SCALAR, IndentlessSequence(td, t, true))
            else Then(Node(td, t, true, false, true), IndentlessSequence(td, rest, true))
  {
    hide Node, Emit, Then;
    assert ([BlockEntryToken] + t)[1..] == t;
  }

  lemma IndentlessEnd(td: seq<TagDirective>, rest: seq<Token>)
    requires rest != [] && !rest[0].BlockEntryToken?
    ensures Reads(IndentlessSequence(td, rest, true), [SequenceEnd], rest)
  {
  }

  lemma {:induction false} IndentlessRead(td: seq<TagDirective>, os: seq<Opt>, rest: seq<Token>)
    requires (forall i | 0 <= i < |os| :: OptOk(td, os[i], true, false)) && rest != [] && Delimits(rest[0], true)
    ensures Reads(IndentlessSequence(td, SpellItems(os) + rest, true), ItemsEvents(td, os) + [SequenceEnd], rest)
    decreases os
  {
    hide IndentlessSequence, Node, Emit, Then, Reads, OptOk, Spell, EventsOf;
    if os == [] {
      ItemsGoOn(os, rest);
      assert ItemsEvents(td, os) + [SequenceEnd] == [SequenceEnd];
      IndentlessEnd(td, rest);
    } else {
      var more, fs := SpellItems(os[1..]) + rest, ItemsEvents(td, os[1..]) + [SequenceEnd];
      var t := SpellOpt(os[0]) + more;
      IndentlessRead(td, os[1..], rest);
      ItemsCons(td, os, rest);
      ItemsGoOn(os[1..], rest);
      hide SpellItems, ItemsEvents;
      if os[0].Absent? {
        assert t == more;
        ReadsEmit(EMPTY_SCALAR, IndentlessSequence(td, more, true), fs, rest);
      } else {
        OptReads(td, os[0], true, false, more, IndentlessSequence(td, more, true), fs, rest);
      }
      IndentlessStep(td, t);
    }
  }

  lemma BlockPairsEnd(td: seq<TagDirective>, rest: seq<Token>)
    ensures Reads(BlockMappingKey(td, [BlockEndToken] + rest, true), [MappingEnd], rest)
  {
    assert ([BlockEndToken] + rest)[1..] == rest;
  }

  lemma EntriesCons(td: seq<TagDirective>, es: seq<Entry>, end: seq<Token>)
    requires es != []
    ensures SpellEntries(es) + end == SpellEntry(es[0]) + (SpellEntries(es[1..]) + end)
    ensures EntriesEvents(td, es) + [MappingEnd] == PairEvents(td, es[0]) + (EntriesEvents(td, es[1..]) + [MappingEnd])
  {
    hide SpellEntry, PairEvents;
  }

  lemma {:induction false} BlockPairsRead(td: seq<TagDirective>, es: seq<Entry>, rest: seq<Token>)
    requires forall i | 0 <= i < |es| :: BlockEntryOk(td, es[i])
    requires forall i | 0 <= i < |es| - 1 :: Longest(es[i], es[i + 1])
    ensures Reads(BlockMappingKey(td, SpellEntries(es) + ([BlockEndToken] + rest), true),
                  EntriesEvents(td, es) + [MappingEnd], rest)
    decreases es, 0
  {
    hide Reads, BlockMappingKey, PairEvents, SpellEntry;
    var end := [BlockEndToken] + rest;
    if es == [] {
      assert SpellEntries(es) + end == end && EntriesEvents(td, es) + [MappingEnd] == [MappingEnd];
      BlockPairsEnd(td, rest);
    } else {
      var more, fs := SpellEntries(es[1..]) + end, EntriesEvents(td, es[1..]) + [MappingEnd];
      assert forall i | 0 <= i < |es| - 1 :: es[1..][i] == es[i + 1];
      BlockPairsRead(td, es[1..], rest);
      EntriesCons(td, es, end);
      MoreStarts(td, es[1..], end);
      assert BlockEntryOk(td, es[0]) && (|es| > 1 ==> Longest(es[0], es[1]));
      hide SpellEntries, EntriesEvents;
      if es[0].Unkeyed? {
        UnkeyedReads(td, es[0], more, fs, rest);
      } else {
        KeyedReads(td, es[0], more, fs, rest);
      }
    }
  }

  lemma MoreStarts(td: seq<TagDirective>, es: seq<Entry>, end: seq<Token>)
    requires (forall i | 0 <= i < |es| :: BlockEntryOk(td, es[i])) && end != [] && end[0].BlockEndToken?
    ensures var more := SpellEntries(es) + end;
            && more != [] && EndsBlockEntry(more[0])
            && (more[0].ValueToken? ==> es != [] && es[0].Unkeyed?)
  {
    if es != [] { assert BlockEntryOk(td, es[0]); }
  }

  lemma {:induction false} UnkeyedReads(td: seq<TagDirective>, e: Entry, more: seq<Token>, fs: seq<Event>,
                                        rest: seq<Token>)
    requires e.Unkeyed? && BlockEntryOk(td, e) && more != [] && EndsBlockEntry(more[0])
    requires Reads(BlockMappingKey(td, more, true), fs, rest)
    ensures Reads(BlockMappingKey(td, SpellEntry(e) + more, true), PairEvents(td, e) + fs, rest)
    decreases e
  {
    hide Emit, Then, Reads, BlockMappingValue;
    var toks := SpellEntry(e) + more;
    assert toks == [ValueToken] + SpellOpt(e.value) + more && toks[0] == ValueToken;
    ColonReads(td, e.value, more, fs, rest);
    ReadsEmit(EMPTY_SCALAR, BlockMappingValue(td, toks, true), OptEvents(td, e.value) + fs, rest);
    assert [EMPTY_SCALAR] + (OptEvents(td, e.value) + fs) == PairEvents(td, e) + fs;
    OddReads(Emit(EMPTY_SCALAR, BlockMappingValue(td, toks, true)), PairEvents(td, e) + fs, rest);
  }

  lemma OddReads(o: Out, es: seq<Event>, rest: seq<Token>)
    requires Reads(o, es, rest)
    ensures forall odd :: Reads(o.(odd := odd), es, rest)
  {
  }

  lemma BlockValueStep(td: seq<TagDirective>, t: seq<Token>)
    requires t != []
    ensures BlockMappingValue(td, [ValueToken] + t, true) ==
            if EndsBlockEntry(t[0]) then Emit(EMPTY_SCALAR, BlockMappingKey(td, t, true))
            else Then(Node(td, t, true, true, true), BlockMappingKey(td, Node(td, t, true, true, true).rest, true))
  {
    hide Node, BlockMappingKey, Emit, Then;
    assert ([ValueToken] + t)[1..] == t;
  }

  /** The value of an entry of a block mapping, from its VALUE on. */
  lemma {:induction false} ColonReads(td: seq<TagDirective>, value: Opt, more: seq<Token>, fs: seq<Event>,
                                      rest: seq<Token>)
    requires OptOk(td, value, true, true) && more != [] && EndsBlockEntry(more[0])
    requires Reads(BlockMappingKey(td, more, true), fs, rest)
    ensures Reads(BlockMappingValue(td, [ValueToken] + SpellOpt(value) + more, true), OptEvents(td, value) + fs, rest)
    decreases value, 2
  {
    hide Emit, Then, Reads, BlockMappingKey, BlockMappingValue, Node, TreeOk, OptOk, Spell, EventsOf;
    var t := SpellOpt(value) + more;
    assert [ValueToken] + SpellOpt(value) + more == [ValueToken] + t;
    if value.Absent? {
      assert t == more;
      BlockValueStep(td, t);
      ReadsEmit(EMPTY_SCALAR, BlockMappingKey(td, more, true), fs, rest);
    } else {
      OptReads(td, value, true, true, more, BlockMappingKey(td, more, true), fs, rest);
      BlockValueStep(td, t);
    }
  }

  lemma KeyedEvents(td: seq<TagDirective>, e: Entry, fs: seq<Event>)
    requires e.Keyed?
    ensures PairEvents(td, e) + fs == OptEvents(td, e.key) + (ColonEvents(td, e.colon) + fs)
  {
    hide OptEvents, ColonEvents;
  }

  lemma BlockKeyStep(td: seq<TagDirective>, t: seq<Token>)
    requires t != []
    ensures BlockMappingKey(td, [KeyToken] + t, true) ==
            if EndsBlockEntry(t[0]) then Emit(EMPTY_SCALAR, BlockMappingValue(td, t, true))
            else Then(Node(td, t, true, true, true), BlockMappingValue(td, Node(td, t, true, true, true).rest, true))
  {
    hide Node, BlockMappingValue, Emit, Then;
    assert ([KeyToken] + t)[1..] == t;
  }

  lemma {:induction false} KeyedReads(td: seq<TagDirective>, e: Entry, more: seq<Token>, fs: seq<Event>,
                                      rest: seq<Token>)
    requires e.Keyed? && BlockEntryOk(td, e) && more != [] && EndsBlockEntry(more[0])
    requires e.colon.NoColon? ==> !more[0].ValueToken?
    requires Reads(BlockMappingKey(td, more, true), fs, rest)
    ensures Reads(BlockMappingKey(td, SpellEntry(e) + more, true), PairEvents(td, e) + fs, rest)
    decreases e
  {
    hide Emit, Then, Reads, Node, BlockMappingValue, BlockMappingKey, TreeOk, OptOk, ColonOk, Spell, EventsOf;
    hide SpellColon;
    var key, mid, gs := e.key, SpellColon(e.colon) + more, ColonEvents(td, e.colon) + fs;
    var toks, t := SpellEntry(e) + more, SpellOpt(key) + mid;
    assert toks == [KeyToken] + t;
    BlockKeyStep(td, t);
    ValueReads(td, e.colon, more, fs, rest);
    MidStarts(e.colon, more);
    KeyedEvents(td, e, fs);
    if key.Absent? {
      assert t == mid;
      ReadsEmit(EMPTY_SCALAR, BlockMappingValue(td, mid, true), gs, rest);
    } else {
      OptReads(td, key, true, true, mid, BlockMappingValue(td, mid, true), gs, rest);
    }
  }

  lemma {:induction false} ValueReads(td: seq<TagDirective>, colon: Colon, more: seq<Token>, fs: seq<Event>,
                                      rest: seq<Token>)
    requires ColonOk(td, colon, true) && more != [] && EndsBlockEntry(more[0])
    requires colon.NoColon? ==> !more[0].ValueToken?
    requires Reads(BlockMappingKey(td, more, true), fs, rest)
    ensures Reads(BlockMappingValue(td, SpellColon(colon) + more, true), ColonEvents(td, colon) + fs, rest)
    decreases colon
  {
    hide Reads, Emit, BlockMappingKey;
    var mid := SpellColon(colon) + more;
    if colon.NoColon? {
      assert mid == more;
      ReadsEmit(EMPTY_SCALAR, BlockMappingKey(td, more, true), fs, rest);
    } else {
      assert mid == [ValueToken] + SpellOpt(colon.value) + more;
      ColonReads(td, colon.value, more, fs, rest);
    }
  }

  // ---------------------------------------------------------------- flow collections

  /** What comes behind an entry of a flow collection. */
  function FlowTail(es: seq<Entry>, comma: bool, end: seq<Token>): seq<Token> {
    (if es == [] then [] else [FlowEntryToken] + SpellFlow(es)) + Comma(comma) + end
  }

  lemma FlowSplit(es: seq<Entry>, comma: bool, end: seq<Token>)
    requires es != []
    ensures SpellFlow(es) + Comma(comma) + end == SpellEntry(es[0]) + FlowTail(es[1..], comma, end)
  {
    if |es| == 1 {
      assert SpellEntry(es[0]) + Comma(comma) + end == SpellEntry(es[0]) + ([] + Comma(comma) + end);
    } else {
      assert SpellEntry(es[0]) + [FlowEntryToken] + SpellFlow(es[1..]) + Comma(comma) + end ==
             SpellEntry(es[0]) + ([FlowEntryToken] + SpellFlow(es[1..]) + Comma(comma) + end);
    }
  }

  lemma FlowTailMore(es: seq<Entry>, comma: bool, end: seq<Token>)
    requires es != []
    ensures FlowTail(es, comma, end) == [FlowEntryToken] + (SpellFlow(es) + Comma(comma) + end)
  {
  }

  lemma FlowTailLast(comma: bool, end: seq<Token>)
    ensures FlowTail([], comma, end) == if comma then [FlowEntryToken] + end else end
  {
  }

  lemma BeginsEntry(td: seq<TagDirective>, e: Entry)
    requires FlowEntryOk(td, e)
    ensures SpellEntry(e) != [] && (SpellEntry(e)[0].KeyToken? || Begins(SpellEntry(e)[0], false, false))
    ensures SpellEntry(e)[0].KeyToken? <==> e.Keyed?
  {
    if e.Lone? { BeginsTree(td, e.tree, false, false); }
  }

  lemma {:induction false} FlowItemsRead(td: seq<TagDirective>, es: seq<Entry>, comma: bool, rest: seq<Token>)
    requires (forall i | 0 <= i < |es| :: FlowEntryOk(td, es[i])) && (comma ==> es != [])
    ensures Reads(FlowSequence(td, true, SpellFlow(es) + Comma(comma) + ([FlowSequenceEndToken] + rest), true),
                  FlowEvents(td, es, true) + [SequenceEnd], rest)
    decreases es, 1
  {
    hide Reads, FlowSequenceEntry, FlowEntryOk, SpellEntry, FlowEntryEvents;
    var end := [FlowSequenceEndToken] + rest;
    var toks := SpellFlow(es) + Comma(comma) + end;
    if es == [] {
      assert toks == end && FlowEvents(td, es, true) + [SequenceEnd] == [SequenceEnd];
      ReadsEnd(td, end, SequenceEnd, rest);
    } else {
      ItemsRead(td, es, comma, rest);
      FlowSplit(es, comma, end);
      BeginsEntry(td, es[0]);
      assert toks[0] == SpellEntry(es[0])[0];
    }
  }

  /** From an entry on. */
  lemma {:induction false} ItemsRead(td: seq<TagDirective>, es: seq<Entry>, comma: bool, rest: seq<Token>)
    requires (forall i | 0 <= i < |es| :: FlowEntryOk(td, es[i])) && es != []
    ensures SpellFlow(es) + Comma(comma) + ([FlowSequenceEndToken] + rest) != []
    ensures Reads(FlowSequenceEntry(td, SpellFlow(es) + Comma(comma) + ([FlowSequenceEndToken] + rest), true),
                  FlowEvents(td, es, true) + [SequenceEnd], rest)
    decreases es, 0
  {
    hide Reads, FlowSequenceEntry, FlowEntryOk, SpellEntry, FlowEntryEvents;
    var end := [FlowSequenceEndToken] + rest;
    var tail := FlowTail(es[1..], comma, end);
    var fs := FlowEvents(td, es[1..], true) + [SequenceEnd];
    FlowSplit(es, comma, end);
    BeginsEntry(td, es[0]);
    if |es| == 1 {
      FlowTailLast(comma, end);
      assert es[1..] == [] && fs == [SequenceEnd];
      if comma { assert tail[1..] == end; }
      ReadsEnd(td, end, SequenceEnd, rest);
    } else {
      var more := SpellFlow(es[1..]) + Comma(comma) + end;
      FlowTailMore(es[1..], comma, end);
      assert tail[1..] == more && tail[0] == FlowEntryToken;
      ItemsRead(td, es[1..], comma, rest);
      FlowSplit(es[1..], comma, end);
      BeginsEntry(td, es[1]);
      assert more[0] == SpellEntry(es[1])[0];
    }
    assert Reads(FlowSequence(td, false, tail, true), fs, rest);
    ItemReads(td, es[0], tail, fs, rest);
    assert FlowEntryEvents(td, es[0], true) + fs == FlowEvents(td, es, true) + [SequenceEnd];
  }

  lemma {:induction false} ItemReads(td: seq<TagDirective>, e: Entry, tail: seq<Token>, fs: seq<Event>,
                                     rest: seq<Token>)
    requires FlowEntryOk(td, e) && tail != [] && EndsPair(tail[0])
    requires Reads(FlowSequence(td, false, tail, true), fs, rest)
    ensures SpellEntry(e) + tail != []
    ensures Reads(FlowSequenceEntry(td, SpellEntry(e) + tail, true), FlowEntryEvents(td, e, true) + fs, rest)
    decreases e, 3
  {
    hide Reads, FlowSequence, Node, Emit, Then, PairKey, TreeOk, Spell, EventsOf;
    var toks := SpellEntry(e) + tail;
    BeginsEntry(td, e);
    assert toks[0] == SpellEntry(e)[0];
    if e.Lone? {
      NodeReads(td, e.tree, false, false, tail);
      NodeThen(td, toks, false, false, e.tree, tail, FlowSequence(td, false, tail, true), fs, rest);
    } else {
      var t := SpellOpt(e.key) + (SpellColon(e.colon) + tail);
      assert toks[1..] == t;
      PairReads(td, e, tail, fs, rest);
      var gs := PairEvents(td, e) + ([MappingEnd] + fs);
      ReadsEmit(MappingStart(None, "", true, true), PairKey(td, t, true), gs, rest);
      assert [MappingStart(None, "", true, true)] + gs == FlowEntryEvents(td, e, true) + fs;
    }
  }

  lemma {:induction false} PairReads(td: seq<TagDirective>, e: Entry, tail: seq<Token>, fs: seq<Event>,
                                     rest: seq<Token>)
    requires e.Keyed? && FlowEntryOk(td, e) && tail != [] && EndsPair(tail[0])
    requires Reads(FlowSequence(td, false, tail, true), fs, rest)
    ensures Reads(PairKey(td, SpellOpt(e.key) + (SpellColon(e.colon) + tail), true),
                  PairEvents(td, e) + ([MappingEnd] + fs), rest)
    decreases e, 2
  {
    hide Reads, FlowSequence, Node, Emit, Then, PairValue, Harmless, TreeOk, Spell, EventsOf;
    var key, mid, gs := e.key, SpellColon(e.colon) + tail, ColonEvents(td, e.colon) + ([MappingEnd] + fs);
    var toks := SpellOpt(key) + mid;
    PairValueReads(td, e.colon, tail, fs, rest);
    KeyedEvents(td, e, [MappingEnd] + fs);
    MidStarts(e.colon, tail);
    if key.Absent? {
      assert toks == mid;
      ReadsEmit(EMPTY_SCALAR, PairValue(td, mid, true), gs, rest);
      OddReads(Emit(EMPTY_SCALAR, PairValue(td, mid, true)), [EMPTY_SCALAR] + gs, rest);
    } else {
      OptReads(td, key, false, false, mid, PairValue(td, mid, true), gs, rest);
    }
  }

  lemma MidStarts(colon: Colon, tail: seq<Token>)
    requires tail != []
    ensures var mid := SpellColon(colon) + tail;
            mid != [] && mid[0] == if colon.NoColon? then tail[0] else ValueToken
  {
  }

  lemma {:induction false} PairValueReads(td: seq<TagDirective>, colon: Colon, tail: seq<Token>, fs: seq<Event>,
                                          rest: seq<Token>)
    requires ColonOk(td, colon, false) && tail != [] && EndsPair(tail[0])
    requires Reads(FlowSequence(td, false, tail, true), fs, rest)
    ensures Reads(PairValue(td, SpellColon(colon) + tail, true), ColonEvents(td, colon) + ([MappingEnd] + fs), rest)
    decreases colon, 1
  {
    hide Reads, FlowSequence, Node, Emit, Then, TreeOk, Spell, EventsOf;
    var mid := SpellColon(colon) + tail;
    var gs := [MappingEnd] + fs;
    ReadsEmit(MappingEnd, FlowSequence(td, false, tail, true), fs, rest);
    assert Reads(PairEnd(td, tail, true), gs, rest);
    hide PairEnd;
    ReadsEmit(EMPTY_SCALAR, PairEnd(td, tail, true), gs, rest);
    if colon.NoColon? {
      assert mid == tail;
    } else {
      var t := SpellOpt(colon.value) + tail;
      assert mid == [ValueToken] + t && mid[1..] == t && mid[0] == ValueToken;
      if colon.value.Absent? {
        assert t == tail;
      } else {
        OptReads(td, colon.value, false, false, tail, PairEnd(td, tail, true), gs, rest);
      }
    }
  }

  lemma {:induction false} FlowPairsRead(td: seq<TagDirective>, es: seq<Entry>, comma: bool, rest: seq<Token>)
    requires (forall i | 0 <= i < |es| :: FlowEntryOk(td, es[i])) && (comma ==> es != [])
    ensures Reads(FlowMappingKey(td, true, SpellFlow(es) + Comma(comma) + ([FlowMappingEndToken] + rest), true),
                  FlowEvents(td, es, false) + [MappingEnd], rest)
    decreases es, 1
  {
    hide Reads, FlowMappingEntry, FlowEntryOk, SpellEntry, PairEvents;
    var end := [FlowMappingEndToken] + rest;
    var toks := SpellFlow(es) + Comma(comma) + end;
    if es == [] {
      assert toks == end && FlowEvents(td, es, false) + [MappingEnd] == [MappingEnd];
      ReadsEnd(td, end, MappingEnd, rest);
    } else {
      PairsRead(td, es, comma, rest);
      FlowSplit(es, comma, end);
      BeginsEntry(td, es[0]);
      assert toks[0] == SpellEntry(es[0])[0];
    }
  }

  lemma {:induction false} PairsRead(td: seq<TagDirective>, es: seq<Entry>, comma: bool, rest: seq<Token>)
    requires (forall i | 0 <= i < |es| :: FlowEntryOk(td, es[i])) && es != []
    ensures SpellFlow(es) + Comma(comma) + ([FlowMappingEndToken] + rest) != []
    ensures Reads(FlowMappingEntry(td, SpellFlow(es) + Comma(comma) + ([FlowMappingEndToken] + rest), true),
                  FlowEvents(td, es, false) + [MappingEnd], rest)
    decreases es, 0
  {
    hide Reads, FlowMappingEntry, FlowEntryOk, SpellEntry, PairEvents;
    var end := [FlowMappingEndToken] + rest;
    var tail := FlowTail(es[1..], comma, end);
    var fs := FlowEvents(td, es[1..], false) + [MappingEnd];
    FlowSplit(es, comma, end);
    BeginsEntry(td, es[0]);
    if |es| == 1 {
      FlowTailLast(comma, end);
      assert es[1..] == [] && fs == [MappingEnd];
      if comma { assert tail[1..] == end; }
      ReadsEnd(td, end, MappingEnd, rest);
    } else {
      var more := SpellFlow(es[1..]) + Comma(comma) + end;
      FlowTailMore(es[1..], comma, end);
      assert tail[1..] == more && tail[0] == FlowEntryToken;
      PairsRead(td, es[1..], comma, rest);
      FlowSplit(es[1..], comma, end);
      BeginsEntry(td, es[1]);
      assert more[0] == SpellEntry(es[1])[0];
    }
    assert Reads(FlowMappingKey(td, false, tail, true), fs, rest);
    MapEntryReads(td, es[0], tail, fs, rest);
    assert FlowEntryEvents(td, es[0], false) + fs == FlowEvents(td, es, false) + [MappingEnd];
  }

  lemma {:induction false} MapEntryReads(td: seq<TagDirective>, e: Entry, tail: seq<Token>, fs: seq<Event>,
                                         rest: seq<Token>)
    requires FlowEntryOk(td, e) && tail != [] && EndsFlowEntry(tail[0])
    requires Reads(FlowMappingKey(td, false, tail, true), fs, rest)
    ensures SpellEntry(e) + tail != []
    ensures Reads(FlowMappingEntry(td, SpellEntry(e) + tail, true), PairEvents(td, e) + fs, rest)
    decreases e, 3
  {
    hide Reads, FlowMappingKey, Node, Emit, Then, TreeOk, Spell, EventsOf;
    var toks := SpellEntry(e) + tail;
    BeginsEntry(td, e);
    assert toks[0] == SpellEntry(e)[0];
    if e.Lone? {
      ReadsEmit(EMPTY_SCALAR, FlowMappingKey(td, false, tail, true), fs, rest);
      assert Reads(FlowMappingValue(td, true, tail, true), [EMPTY_SCALAR] + fs, rest);
      NodeReads(td, e.tree, false, false, tail);
      NodeThen(td, toks, false, false, e.tree, tail, FlowMappingValue(td, true, tail, true), [EMPTY_SCALAR] + fs, rest);
      assert PairEvents(td, e) + fs == EventsOf(td, e.tree) + ([EMPTY_SCALAR] + fs);
    } else {
      var mid := SpellColon(e.colon) + tail;
      var t, gs := SpellOpt(e.key) + mid, ColonEvents(td, e.colon) + fs;
      assert toks[1..] == t;
      MapValueReads(td, e.colon, tail, fs, rest);
      MidStarts(e.colon, tail);
      KeyedEvents(td, e, fs);
      hide FlowMappingValue;
      if e.key.Absent? {
        assert t == mid;
        ReadsEmit(EMPTY_SCALAR, FlowMappingValue(td, false, mid, true), gs, rest);
      } else {
        OptReads(td, e.key, false, false, mid, FlowMappingValue(td, false, mid, true), gs, rest);
      }
    }
  }

  lemma {:induction false} MapValueReads(td: seq<TagDirective>, colon: Colon, tail: seq<Token>, fs: seq<Event>,
                                         rest: seq<Token>)
    requires ColonOk(td, colon, false) && tail != [] && EndsFlowEntry(tail[0])
    requires Reads(FlowMappingKey(td, false, tail, true), fs, rest)
    ensures Reads(FlowMappingValue(td, false, SpellColon(colon) + tail, true), ColonEvents(td, colon) + fs, rest)
    decreases colon, 1
  {
    hide Reads, FlowMappingKey, Node, Emit, Then, TreeOk, Spell, EventsOf;
    var mid := SpellColon(colon) + tail;
    ReadsEmit(EMPTY_SCALAR, FlowMappingKey(td, false, tail, true), fs, rest);
    if colon.NoColon? {
      assert mid == tail;
    } else {
      var t := SpellOpt(colon.value) + tail;
      assert mid == [ValueToken] + t && mid[1..] == t && mid[0] == ValueToken;
      if colon.value.Absent? {
        assert t == tail;
      } else {
        OptReads(td, colon.value, false, false, tail, FlowMappingKey(td, false, tail, true), fs, rest);
      }
    }
  }
}
