/**
 What is in the tokens of a stream is in its events, in the same order and nothing else: scalars
 with their style, aliases, anchors, tags in full, directives, explicit ends of documents, and the beginnings of
 flow sequences and block mappings. Both lists are read for their data; that the lists are the same is
 proved for every token list.
 */
module YamlData {
  import opened Wrappers
  import opened YamlEvents
  import opened YamlTokens
  import opened YamlGrammar

  // ---------------------------------------------------------------- data of tokens

  datatype Datum =
    | TextDatum(text: string, style: ScalarStyle)
    | AliasDatum(name: string)
    | AnchorDatum(name: string)
    | TagDatum(tag: string)
    | VersionDatum(major: int, minor: int)
    | DirectiveDatum(handle: string, prefix: string)
    | SequenceDatum
    | MappingDatum
    | EndDatum

  /** Anchor and tag of a node come in either order, so each is read in a list of its own, with all the rest. */
  datatype Side = Anchors | Tags

  /** A plain scalar without text stands for an absent node. */
  predicate Absent(text: string, style: ScalarStyle) {
    text == "" && style == Plain
  }

  function TextData(text: string, style: ScalarStyle): seq<Datum> {
    if Absent(text, style) then [] else [TextDatum(text, style)]
  }

  /** Where the reading stands: behind the end of a document, in its directives, or in its content. */
  datatype Where = Behind | Heading | Within

  /** The place in the stream, and the tag directives of the document. */
  datatype Walk = Walk(place: Where, declared: seq<TagDirective>)

  const START := Walk(Heading, [])

  /** A new heading, unless the directives of this document are being read. */
  function Fresh(w: Walk): seq<TagDirective> {
    if w.place == Within then [] else w.declared
  }

  function After(w: Walk, t: Token): Walk {
    match t
    case VersionDirectiveToken(_, _) => Walk(Heading, Fresh(w))
    case TagDirectiveToken(handle, prefix) => Walk(Heading, Fresh(w) + [TagDirective(handle, prefix)])
    case DocumentStartToken => Walk(Within, Fresh(w))
    case DocumentEndToken => Walk(Behind, [])
    case _ => w
  }

  /** The prefix that a handle stands for: as declared, or as predefined. */
  function Prefix(declared: seq<TagDirective>, handle: string): string {
    if declared != [] then
      if declared[0].handle == handle then declared[0].prefix else Prefix(declared[1..], handle)
    else if handle == "!" then "!"
    else if handle == "!!" then "tag:yaml.org,2002:"
    else ""
  }

  /** A tag in full: as it stands if it has no handle, and otherwise behind its prefix. */
  function FullTag(declared: seq<TagDirective>, handle: string, suffix: string): string {
    if handle == "" then suffix else Prefix(declared, handle) + suffix
  }

  function TagData(tag: string): seq<Datum> {
    if tag == "" then [] else [TagDatum(tag)]
  }

  function TokenData(side: Side, w: Walk, t: Token): seq<Datum> {
    match t
    case ScalarToken(text, style) => TextData(text, style)
    case AliasToken(name) => [AliasDatum(name)]
    case AnchorToken(name) => if side == Anchors then [AnchorDatum(name)] else []
    case TagToken(handle, suffix) => if side == Tags then TagData(FullTag(w.declared, handle, suffix)) else []
    case VersionDirectiveToken(major, minor) => if side == Anchors then [VersionDatum(major, minor)] else []
    case TagDirectiveToken(handle, prefix) => if side == Tags then [DirectiveDatum(handle, prefix)] else []
    case FlowSequenceStartToken => [SequenceDatum]
    case BlockMappingStartToken => [MappingDatum]
    case DocumentEndToken => if w.place == Behind then [] else [EndDatum]
    case _ => []
  }

  /** The data of the tokens up to the end of the stream. */
  function Data(side: Side, w: Walk, toks: seq<Token>): seq<Datum>
    decreases |toks|
  {
    if toks == [] || toks[0].StreamEndToken? then []
    else TokenData(side, w, toks[0]) + Data(side, After(w, toks[0]), toks[1..])
  }

  /** The tokens behind the end of the stream. */
  function BehindStream(toks: seq<Token>): seq<Token> {
    if toks == [] then [] else if toks[0].StreamEndToken? then toks[1..] else BehindStream(toks[1..])
  }

  // ---------------------------------------------------------------- data of events

  function PropertyData(side: Side, anchor: Option<string>, tag: string): seq<Datum> {
    if side == Tags then TagData(tag) else if anchor.Some? then [AnchorDatum(anchor.value)] else []
  }

  function VersionData(version: Option<Version>): seq<Datum> {
    match version case None => [] case Some(Version(major, minor)) => [VersionDatum(major, minor)]
  }

  function DirectiveData(ds: seq<TagDirective>): seq<Datum> {
    if ds == [] then [] else [DirectiveDatum(ds[0].handle, ds[0].prefix)] + DirectiveData(ds[1..])
  }

  function EventData(side: Side, e: Event): seq<Datum> {
    match e
    case Scalar(anchor, tag, text, _, _, style) => PropertyData(side, anchor, tag) + TextData(text, style)
    case Alias(name) => [AliasDatum(name)]
    case SequenceStart(anchor, tag, _, flow) =>
      PropertyData(side, anchor, tag) + if flow then [SequenceDatum] else []
    case MappingStart(anchor, tag, _, flow) =>
      PropertyData(side, anchor, tag) + if flow then [] else [MappingDatum]
    case DocumentStart(version, directives, _) =>
      if side == Anchors then VersionData(version) else DirectiveData(directives)
    case DocumentEnd(implicit) => if implicit then [] else [EndDatum]
    case _ => []
  }

  function EventsData(side: Side, es: seq<Event>): seq<Datum> {
    if es == [] then [] else EventData(side, es[0]) + EventsData(side, es[1..])
  }

  /** The flags that say how a tag was found follow from the tag and the style. */
  predicate FlagsOk(e: Event) {
    match e
    case Scalar(_, tag, text, implicit, quotedImplicit, style) =>
      && (quotedImplicit <==> tag == "" && style != Plain)
      && (tag == "" && style == Plain ==> implicit)
      && (tag == "!" && !Absent(text, style) ==> implicit)
      && (implicit ==> (tag == "" && style == Plain) || tag == "!")
    case SequenceStart(_, tag, implicit, _) => implicit <==> tag == ""
    case MappingStart(_, tag, implicit, _) => implicit <==> tag == ""
    case _ => true
  }

  predicate AllFlagsOk(es: seq<Event>) {
    forall i | 0 <= i < |es| :: FlagsOk(es[i])
  }

  // ---------------------------------------------------------------- one production

  lemma EventsCons(side: Side, e: Event, es: seq<Event>)
    ensures EventsData(side, [e] + es) == EventData(side, e) + EventsData(side, es)
  {
    assert ([e] + es)[1..] == es;
  }

  lemma EventsOne(side: Side, e: Event)
    ensures EventsData(side, [e]) == EventData(side, e)
  {
    EventsCons(side, e, []);
    assert [e] + [] == [e];
  }

  lemma {:induction false} EventsAppend(side: Side, a: seq<Event>, b: seq<Event>)
    ensures EventsData(side, a + b) == EventsData(side, a) + EventsData(side, b)
    decreases |a|
  {
    hide EventData;
    if a == [] {
      assert a + b == b;
    } else {
      var first, more := EventData(side, a[0]), a[1..];
      EventsAppend(side, more, b);
      assert a + b == [a[0]] + (more + b);
      EventsCons(side, a[0], more + b);
      assert first + (EventsData(side, more) + EventsData(side, b)) ==
             first + EventsData(side, more) + EventsData(side, b);
    }
  }

  /** The events carry a first part of the data; if the production is complete, all the data of the tokens it takes. */
  predicate Carries(side: Side, w: Walk, toks: seq<Token>, o: Out) {
    && AllFlagsOk(o.events) && EventsData(side, o.events) <= Data(side, w, toks)
    && (o.ok ==>
          && Data(side, w, toks) == EventsData(side, o.events) + Data(side, w, o.rest)
          && BehindStream(toks) == BehindStream(o.rest))
  }

  lemma CarriesFail(side: Side, w: Walk, toks: seq<Token>)
    ensures Carries(side, w, toks, FAIL)
  {
  }

  /** Between `toks` and `rest` is just this datum, or none. */
  predicate Between(side: Side, w: Walk, toks: seq<Token>, data: seq<Datum>, rest: seq<Token>) {
    Data(side, w, toks) == data + Data(side, w, rest) && BehindStream(toks) == BehindStream(rest)
  }

  lemma CarriesOne(side: Side, w: Walk, toks: seq<Token>, e: Event, rest: seq<Token>)
    requires Between(side, w, toks, EventData(side, e), rest) && FlagsOk(e)
    ensures Carries(side, w, toks, Out([e], rest, true))
  {
    EventsOne(side, e);
  }

  lemma CarriesEmit(side: Side, w: Walk, toks: seq<Token>, e: Event, rest: seq<Token>, o: Out)
    requires Between(side, w, toks, EventData(side, e), rest) && FlagsOk(e) && Carries(side, w, rest, o)
    ensures Carries(side, w, toks, Emit(e, o))
  {
    hide Data, EventData, BehindStream, FlagsOk;
    EventsCons(side, e, o.events);
    var data := EventData(side, e);
    PrefixBehind(data, EventsData(side, o.events), Data(side, w, rest));
    if o.ok {
      assert data + (EventsData(side, o.events) + Data(side, w, o.rest)) ==
             data + EventsData(side, o.events) + Data(side, w, o.rest);
    }
    forall i | 0 <= i < |Emit(e, o).events| ensures FlagsOk(Emit(e, o).events[i]) {
      if i > 0 { assert Emit(e, o).events[i] == o.events[i - 1]; }
    }
  }

  lemma PrefixBehind<T>(a: seq<T>, b: seq<T>, c: seq<T>)
    requires b <= c
    ensures a + b <= a + c
  {
  }

  lemma CarriesThen(side: Side, w: Walk, toks: seq<Token>, a: Out, b: Out)
    requires Carries(side, w, toks, a) && Carries(side, w, a.rest, b)
    ensures Carries(side, w, toks, Then(a, b))
  {
    hide Data, EventData, BehindStream, FlagsOk;
    if a.ok {
      EventsAppend(side, a.events, b.events);
      var first := EventsData(side, a.events);
      PrefixBehind(first, EventsData(side, b.events), Data(side, w, a.rest));
      if b.ok {
        assert first + (EventsData(side, b.events) + Data(side, w, b.rest)) ==
               first + EventsData(side, b.events) + Data(side, w, b.rest);
      }
    }
  }

  /** Tokens that only give the structure. */
  predicate Bare(t: Token) {
    || t.BlockSequenceStartToken? || t.BlockEndToken? || t.FlowSequenceEndToken? || t.FlowMappingStartToken?
    || t.FlowMappingEndToken? || t.BlockEntryToken? || t.FlowEntryToken? || t.KeyToken? || t.ValueToken?
  }

  lemma BareTake(side: Side, w: Walk, toks: seq<Token>)
    requires toks != [] && Bare(toks[0])
    ensures Between(side, w, toks, [], toks[1..])
  {
    assert TokenData(side, w, toks[0]) == [] && After(w, toks[0]) == w;
    hide TokenData, After, Bare;
  }

  lemma BetweenNothing(side: Side, w: Walk, toks: seq<Token>)
    ensures Between(side, w, toks, [], toks)
  {
  }

  lemma CarriesBehind(side: Side, w: Walk, toks: seq<Token>, rest: seq<Token>, o: Out)
    requires Between(side, w, toks, [], rest) && Carries(side, w, rest, o)
    ensures Carries(side, w, toks, o)
  {
    hide EventsData, Data, BehindStream;
  }

  // ---------------------------------------------------------------- nodes

  /** The directives in force, as the parser keeps them. */
  function Known(w: Walk): seq<TagDirective> {
    WithDefaults(w.declared)
  }

  lemma {:induction false} FindBefore(td: seq<TagDirective>, d: TagDirective, handle: string)
    ensures FindHandle(td + [d], handle) ==
            if FindHandle(td, handle).Some? then FindHandle(td, handle)
            else if d.handle == handle then Some(d.prefix)
            else None
    decreases |td|
  {
    if td != [] {
      assert (td + [d])[0] == td[0] && (td + [d])[1..] == td[1..] + [d];
      FindBefore(td[1..], d, handle);
    }
  }

  lemma {:induction false} PrefixFound(declared: seq<TagDirective>, handle: string)
    ensures FindHandle(declared, handle).Some? ==> Prefix(declared, handle) == FindHandle(declared, handle).value
    ensures FindHandle(declared, handle).None? ==> Prefix(declared, handle) == Prefix([], handle)
    decreases |declared|
  {
    if declared != [] { PrefixFound(declared[1..], handle); }
  }

  lemma KnownPrefix(declared: seq<TagDirective>, handle: string)
    ensures FindHandle(WithDefaults(declared), handle).Some? ==>
              FindHandle(WithDefaults(declared), handle).value == Prefix(declared, handle)
  {
    hide FindHandle, Prefix;
    var more := AddMissing(declared, DEFAULT_DIRECTIVES[0]);
    PrefixFound(declared, handle);
    FindBefore(declared, DEFAULT_DIRECTIVES[0], handle);
    FindBefore(more, DEFAULT_DIRECTIVES[1], handle);
    Predefined(handle);
  }

  lemma Predefined(handle: string)
    ensures Prefix([], handle) == if handle == "!" then "!" else if handle == "!!" then "tag:yaml.org,2002:" else ""
  {
  }

  lemma TagInFull(declared: seq<TagDirective>, handle: string, suffix: string)
    ensures var tag := ResolveTag(WithDefaults(declared), Some(TagDirective(handle, suffix)));
            tag.Some? ==> tag.value == FullTag(declared, handle, suffix)
  {
    hide FindHandle, WithDefaults, Prefix;
    KnownPrefix(declared, handle);
  }

  lemma PropertiesBetween(side: Side, w: Walk, toks: seq<Token>)
    requires ResolveTag(Known(w), Properties(toks).tag).Some?
    ensures var p := Properties(toks);
            Between(side, w, toks, PropertyData(side, p.anchor, ResolveTag(Known(w), p.tag).value), p.rest)
  {
    hide ResolveTag, FullTag, WithDefaults;
    var p := Properties(toks);
    if p.tag.Some? {
      TagInFull(w.declared, p.tag.value.handle, p.tag.value.prefix);
    } else {
      NoTag(w);
    }
    if toks != [] && (toks[0].AnchorToken? || toks[0].TagToken?) {
      FirstToken(side, w, toks);
      if |toks| > 1 && (toks[1].AnchorToken? || toks[1].TagToken?) { FirstToken(side, w, toks[1..]); }
    }
  }

  lemma NoTag(w: Walk)
    ensures ResolveTag(Known(w), None) == Some("")
  {
  }

  lemma FirstToken(side: Side, w: Walk, toks: seq<Token>)
    requires toks != [] && !toks[0].StreamEndToken? && After(w, toks[0]) == w
    ensures Between(side, w, toks, TokenData(side, w, toks[0]), toks[1..])
  {
  }

  lemma BetweenBoth(side: Side, w: Walk, a: seq<Token>, x: seq<Datum>, b: seq<Token>, y: seq<Datum>, c: seq<Token>)
    requires Between(side, w, a, x, b) && Between(side, w, b, y, c)
    ensures Between(side, w, a, x + y, c)
  {
    hide Data, BehindStream;
    assert x + (y + Data(side, w, c)) == x + y + Data(side, w, c);
  }

  lemma {:induction false} NodeCarries(side: Side, w: Walk, toks: seq<Token>, block: bool, indentless: bool)
    ensures Carries(side, w, toks, Node(Known(w), toks, block, indentless))
    decreases |toks|, 2
  {
    hide Carries, Content, ResolveTag, WithDefaults;
    CarriesFail(side, w, toks);
    if toks != [] {
      if toks[0].AliasToken? {
        FirstToken(side, w, toks);
        CarriesOne(side, w, toks, Alias(toks[0].name), toks[1..]);
      } else {
        var p := Properties(toks);
        var tag := ResolveTag(Known(w), p.tag);
        if p.rest != [] && tag.Some? {
          PropertiesBetween(side, w, toks);
          ContentCarries(side, w, toks, p.anchor, tag.value, p.rest, block, indentless);
        }
      }
    }
  }

  lemma {:induction false} ContentCarries(side: Side, w: Walk, whole: seq<Token>, anchor: Option<string>, tag: string,
                                          toks: seq<Token>, block: bool, indentless: bool)
    requires toks != [] && Between(side, w, whole, PropertyData(side, anchor, tag), toks)
    ensures Carries(side, w, whole, Content(Known(w), anchor, tag, toks, block, indentless))
    decreases |toks|, 1, 1
  {
    hide Carries, Between, IndentlessSequence, FlowSequence, FlowMappingKey, BlockSequence, BlockMappingKey;
    hide PropertyData, WithDefaults, TextData, Absent;
    var t := toks[0];
    CarriesFail(side, w, whole);
    if t.ScalarToken? {
      FirstToken(side, w, toks);
      BetweenBoth(side, w, whole, PropertyData(side, anchor, tag), toks, TokenData(side, w, t), toks[1..]);
      CarriesOne(side, w, whole, ScalarEvent(anchor, tag, t), toks[1..]);
    } else if StartsCollection(t, block, indentless) {
      CollectionCarries(side, w, whole, anchor, tag, toks, block, indentless);
    } else if NonEmpty(anchor) || tag != "" {
      AbsentText(side, anchor, tag);
      CarriesOne(side, w, whole, Scalar(anchor, tag, "", tag == "", false, Plain), toks);
    }
  }

  lemma AbsentText(side: Side, anchor: Option<string>, tag: string)
    ensures EventData(side, Scalar(anchor, tag, "", tag == "", false, Plain)) == PropertyData(side, anchor, tag)
    ensures FlagsOk(Scalar(anchor, tag, "", tag == "", false, Plain))
  {
  }

  lemma {:induction false} CollectionCarries(side: Side, w: Walk, whole: seq<Token>, anchor: Option<string>,
                                             tag: string, toks: seq<Token>, block: bool, indentless: bool)
    requires toks != [] && Between(side, w, whole, PropertyData(side, anchor, tag), toks)
    requires StartsCollection(toks[0], block, indentless)
    ensures Carries(side, w, whole, Content(Known(w), anchor, tag, toks, block, indentless))
    decreases |toks|, 1, 0
  {
    hide Carries, Between, IndentlessSequence, FlowSequence, FlowMappingKey, BlockSequence, BlockMappingKey;
    hide PropertyData, WithDefaults, Emit;
    var t, rest, implicit, data := toks[0], toks[1..], tag == "", PropertyData(side, anchor, tag);
    if indentless && t.BlockEntryToken? {
      IndentlessCarries(side, w, toks);
      assert data + [] == data;
      CarriesEmit(side, w, whole, SequenceStart(anchor, tag, implicit, false), toks,
                  IndentlessSequence(Known(w), toks));
    } else {
      FirstToken(side, w, toks);
      BetweenBoth(side, w, whole, data, toks, TokenData(side, w, t), rest);
      if t.FlowSequenceStartToken? {
        FlowSequenceCarries(side, w, true, rest);
        CarriesEmit(side, w, whole, SequenceStart(anchor, tag, implicit, true), rest,
                    FlowSequence(Known(w), true, rest));
      } else if t.FlowMappingStartToken? {
        FlowMappingCarries(side, w, true, rest);
        CarriesEmit(side, w, whole, MappingStart(anchor, tag, implicit, true), rest,
                    FlowMappingKey(Known(w), true, rest));
      } else if block && t.BlockSequenceStartToken? {
        BlockSequenceCarries(side, w, rest);
        CarriesEmit(side, w, whole, SequenceStart(anchor, tag, implicit, false), rest, BlockSequence(Known(w), rest));
      } else {
        BlockKeyCarries(side, w, rest);
        CarriesEmit(side, w, whole, MappingStart(anchor, tag, implicit, false), rest, BlockMappingKey(Known(w), rest));
      }
    }
  }

  lemma EmptyEmit(side: Side, w: Walk, toks: seq<Token>, o: Out)
    requires Carries(side, w, toks, o)
    ensures Carries(side, w, toks, Emit(EMPTY_SCALAR, o))
  {
    hide Carries;
    BetweenNothing(side, w, toks);
    CarriesEmit(side, w, toks, EMPTY_SCALAR, toks, o);
  }

  /** The end of a collection, with or without a token. */
  lemma EndOne(side: Side, w: Walk, toks: seq<Token>, e: Event, rest: seq<Token>)
    requires (e.SequenceEnd? || e.MappingEnd?) && (rest == toks || (toks != [] && Bare(toks[0]) && rest == toks[1..]))
    ensures Carries(side, w, toks, Out([e], rest, true))
  {
    hide Carries;
    BetweenNothing(side, w, toks);
    if rest != toks { BareTake(side, w, toks); }
    CarriesOne(side, w, toks, e, rest);
  }

  lemma Behind1(side: Side, w: Walk, toks: seq<Token>, o: Out)
    requires toks != [] && Bare(toks[0]) && Carries(side, w, toks[1..], o)
    ensures Carries(side, w, toks, o)
  {
    hide Carries;
    BareTake(side, w, toks);
    CarriesBehind(side, w, toks, toks[1..], o);
  }

  // ---------------------------------------------------------------- block collections

  lemma {:induction false} BlockSequenceCarries(side: Side, w: Walk, toks: seq<Token>)
    ensures Carries(side, w, toks, BlockSequence(Known(w), toks))
    decreases |toks|, 0
  {
    hide Carries, Node, Emit, Then, WithDefaults;
    CarriesFail(side, w, toks);
    if toks != [] && toks[0].BlockEntryToken? && |toks| > 1 {
      var t := toks[1..];
      if t[0].BlockEntryToken? || t[0].BlockEndToken? {
        BlockSequenceCarries(side, w, t);
        EmptyEmit(side, w, t, BlockSequence(Known(w), t));
      } else {
        var n := Node(Known(w), t, true, false);
        NodeCarries(side, w, t, true, false);
        BlockSequenceCarries(side, w, n.rest);
        CarriesThen(side, w, t, n, BlockSequence(Known(w), n.rest));
      }
      Behind1(side, w, toks, BlockSequence(Known(w), toks));
    } else if toks != [] && toks[0].BlockEndToken? {
      EndOne(side, w, toks, SequenceEnd, toks[1..]);
    }
  }

  lemma {:induction false} IndentlessCarries(side: Side, w: Walk, toks: seq<Token>)
    ensures Carries(side, w, toks, IndentlessSequence(Known(w), toks))
    decreases |toks|, 0
  {
    hide Carries, Node, Emit, Then, WithDefaults;
    CarriesFail(side, w, toks);
    if toks != [] && toks[0].BlockEntryToken? && |toks| > 1 {
      var t := toks[1..];
      if t[0].BlockEntryToken? || t[0].KeyToken? || t[0].ValueToken? || t[0].BlockEndToken? {
        IndentlessCarries(side, w, t);
        EmptyEmit(side, w, t, IndentlessSequence(Known(w), t));
      } else {
        var n := Node(Known(w), t, true, false);
        NodeCarries(side, w, t, true, false);
        IndentlessCarries(side, w, n.rest);
        CarriesThen(side, w, t, n, IndentlessSequence(Known(w), n.rest));
      }
      Behind1(side, w, toks, IndentlessSequence(Known(w), toks));
    } else if toks != [] && !toks[0].BlockEntryToken? {
      EndOne(side, w, toks, SequenceEnd, toks);
    }
  }

  lemma {:induction false} BlockKeyCarries(side: Side, w: Walk, toks: seq<Token>)
    ensures Carries(side, w, toks, BlockMappingKey(Known(w), toks))
    decreases |toks|, 1
  {
    hide Carries, Node, Emit, Then, BlockMappingValue, WithDefaults;
    CarriesFail(side, w, toks);
    if toks != [] && toks[0].KeyToken? && |toks| > 1 {
      var t := toks[1..];
      if EndsBlockEntry(t[0]) {
        BlockValueCarries(side, w, t);
        EmptyEmit(side, w, t, BlockMappingValue(Known(w), t));
      } else {
        var n := Node(Known(w), t, true, true);
        NodeCarries(side, w, t, true, true);
        BlockValueCarries(side, w, n.rest);
        CarriesThen(side, w, t, n, BlockMappingValue(Known(w), n.rest));
      }
      Behind1(side, w, toks, BlockMappingKey(Known(w), toks));
    } else if toks != [] && toks[0].BlockEndToken? {
      EndOne(side, w, toks, MappingEnd, toks[1..]);
    }
  }

  lemma {:induction false} BlockValueCarries(side: Side, w: Walk, toks: seq<Token>)
    ensures Carries(side, w, toks, BlockMappingValue(Known(w), toks))
    decreases |toks|, if toks != [] && toks[0].ValueToken? then 0 else 2
  {
    hide Carries, Node, Emit, Then, BlockMappingKey, WithDefaults;
    CarriesFail(side, w, toks);
    if toks != [] && !toks[0].ValueToken? {
      BlockKeyCarries(side, w, toks);
      EmptyEmit(side, w, toks, BlockMappingKey(Known(w), toks));
    } else if |toks| > 1 {
      var t := toks[1..];
      if EndsBlockEntry(t[0]) {
        BlockKeyCarries(side, w, t);
        EmptyEmit(side, w, t, BlockMappingKey(Known(w), t));
      } else {
        var n := Node(Known(w), t, true, true);
        NodeCarries(side, w, t, true, true);
        BlockKeyCarries(side, w, n.rest);
        CarriesThen(side, w, t, n, BlockMappingKey(Known(w), n.rest));
      }
      Behind1(side, w, toks, BlockMappingValue(Known(w), toks));
    }
  }

  // ---------------------------------------------------------------- flow collections

  lemma {:induction false} FlowSequenceCarries(side: Side, w: Walk, first: bool, toks: seq<Token>)
    ensures Carries(side, w, toks, FlowSequence(Known(w), first, toks))
    decreases |toks|, if first then 4 else 0
  {
    hide Carries, FlowSequenceEntry, WithDefaults;
    CarriesFail(side, w, toks);
    if toks == [] {
    } else if toks[0].FlowSequenceEndToken? {
      EndOne(side, w, toks, SequenceEnd, toks[1..]);
    } else if first {
      FlowSequenceEntryCarries(side, w, toks);
    } else if toks[0].FlowEntryToken? && |toks| > 1 {
      var t := toks[1..];
      if t[0].FlowSequenceEndToken? {
        EndOne(side, w, t, SequenceEnd, t[1..]);
      } else {
        FlowSequenceEntryCarries(side, w, t);
      }
      Behind1(side, w, toks, FlowSequence(Known(w), first, toks));
    }
  }

  lemma {:induction false} FlowSequenceEntryCarries(side: Side, w: Walk, toks: seq<Token>)
    requires toks != []
    ensures Carries(side, w, toks, FlowSequenceEntry(Known(w), toks))
    decreases |toks|, 3
  {
    hide Carries, Node, Emit, Then, PairKey, FlowSequence, WithDefaults;
    if toks[0].KeyToken? {
      PairKeyCarries(side, w, toks[1..]);
      BareTake(side, w, toks);
      CarriesEmit(side, w, toks, MappingStart(None, "", true, true), toks[1..], PairKey(Known(w), toks[1..]));
    } else {
      var n := Node(Known(w), toks, false, false);
      NodeCarries(side, w, toks, false, false);
      FlowSequenceCarries(side, w, false, n.rest);
      CarriesThen(side, w, toks, n, FlowSequence(Known(w), false, n.rest));
    }
  }

  lemma {:induction false} PairKeyCarries(side: Side, w: Walk, toks: seq<Token>)
    ensures Carries(side, w, toks, PairKey(Known(w), toks))
    decreases |toks|, 3
  {
    hide Carries, Node, Emit, Then, PairValue, WithDefaults;
    CarriesFail(side, w, toks);
    if toks == [] {
    } else if toks[0].ValueToken? || EndsPair(toks[0]) {
      PairValueCarries(side, w, toks[1..]);
      EmptyEmit(side, w, toks[1..], PairValue(Known(w), toks[1..]));
      Behind1(side, w, toks, PairKey(Known(w), toks));
    } else {
      var n := Node(Known(w), toks, false, false);
      NodeCarries(side, w, toks, false, false);
      PairValueCarries(side, w, n.rest);
      CarriesThen(side, w, toks, n, PairValue(Known(w), n.rest));
    }
  }

  lemma {:induction false} PairValueCarries(side: Side, w: Walk, toks: seq<Token>)
    ensures Carries(side, w, toks, PairValue(Known(w), toks))
    decreases |toks|, 2
  {
    hide Carries, Node, Emit, Then, PairEnd, WithDefaults;
    CarriesFail(side, w, toks);
    if toks == [] {
    } else if toks[0].ValueToken? {
      if |toks| > 1 {
        var t := toks[1..];
        if EndsPair(t[0]) {
          PairEndCarries(side, w, t);
          EmptyEmit(side, w, t, PairEnd(Known(w), t));
        } else {
          var n := Node(Known(w), t, false, false);
          NodeCarries(side, w, t, false, false);
          PairEndCarries(side, w, n.rest);
          CarriesThen(side, w, t, n, PairEnd(Known(w), n.rest));
        }
        Behind1(side, w, toks, PairValue(Known(w), toks));
      }
    } else {
      PairEndCarries(side, w, toks);
      EmptyEmit(side, w, toks, PairEnd(Known(w), toks));
    }
  }

  lemma {:induction false} PairEndCarries(side: Side, w: Walk, toks: seq<Token>)
    ensures Carries(side, w, toks, PairEnd(Known(w), toks))
    decreases |toks|, 1
  {
    hide Carries, FlowSequence, WithDefaults;
    CarriesFail(side, w, toks);
    if toks != [] {
      FlowSequenceCarries(side, w, false, toks);
      BetweenNothing(side, w, toks);
      CarriesEmit(side, w, toks, MappingEnd, toks, FlowSequence(Known(w), false, toks));
    }
  }

  lemma {:induction false} FlowMappingCarries(side: Side, w: Walk, first: bool, toks: seq<Token>)
    ensures Carries(side, w, toks, FlowMappingKey(Known(w), first, toks))
    decreases |toks|, if first then 4 else 0
  {
    hide Carries, FlowMappingEntry, WithDefaults;
    CarriesFail(side, w, toks);
    if toks == [] {
    } else if toks[0].FlowMappingEndToken? {
      EndOne(side, w, toks, MappingEnd, toks[1..]);
    } else if first {
      FlowMappingEntryCarries(side, w, toks);
    } else if toks[0].FlowEntryToken? && |toks| > 1 {
      var t := toks[1..];
      if t[0].FlowMappingEndToken? {
        EndOne(side, w, t, MappingEnd, t[1..]);
      } else {
        FlowMappingEntryCarries(side, w, t);
      }
      Behind1(side, w, toks, FlowMappingKey(Known(w), first, toks));
    }
  }

  lemma {:induction false} FlowMappingEntryCarries(side: Side, w: Walk, toks: seq<Token>)
    requires toks != []
    ensures Carries(side, w, toks, FlowMappingEntry(Known(w), toks))
    decreases |toks|, 3
  {
    hide Carries, Node, Emit, Then, FlowMappingValue, WithDefaults;
    CarriesFail(side, w, toks);
    if toks[0].KeyToken? {
      if |toks| > 1 {
        var t := toks[1..];
        if t[0].ValueToken? || EndsFlowEntry(t[0]) {
          FlowValueCarries(side, w, false, t);
          EmptyEmit(side, w, t, FlowMappingValue(Known(w), false, t));
        } else {
          var n := Node(Known(w), t, false, false);
          NodeCarries(side, w, t, false, false);
          FlowValueCarries(side, w, false, n.rest);
          CarriesThen(side, w, t, n, FlowMappingValue(Known(w), false, n.rest));
        }
        Behind1(side, w, toks, FlowMappingEntry(Known(w), toks));
      }
    } else {
      var n := Node(Known(w), toks, false, false);
      NodeCarries(side, w, toks, false, false);
      FlowValueCarries(side, w, true, n.rest);
      CarriesThen(side, w, toks, n, FlowMappingValue(Known(w), true, n.rest));
    }
  }

  lemma {:induction false} FlowValueCarries(side: Side, w: Walk, empty: bool, toks: seq<Token>)
    ensures Carries(side, w, toks, FlowMappingValue(Known(w), empty, toks))
    decreases |toks|, 1
  {
    hide Carries, Node, Emit, Then, FlowMappingKey, WithDefaults;
    CarriesFail(side, w, toks);
    if toks == [] {
    } else if !empty && toks[0].ValueToken? {
      if |toks| > 1 {
        var t := toks[1..];
        if EndsFlowEntry(t[0]) {
          FlowMappingCarries(side, w, false, t);
          EmptyEmit(side, w, t, FlowMappingKey(Known(w), false, t));
        } else {
          var n := Node(Known(w), t, false, false);
          NodeCarries(side, w, t, false, false);
          FlowMappingCarries(side, w, false, n.rest);
          CarriesThen(side, w, t, n, FlowMappingKey(Known(w), false, n.rest));
        }
        Behind1(side, w, toks, FlowMappingValue(Known(w), empty, toks));
      }
    } else {
      FlowMappingCarries(side, w, false, toks);
      EmptyEmit(side, w, toks, FlowMappingKey(Known(w), false, toks));
    }
  }

  // ---------------------------------------------------------------- documents

  /** The same for what reaches to the end of the stream. */
  predicate CarriesAll(side: Side, w: Walk, toks: seq<Token>, o: Out) {
    && AllFlagsOk(o.events) && EventsData(side, o.events) <= Data(side, w, toks)
    && (o.ok ==> Data(side, w, toks) == EventsData(side, o.events) && o.rest == BehindStream(toks))
  }

  lemma AllFail(side: Side, w: Walk, toks: seq<Token>)
    ensures CarriesAll(side, w, toks, FAIL)
  {
  }

  /** From `toks` at `w` to `rest` at `x` there is just this data. */
  predicate Leads(side: Side, w: Walk, toks: seq<Token>, data: seq<Datum>, x: Walk, rest: seq<Token>) {
    Data(side, w, toks) == data + Data(side, x, rest) && BehindStream(toks) == BehindStream(rest)
  }

  lemma AllEmit(side: Side, w: Walk, toks: seq<Token>, e: Event, x: Walk, rest: seq<Token>, o: Out)
    requires Leads(side, w, toks, EventData(side, e), x, rest) && FlagsOk(e) && CarriesAll(side, x, rest, o)
    ensures CarriesAll(side, w, toks, Emit(e, o))
  {
    hide Data, EventData, BehindStream, FlagsOk;
    EventsCons(side, e, o.events);
    PrefixBehind(EventData(side, e), EventsData(side, o.events), Data(side, x, rest));
    forall i | 0 <= i < |Emit(e, o).events| ensures FlagsOk(Emit(e, o).events[i]) {
      if i > 0 { assert Emit(e, o).events[i] == o.events[i - 1]; }
    }
  }

  lemma AllThen(side: Side, w: Walk, toks: seq<Token>, a: Out, b: Out)
    requires Carries(side, w, toks, a) && CarriesAll(side, w, a.rest, b)
    ensures CarriesAll(side, w, toks, Then(a, b))
  {
    hide Data, EventData, BehindStream, FlagsOk;
    if a.ok {
      EventsAppend(side, a.events, b.events);
      PrefixBehind(EventsData(side, a.events), EventsData(side, b.events), Data(side, w, a.rest));
    }
  }

  lemma DirectivesCons(d: TagDirective, more: seq<TagDirective>)
    ensures DirectiveData([d] + more) == [DirectiveDatum(d.handle, d.prefix)] + DirectiveData(more)
  {
    assert ([d] + more)[1..] == more;
  }

  /** What the directives from `h` to `r` add. */
  function Added(side: Side, h: Header, r: Header): seq<Datum>
    requires |h.directives| <= |r.directives|
  {
    if side == Tags then DirectiveData(r.directives[|h.directives|..])
    else if h.version.Some? then []
    else VersionData(r.version)
  }

  lemma LeadsOn(side: Side, w: Walk, toks: seq<Token>, data: seq<Datum>, x: Walk, rest: seq<Token>)
    requires toks != [] && !toks[0].StreamEndToken? && Leads(side, After(w, toks[0]), toks[1..], data, x, rest)
    ensures Leads(side, w, toks, TokenData(side, w, toks[0]) + data, x, rest)
  {
  }

  lemma AddedVersion(side: Side, w: Walk, h: Header, r: Header, major: int, minor: int)
    requires h.version.None? && h.directives <= r.directives && r.version == Some(Version(major, minor))
    ensures Added(side, h, r) ==
            TokenData(side, w, VersionDirectiveToken(major, minor)) + Added(side, h.(version := r.version), r)
  {
  }

  lemma AddedDirective(side: Side, w: Walk, h: Header, r: Header, d: TagDirective)
    requires h.directives + [d] <= r.directives
    ensures Added(side, h, r) ==
            TokenData(side, w, TagDirectiveToken(d.handle, d.prefix)) +
            Added(side, h.(directives := h.directives + [d]), r)
  {
    var more := r.directives[|h.directives| + 1..];
    assert r.directives[|h.directives|..] == [d] + more;
    DirectivesCons(d, more);
  }

  /** The directives of a document, and the token behind them that begins it. */
  lemma {:induction false} DirectivesLead(side: Side, w: Walk, h: Header)
    requires Fresh(w) == h.known == h.directives && Directives(h).Some?
    ensures var r := Directives(h).value;
            && h.directives <= r.directives && r.known == WithDefaults(r.directives)
            && (h.version.Some? ==> r.version == h.version)
            && (r.rest[0].DocumentStartToken? ==>
                  Leads(side, w, h.rest, Added(side, h, r), Walk(Within, r.directives), r.rest[1..]))
    decreases |h.rest|
  {
    hide WithDefaults, FindHandle, Leads, Added, TokenData;
    var r, t, rest := Directives(h).value, h.rest[0], h.rest[1..];
    var x := Walk(Within, r.directives);
    match t {
      case VersionDirectiveToken(major, minor) =>
        var next := h.(version := Some(Version(major, minor)), rest := rest);
        DirectivesLead(side, After(w, t), next);
        if r.rest[0].DocumentStartToken? {
          LeadsOn(side, w, h.rest, Added(side, next, r), x, r.rest[1..]);
          AddedVersion(side, w, h, r, major, minor);
          AddedSame(side, next, h.(version := r.version), r);
        }
      case TagDirectiveToken(handle, prefix) =>
        var d := TagDirective(handle, prefix);
        var next := h.(directives := h.directives + [d], known := h.known + [d], rest := rest);
        DirectivesLead(side, After(w, t), next);
        if r.rest[0].DocumentStartToken? {
          LeadsOn(side, w, h.rest, Added(side, next, r), x, r.rest[1..]);
          AddedDirective(side, w, h, r, d);
          AddedSame(side, next, h.(directives := h.directives + [d]), r);
        }
      case _ =>
        if t.DocumentStartToken? { DirectivesEnd(side, w, h); }
    }
  }

  lemma AddedSame(side: Side, g: Header, h: Header, r: Header)
    requires g.version == h.version && g.directives == h.directives <= r.directives
    ensures Added(side, g, r) == Added(side, h, r)
  {
  }

  lemma DirectivesEnd(side: Side, w: Walk, h: Header)
    requires Fresh(w) == h.directives && h.rest != [] && h.rest[0].DocumentStartToken?
    ensures Leads(side, w, h.rest, Added(side, h, h), Walk(Within, h.directives), h.rest[1..])
    ensures Added(side, h, h.(known := WithDefaults(h.known))) == Added(side, h, h)
  {
  }

  lemma {:induction false} SkipLeads(side: Side, w: Walk, toks: seq<Token>)
    requires w == Walk(Behind, [])
    ensures Leads(side, w, toks, [], w, SkipDocumentEnds(toks))
    decreases |toks|
  {
    if toks != [] && toks[0].DocumentEndToken? { SkipLeads(side, w, toks[1..]); }
  }

  /** Between documents: behind an explicit end, or at the token that shows the implicit one. */
  predicate Ready(w: Walk, toks: seq<Token>) {
    Fresh(w) == [] && (w == Walk(Behind, []) || toks == [] || !toks[0].DocumentEndToken?)
  }

  lemma {:induction false} DocumentsCarry(side: Side, w: Walk, implicit: bool, all: seq<Token>)
    requires if implicit then w == START else Ready(w, all)
    ensures CarriesAll(side, w, all, Documents([], implicit, all))
    decreases |all|, if implicit then 5 else 3, 0
  {
    hide CarriesAll, DocumentsFrom;
    var toks := if implicit then all else SkipDocumentEnds(all);
    AllFail(side, w, all);
    if toks != [] {
      if !implicit && w == Walk(Behind, []) { SkipLeads(side, w, all); }
      DocumentsFromCarry(side, w, implicit, toks);
      AllLater(side, w, all, toks, DocumentsFrom([], implicit, toks));
    }
  }

  lemma AllLater(side: Side, w: Walk, toks: seq<Token>, rest: seq<Token>, o: Out)
    requires (toks == rest || Leads(side, w, toks, [], w, rest)) && CarriesAll(side, w, rest, o)
    ensures CarriesAll(side, w, toks, o)
  {
    hide Data, EventsData, BehindStream;
  }

  lemma {:induction false} DocumentsFromCarry(side: Side, w: Walk, implicit: bool, toks: seq<Token>)
    requires toks != [] && Fresh(w) == [] && (implicit ==> w == START)
    ensures CarriesAll(side, w, toks, DocumentsFrom([], implicit, toks))
    decreases |toks|, if implicit then 4 else 2
  {
    hide Carries, CarriesAll, Node, Emit, Then, DocumentContent, EndOfDocument, Directives, WithDefaults;
    AllFail(side, w, toks);
    if implicit && !IsDirective(toks[0]) && !toks[0].DocumentStartToken? && !toks[0].StreamEndToken? {
      var n := Node(Known(w), toks, true, false);
      NodeCarries(side, w, toks, true, false);
      EndCarries(side, w, n.rest);
      AllThen(side, w, toks, n, EndOfDocument(n.rest));
      NothingLeads(side, w, toks);
      AllEmit(side, w, toks, DocumentStart(None, [], false), w, toks, Then(n, EndOfDocument(n.rest)));
    } else if !toks[0].StreamEndToken? {
      var h := Header(None, [], [], toks);
      var r := Directives(h);
      if r.Some? && r.value.rest[0].DocumentStartToken? {
        DirectivesLead(side, w, h);
        var x, rest := Walk(Within, r.value.directives), r.value.rest[1..];
        assert r.value.directives[|h.directives|..] == r.value.directives;
        var n := DocumentContent(Known(x), rest);
        DocumentContentCarries(side, x, rest);
        EndCarries(side, x, n.rest);
        AllThen(side, x, rest, n, EndOfDocument(n.rest));
        AllEmit(side, w, toks, DocumentStart(r.value.version, r.value.directives, false), x, rest,
                Then(n, EndOfDocument(n.rest)));
      }
    } else {
      StreamEnds(side, w, toks);
    }
  }

  lemma NothingLeads(side: Side, w: Walk, toks: seq<Token>)
    ensures Leads(side, w, toks, EventData(side, DocumentStart(None, [], false)), w, toks)
  {
  }

  lemma StreamEnds(side: Side, w: Walk, toks: seq<Token>)
    requires toks != [] && toks[0].StreamEndToken?
    ensures CarriesAll(side, w, toks, Out([StreamEnd], toks[1..], true))
  {
    EventsOne(side, StreamEnd);
  }

  lemma DocumentContentCarries(side: Side, w: Walk, toks: seq<Token>)
    ensures Carries(side, w, toks, DocumentContent(Known(w), toks))
  {
    hide Carries, Node, WithDefaults;
    CarriesFail(side, w, toks);
    BetweenNothing(side, w, toks);
    CarriesOne(side, w, toks, EMPTY_SCALAR, toks);
    NodeCarries(side, w, toks, true, false);
  }

  lemma {:induction false} EndCarries(side: Side, w: Walk, toks: seq<Token>)
    requires Fresh(w) == [] && w.place != Behind
    ensures CarriesAll(side, w, toks, EndOfDocument(toks))
    decreases |toks|, 3, 1
  {
    hide CarriesAll, Documents, Emit;
    AllFail(side, w, toks);
    if toks != [] {
      if toks[0].DocumentEndToken? {
        var x, rest := Walk(Behind, []), toks[1..];
        DocumentsCarry(side, x, false, rest);
        AllEmit(side, w, toks, DocumentEnd(false), x, rest, Documents([], false, rest));
      } else {
        DocumentsCarry(side, w, false, toks);
        AllEmit(side, w, toks, DocumentEnd(true), w, toks, Documents([], false, toks));
      }
    }
  }

  /**
   For every list of tokens, the events of a complete stream carry exactly the data of the tokens up to the end of the
   stream, in the same order; and those of an abandoned one a first part of it.
   */
  lemma StreamCarries(side: Side, toks: seq<Token>)
    ensures EventsData(side, Stream(toks).events) <= Data(side, START, toks) && AllFlagsOk(Stream(toks).events)
    ensures Stream(toks).ok ==>
              && EventsData(side, Stream(toks).events) == Data(side, START, toks)
              && Stream(toks).rest == BehindStream(toks)
  {
    hide Documents;
    if toks != [] && toks[0].StreamStartToken? {
      DocumentsCarry(side, START, true, toks[1..]);
      AllEmit(side, START, toks, StreamStart, START, toks[1..], Documents([], true, toks[1..]));
    }
  }
}
