/** The tokens that the scanner hands to the parser. */
module YamlTokens {
  import opened YamlEvents

  datatype Token =
    | StreamStartToken
    | StreamEndToken
    | VersionDirectiveToken(major: int, minor: int)
    | TagDirectiveToken(handle: string, prefix: string)
    | DocumentStartToken
    | DocumentEndToken
    | BlockSequenceStartToken
    | BlockMappingStartToken
    | BlockEndToken
    | FlowSequenceStartToken
    | FlowSequenceEndToken
    | FlowMappingStartToken
    | FlowMappingEndToken
    | BlockEntryToken
    | FlowEntryToken
    | KeyToken
    | ValueToken
    | AliasToken(name: string)
    | AnchorToken(name: string)
    | TagToken(handle: string, suffix: string)
    | ScalarToken(text: string, style: ScalarStyle)
}

/**
 The grammar of the parser, read as mutually recursive functions over the token list:
 each function gives the events that its production stands for, and the tokens left over.
 There is no state stack here; the parser, which has one, is proved to refine this reading. With
 `written`, two productions follow the grammar in the comments of the source, from which the code departs.
 */
module YamlGrammar {
  import opened Wrappers
  import opened YamlEvents
  import opened YamlTokens

  /**
   Events of a production, the tokens it leaves, and whether it was completed; in the reading as written, also
   whether something in it is read differently by the code.
   */
  datatype Out = Out(events: seq<Event>, rest: seq<Token>, ok: bool, odd: bool := false)

  const FAIL := Out([], [], false)

  function Emit(e: Event, o: Out): (r: Out)
    ensures |r.rest| == |o.rest|
  {
    Out([e] + o.events, o.rest, o.ok, o.odd)
  }

  /** First `a`, then `b`, where `b` was read from the tokens that `a` left. */
  function Then(a: Out, b: Out): Out {
    if a.ok then Out(a.events + b.events, b.rest, b.ok, a.odd || b.odd) else a
  }

  // ---------------------------------------------------------------- properties

  datatype Props = Props(anchor: Option<string>, tag: Option<TagDirective>, rest: seq<Token>)

  /** properties ::= TAG ANCHOR? | ANCHOR TAG? (or nothing); a tag is kept as handle and suffix. */
  function Properties(toks: seq<Token>): (p: Props)
    ensures |p.rest| <= |toks|
    ensures |p.rest| == |toks| ==> p == Props(None, None, toks)
  {
    if toks != [] && toks[0].AnchorToken? then
      if |toks| > 1 && toks[1].TagToken? then
        Props(Some(toks[0].name), Some(TagDirective(toks[1].handle, toks[1].suffix)), toks[2..])
      else Props(Some(toks[0].name), None, toks[1..])
    else if toks != [] && toks[0].TagToken? then
      var tag := Some(TagDirective(toks[0].handle, toks[0].suffix));
      if |toks| > 1 && toks[1].AnchorToken? then Props(Some(toks[1].name), tag, toks[2..])
      else Props(None, tag, toks[1..])
    else Props(None, None, toks)
  }

  function FindHandle(td: seq<TagDirective>, handle: string): Option<string> {
    if td == [] then None
    else if td[0].handle == handle then Some(td[0].prefix)
    else FindHandle(td[1..], handle)
  }

  /** The tag of a node; a handle must be declared and must not resolve to nothing. */
  function ResolveTag(td: seq<TagDirective>, tag: Option<TagDirective>): Option<string> {
    match tag
    case None => Some("")
    case Some(TagDirective(handle, suffix)) =>
      if handle == "" then Some(suffix)
      else
        match FindHandle(td, handle)
        case None => None
        case Some(prefix) => if prefix + suffix == "" then None else Some(prefix + suffix)
  }

  predicate NonEmpty(anchor: Option<string>) {
    anchor.Some? && anchor.value != ""
  }

  // ---------------------------------------------------------------- nodes

  function Node(td: seq<TagDirective>, toks: seq<Token>, block: bool, indentless: bool,
                written: bool := false): (o: Out)
    ensures |o.rest| <= |toks|
    ensures toks != [] ==> |o.events| + 4 * |o.rest| < 4 * |toks|
    decreases |toks|, 2
  {
    if toks == [] then FAIL
    else if toks[0].AliasToken? then Out([Alias(toks[0].name)], toks[1..], true)
    else
      var p := Properties(toks);
      var tag := ResolveTag(td, p.tag);
      if p.rest == [] || tag.None? then FAIL
      else Content(td, p.anchor, tag.value, p.rest, block, indentless, written)
  }

  /** The tokens that open a collection where a node is expected. */
  predicate StartsCollection(t: Token, block: bool, indentless: bool) {
    || (indentless && t.BlockEntryToken?) || t.FlowSequenceStartToken? || t.FlowMappingStartToken?
    || (block && (t.BlockSequenceStartToken? || t.BlockMappingStartToken?))
  }

  function Content(td: seq<TagDirective>, anchor: Option<string>, tag: string,
                   toks: seq<Token>, block: bool, indentless: bool, written: bool := false): (o: Out)
    requires toks != []
    ensures |o.rest| <= |toks|
    ensures |o.events| + 4 * |o.rest| <= 4 * |toks| + if (NonEmpty(anchor) || tag != "") then 1 else -1
    decreases |toks|, 1
  {
    var t := toks[0];
    var implicit := tag == "";
    if indentless && t.BlockEntryToken? then
      Emit(SequenceStart(anchor, tag, implicit, false), IndentlessSequence(td, toks, written))
    else if t.ScalarToken? then Out([ScalarEvent(anchor, tag, t)], toks[1..], true)
    else if t.FlowSequenceStartToken? then
      Emit(SequenceStart(anchor, tag, implicit, true), FlowSequence(td, true, toks[1..], written))
    else if t.FlowMappingStartToken? then
      Emit(MappingStart(anchor, tag, implicit, true), FlowMappingKey(td, true, toks[1..], written))
    else if block && t.BlockSequenceStartToken? then
      Emit(SequenceStart(anchor, tag, implicit, false), BlockSequence(td, toks[1..], written))
    else if block && t.BlockMappingStartToken? then
      Emit(MappingStart(anchor, tag, implicit, false), BlockMappingKey(td, toks[1..], written))
    else if NonEmpty(anchor) || tag != "" then
      Out([Scalar(anchor, tag, "", implicit, false, Plain)], toks, true)
    else FAIL
  }

  function ScalarEvent(anchor: Option<string>, tag: string, t: Token): Event
    requires t.ScalarToken?
  {
    var plain := (tag == "" && t.style == Plain) || tag == "!";
    Scalar(anchor, tag, t.text, plain, !plain && tag == "", t.style)
  }

  // ---------------------------------------------------------------- block collections

  /** (BLOCK-ENTRY block_node?)* BLOCK-END */
  function BlockSequence(td: seq<TagDirective>, toks: seq<Token>, written: bool := false): (o: Out)
    ensures |o.rest| <= |toks|
    ensures |o.events| + 4 * |o.rest| <= 4 * |toks|
    decreases |toks|, 0
  {
    if toks == [] then FAIL
    else if toks[0].BlockEntryToken? then
      var t := toks[1..];
      if t == [] then FAIL
      else if t[0].BlockEntryToken? || t[0].BlockEndToken? then Emit(EMPTY_SCALAR, BlockSequence(td, t, written))
      else
        var n := Node(td, t, true, false, written);
        Then(n, BlockSequence(td, n.rest, written))
    else if toks[0].BlockEndToken? then Out([SequenceEnd], toks[1..], true)
    else FAIL
  }

  /** (BLOCK-ENTRY block_node?)*, ended by any other token, which is left alone. */
  function IndentlessSequence(td: seq<TagDirective>, toks: seq<Token>, written: bool := false): (o: Out)
    ensures |o.rest| <= |toks|
    ensures |o.events| + 4 * |o.rest| <= 4 * |toks| + if toks != [] && toks[0].BlockEntryToken? then -2 else 1
    decreases |toks|, 0
  {
    if toks == [] then FAIL
    else if toks[0].BlockEntryToken? then
      var t := toks[1..];
      if t == [] then FAIL
      else if t[0].BlockEntryToken? || t[0].KeyToken? || t[0].ValueToken? || t[0].BlockEndToken? then
        Emit(EMPTY_SCALAR, IndentlessSequence(td, t, written))
      else
        var n := Node(td, t, true, false, written);
        Then(n, IndentlessSequence(td, n.rest, written))
    else Out([SequenceEnd], toks, true)
  }

  predicate EndsBlockEntry(t: Token) {
    t.KeyToken? || t.ValueToken? || t.BlockEndToken?
  }

  /** ((KEY node?)? (VALUE node?)?)* BLOCK-END is written; an entry without its key is refused. */
  function BlockMappingKey(td: seq<TagDirective>, toks: seq<Token>, written: bool := false): (o: Out)
    ensures |o.rest| <= |toks|
    ensures |o.events| + 4 * |o.rest| <= 4 * |toks|
    decreases |toks|, 1
  {
    if toks == [] then FAIL
    else if toks[0].KeyToken? then
      var t := toks[1..];
      if t == [] then FAIL
      else if EndsBlockEntry(t[0]) then Emit(EMPTY_SCALAR, BlockMappingValue(td, t, written))
      else
        var n := Node(td, t, true, true, written);
        Then(n, BlockMappingValue(td, n.rest, written))
    else if toks[0].BlockEndToken? then Out([MappingEnd], toks[1..], true)
    else if written && toks[0].ValueToken? then
      Emit(EMPTY_SCALAR, BlockMappingValue(td, toks, written)).(odd := true)
    else FAIL
  }

  function BlockMappingValue(td: seq<TagDirective>, toks: seq<Token>, written: bool := false): (o: Out)
    ensures |o.rest| <= |toks|
    ensures |o.events| + 4 * |o.rest| <= 4 * |toks| + if toks != [] && toks[0].ValueToken? then -1 else 1
    decreases |toks|, if toks != [] && toks[0].ValueToken? then 0 else 2
  {
    if toks == [] then FAIL
    else if toks[0].ValueToken? then
      var t := toks[1..];
      if t == [] then FAIL
      else if EndsBlockEntry(t[0]) then Emit(EMPTY_SCALAR, BlockMappingKey(td, t, written))
      else
        var n := Node(td, t, true, true, written);
        Then(n, BlockMappingKey(td, n.rest, written))
    else Emit(EMPTY_SCALAR, BlockMappingKey(td, toks, written))
  }

  // ---------------------------------------------------------------- flow collections

  /** (entry (FLOW-ENTRY entry)* FLOW-ENTRY?)? FLOW-SEQUENCE-END */
  function FlowSequence(td: seq<TagDirective>, first: bool, toks: seq<Token>, written: bool := false): (o: Out)
    ensures |o.rest| <= |toks|
    ensures |o.events| + 4 * |o.rest| <= 4 * |toks|
    decreases |toks|, if first then 4 else 0
  {
    if toks == [] then FAIL
    else if toks[0].FlowSequenceEndToken? then Out([SequenceEnd], toks[1..], true)
    else if first then FlowSequenceEntry(td, toks, written)
    else if toks[0].FlowEntryToken? then
      var t := toks[1..];
      if t == [] then FAIL
      else if t[0].FlowSequenceEndToken? then Out([SequenceEnd], t[1..], true)
      else FlowSequenceEntry(td, t, written)
    else FAIL
  }

  /** flow_sequence_entry ::= flow_node | KEY flow_node? (VALUE flow_node?)? */
  function FlowSequenceEntry(td: seq<TagDirective>, toks: seq<Token>, written: bool := false): (o: Out)
    requires toks != []
    ensures |o.rest| <= |toks|
    ensures |o.events| + 4 * |o.rest| <= 4 * |toks|
    decreases |toks|, 3
  {
    if toks[0].KeyToken? then Emit(MappingStart(None, "", true, true), PairKey(td, toks[1..], written))
    else
      var n := Node(td, toks, false, false, written);
      Then(n, FlowSequence(td, false, n.rest, written))
  }

  predicate EndsPair(t: Token) {
    t.FlowEntryToken? || t.FlowSequenceEndToken?
  }

  /** An absent key that is read as it is written: ':' without a value, or ',' in front of ']'. */
  predicate Harmless(toks: seq<Token>) {
    && |toks| > 1
    && ((toks[0].ValueToken? && EndsPair(toks[1])) || (toks[0].FlowEntryToken? && toks[1].FlowSequenceEndToken?))
  }

  /** The key of a single pair. As it is coded, an absent key also swallows the token that shows its absence. */
  function PairKey(td: seq<TagDirective>, toks: seq<Token>, written: bool := false): (o: Out)
    ensures |o.rest| <= |toks|
    ensures |o.events| + 4 * |o.rest| <= 4 * |toks| + if written then 3 else 1
    decreases |toks|, 3
  {
    if toks == [] then FAIL
    else if toks[0].ValueToken? || EndsPair(toks[0]) then
      if written then
        var o := Emit(EMPTY_SCALAR, PairValue(td, toks, written));
        o.(odd := o.odd || !Harmless(toks))
      else Emit(EMPTY_SCALAR, PairValue(td, toks[1..], written))
    else
      var n := Node(td, toks, false, false, written);
      Then(n, PairValue(td, n.rest, written))
  }

  function PairValue(td: seq<TagDirective>, toks: seq<Token>, written: bool := false): (o: Out)
    ensures |o.rest| <= |toks|
    ensures |o.events| + 4 * |o.rest| <= 4 * |toks| + 2
    decreases |toks|, 2
  {
    if toks == [] then FAIL
    else if toks[0].ValueToken? then
      var t := toks[1..];
      if t == [] then FAIL
      else if EndsPair(t[0]) then Emit(EMPTY_SCALAR, PairEnd(td, t, written))
      else
        var n := Node(td, t, false, false, written);
        Then(n, PairEnd(td, n.rest, written))
    else Emit(EMPTY_SCALAR, PairEnd(td, toks, written))
  }

  function PairEnd(td: seq<TagDirective>, toks: seq<Token>, written: bool := false): (o: Out)
    ensures |o.rest| <= |toks|
    ensures |o.events| + 4 * |o.rest| <= 4 * |toks| + 1
    decreases |toks|, 1
  {
    if toks == [] then FAIL else Emit(MappingEnd, FlowSequence(td, false, toks, written))
  }

  /** (entry (FLOW-ENTRY entry)* FLOW-ENTRY?)? FLOW-MAPPING-END */
  function FlowMappingKey(td: seq<TagDirective>, first: bool, toks: seq<Token>, written: bool := false): (o: Out)
    ensures |o.rest| <= |toks|
    ensures |o.events| + 4 * |o.rest| <= 4 * |toks|
    decreases |toks|, if first then 4 else 0
  {
    if toks == [] then FAIL
    else if toks[0].FlowMappingEndToken? then Out([MappingEnd], toks[1..], true)
    else if first then FlowMappingEntry(td, toks, written)
    else if toks[0].FlowEntryToken? then
      var t := toks[1..];
      if t == [] then FAIL
      else if t[0].FlowMappingEndToken? then Out([MappingEnd], t[1..], true)
      else FlowMappingEntry(td, t, written)
    else FAIL
  }

  predicate EndsFlowEntry(t: Token) {
    t.FlowEntryToken? || t.FlowMappingEndToken?
  }

  /** flow_mapping_entry ::= flow_node | KEY flow_node? (VALUE flow_node?)? */
  function FlowMappingEntry(td: seq<TagDirective>, toks: seq<Token>, written: bool := false): (o: Out)
    requires toks != []
    ensures |o.rest| <= |toks|
    ensures |o.events| + 4 * |o.rest| <= 4 * |toks|
    decreases |toks|, 3
  {
    if toks[0].KeyToken? then
      var t := toks[1..];
      if t == [] then FAIL
      else if t[0].ValueToken? || EndsFlowEntry(t[0]) then Emit(EMPTY_SCALAR, FlowMappingValue(td, false, t, written))
      else
        var n := Node(td, t, false, false, written);
        Then(n, FlowMappingValue(td, false, n.rest, written))
    else
      var n := Node(td, toks, false, false, written);
      Then(n, FlowMappingValue(td, true, n.rest, written))
  }

  function FlowMappingValue(td: seq<TagDirective>, empty: bool, toks: seq<Token>, written: bool := false): (o: Out)
    ensures |o.rest| <= |toks|
    ensures |o.events| + 4 * |o.rest| <= 4 * |toks| + 1
    decreases |toks|, 1
  {
    if toks == [] then FAIL
    else if !empty && toks[0].ValueToken? then
      var t := toks[1..];
      if t == [] then FAIL
      else if EndsFlowEntry(t[0]) then Emit(EMPTY_SCALAR, FlowMappingKey(td, false, t, written))
      else
        var n := Node(td, t, false, false, written);
        Then(n, FlowMappingKey(td, false, n.rest, written))
    else Emit(EMPTY_SCALAR, FlowMappingKey(td, false, toks, written))
  }

  // ---------------------------------------------------------------- documents

  const DEFAULT_DIRECTIVES := [TagDirective("!", "!"), TagDirective("!!", "tag:yaml.org,2002:")]

  function AddMissing(td: seq<TagDirective>, d: TagDirective): seq<TagDirective> {
    if FindHandle(td, d.handle).Some? then td else td + [d]
  }

  function WithDefaults(td: seq<TagDirective>): seq<TagDirective> {
    AddMissing(AddMissing(td, DEFAULT_DIRECTIVES[0]), DEFAULT_DIRECTIVES[1])
  }

  datatype Header = Header(version: Option<Version>, directives: seq<TagDirective>,
                           known: seq<TagDirective>, rest: seq<Token>)

  /** DIRECTIVE*: at most one %YAML, which must be 1.1, and no handle declared twice. */
  function Directives(h: Header): (r: Option<Header>)
    ensures r.Some? ==> r.value.rest != [] && |r.value.rest| <= |h.rest|
    decreases |h.rest|
  {
    if h.rest == [] then None
    else
      match h.rest[0]
      case VersionDirectiveToken(major, minor) =>
        if h.version.Some? || major != 1 || minor != 1 then None
        else Directives(h.(version := Some(Version(major, minor)), rest := h.rest[1..]))
      case TagDirectiveToken(handle, prefix) =>
        var d := TagDirective(handle, prefix);
        if FindHandle(h.known, handle).Some? then None
        else Directives(h.(directives := h.directives + [d], known := h.known + [d], rest := h.rest[1..]))
      case _ => Some(h.(known := WithDefaults(h.known)))
  }

  function SkipDocumentEnds(toks: seq<Token>): (r: seq<Token>)
    ensures |r| <= |toks|
    ensures r != [] ==> !r[0].DocumentEndToken?
  {
    if toks != [] && toks[0].DocumentEndToken? then SkipDocumentEnds(toks[1..]) else toks
  }

  predicate IsDirective(t: Token) {
    t.VersionDirectiveToken? || t.TagDirectiveToken?
  }

  /** The documents from here on, and the end of the stream; only the first may be implicit. */
  function Documents(td: seq<TagDirective>, implicit: bool, all: seq<Token>, written: bool := false): (o: Out)
    ensures |o.rest| <= |all|
    ensures |o.events| + 4 * |o.rest| <= 4 * |all| + if implicit then 1 else 0
    decreases |all|, if implicit then 5 else 3, 0
  {
    var toks := if implicit then all else SkipDocumentEnds(all);
    if toks == [] then FAIL else DocumentsFrom(td, implicit, toks, written)
  }

  function DocumentsFrom(td: seq<TagDirective>, implicit: bool, toks: seq<Token>, written: bool := false): (o: Out)
    requires toks != []
    ensures |o.rest| <= |toks|
    ensures |o.events| + 4 * |o.rest| <= 4 * |toks| + if implicit then 1 else 0
    decreases |toks|, if implicit then 4 else 2
  {
    if implicit && !IsDirective(toks[0]) && !toks[0].DocumentStartToken? && !toks[0].StreamEndToken? then
      var n := Node(WithDefaults(td), toks, true, false, written);
      Emit(DocumentStart(None, [], false), Then(n, EndOfDocument(n.rest, written)))
    else if !toks[0].StreamEndToken? then
      match Directives(Header(None, [], td, toks))
      case None => FAIL
      case Some(h) =>
        if !h.rest[0].DocumentStartToken? then FAIL
        else
          var n := DocumentContent(h.known, h.rest[1..], written);
          Emit(DocumentStart(h.version, h.directives, false), Then(n, EndOfDocument(n.rest, written)))
    else Out([StreamEnd], toks[1..], true)
  }

  function DocumentContent(td: seq<TagDirective>, toks: seq<Token>, written: bool := false): (o: Out)
    ensures |o.rest| <= |toks|
    ensures |o.events| + 4 * |o.rest| <= 4 * |toks| + 1
  {
    if toks == [] then FAIL
    else if IsDirective(toks[0]) || toks[0].DocumentStartToken? || toks[0].DocumentEndToken? || toks[0].StreamEndToken?
    then Out([EMPTY_SCALAR], toks, true)
    else Node(td, toks, true, false, written)
  }

  function EndOfDocument(toks: seq<Token>, written: bool := false): (o: Out)
    ensures |o.rest| <= |toks|
    ensures |o.events| + 4 * |o.rest| <= 4 * |toks| + 1
    decreases |toks|, 3, 1
  {
    if toks == [] then FAIL
    else if toks[0].DocumentEndToken? then Emit(DocumentEnd(false), Documents([], false, toks[1..], written))
    else Emit(DocumentEnd(true), Documents([], false, toks, written))
  }

  /** stream ::= STREAM-START implicit_document? explicit_document* STREAM-END */
  function Stream(toks: seq<Token>, written: bool := false): (o: Out)
    ensures |o.events| <= 4 * |toks|
  {
    if toks == [] || !toks[0].StreamStartToken? then FAIL
    else Emit(StreamStart, Documents([], true, toks[1..], written))
  }

  // ---------------------------------------------------------------- a departure from the grammar

  /** KEY flow_node? (VALUE flow_node?)? as written down: an absent key takes no token. */
  function PairKeyAsWritten(td: seq<TagDirective>, toks: seq<Token>): Out {
    if toks == [] then FAIL
    else if toks[0].ValueToken? || EndsPair(toks[0]) then Emit(EMPTY_SCALAR, PairValue(td, toks))
    else PairKey(td, toks)
  }

  /**
   Where the written grammar or the parser completes a single pair, the two read it the same way
   exactly if the key is present, or is absent in one of two harmless forms: a lone ':' with no
   value behind it, or a ',' in front of the closing bracket.
   */
  lemma PairKeyDeparts(td: seq<TagDirective>, toks: seq<Token>)
    requires PairKeyAsWritten(td, toks).ok || PairKey(td, toks).ok
    ensures PairKey(td, toks) == PairKeyAsWritten(td, toks)
       <==> !(toks[0].ValueToken? || EndsPair(toks[0])) || Harmless(toks)
  {
    hide Node;
    if toks[0].ValueToken? || EndsPair(toks[0]) {
      if Harmless(toks) {
        HarmlessKeys(td, toks);
      } else if PairKeyAsWritten(td, toks).ok {
        AbsentKeyDeparts(td, toks);
      }
    }
  }

  lemma HarmlessKeys(td: seq<TagDirective>, toks: seq<Token>)
    requires Harmless(toks)
    ensures PairKey(td, toks) == PairKeyAsWritten(td, toks)
  {
    hide Node;
    var rest := toks[1..];
    if toks[0].ValueToken? {
      assert PairValue(td, toks) == Emit(EMPTY_SCALAR, PairEnd(td, rest));
      assert PairValue(td, rest) == Emit(EMPTY_SCALAR, PairEnd(td, rest));
    } else {
      assert PairValue(td, toks) == Emit(EMPTY_SCALAR, PairEnd(td, toks));
      assert PairEnd(td, toks) == Emit(MappingEnd, FlowSequence(td, false, toks));
      assert PairValue(td, rest) == Emit(EMPTY_SCALAR, PairEnd(td, rest));
      assert PairEnd(td, rest) == Emit(MappingEnd, FlowSequence(td, false, rest));
      assert FlowSequence(td, false, rest) == Out([SequenceEnd], rest[1..], true);
    }
  }

  lemma AbsentKeyDeparts(td: seq<TagDirective>, toks: seq<Token>)
    requires PairKeyAsWritten(td, toks).ok && (toks[0].ValueToken? || EndsPair(toks[0])) && !Harmless(toks)
    ensures PairKey(td, toks) != PairKeyAsWritten(td, toks)
  {
    hide Node;
    var rest := toks[1..];
    if toks[0].ValueToken? {
      NodeStart(td, rest);
      PairStopsAtNode(td, rest);
    } else {
      assert PairValue(td, toks) == Emit(EMPTY_SCALAR, PairEnd(td, toks));
      assert PairEnd(td, toks) == Emit(MappingEnd, FlowSequence(td, false, toks));
      if toks[0].FlowSequenceEndToken? {
        PairValueTakes(td, rest);
      } else {
        assert FlowSequence(td, false, toks) == FlowSequenceEntry(td, rest);
        if !rest[0].KeyToken? { NodeStart(td, rest); }
        PairStopsAtNode(td, rest);
      }
    }
  }

  lemma PairStopsAtNode(td: seq<TagDirective>, toks: seq<Token>)
    requires toks != [] && !toks[0].ValueToken? && !EndsPair(toks[0])
    ensures !PairValue(td, toks).ok
  {
    assert FlowSequence(td, false, toks) == FAIL;
    assert PairEnd(td, toks) == Emit(MappingEnd, FAIL);
  }

  lemma NodeStart(td: seq<TagDirective>, toks: seq<Token>)
    requires toks != [] && Node(td, toks, false, false).ok
    ensures !toks[0].ValueToken? && !EndsPair(toks[0])
  {
  }

  /** The rest of a pair includes the end of the sequence around it, so it takes some token. */
  lemma PairValueTakes(td: seq<TagDirective>, toks: seq<Token>)
    ensures PairValue(td, toks).ok ==> |PairValue(td, toks).rest| < |toks|
  {
    hide Node, FlowSequenceEntry;
    if toks != [] {
      PairEndTakes(td, toks);
      if |toks| > 1 {
        PairEndTakes(td, toks[1..]);
        PairEndTakes(td, Node(td, toks[1..], false, false).rest);
      }
    }
  }

  lemma PairEndTakes(td: seq<TagDirective>, toks: seq<Token>)
    ensures PairEnd(td, toks).ok ==> |PairEnd(td, toks).rest| < |toks|
  {
    hide Node, FlowSequenceEntry;
    if toks != [] && FlowSequence(td, false, toks).ok {
      assert toks[0].FlowSequenceEndToken? || toks[0].FlowEntryToken?;
    }
  }

  /** `[? : a]` is in the written grammar and is refused. */
  lemma PairKeyCounterexample()
    ensures var toks := [ValueToken, ScalarToken("a", Plain), FlowSequenceEndToken];
            PairKeyAsWritten([], toks).ok && !PairKey([], toks).ok
  {
    var toks := [ValueToken, ScalarToken("a", Plain), FlowSequenceEndToken];
    var rest := toks[1..];
    var n := Node([], rest, false, false);
    assert Properties(rest) == Props(None, None, rest);
    assert n == Content([], None, "", rest, false, false);
    assert n == Out([ScalarEvent(None, "", rest[0])], rest[1..], true);
    assert FlowSequence([], false, n.rest).ok;
    assert PairEnd([], n.rest).ok;
    assert PairKeyAsWritten([], toks).ok;
    PairStopsAtNode([], rest);
  }

  /** `[? : : a]` is refused by the written grammar, and is read: the first ':' is lost. */
  lemma PairKeyOtherCounterexample()
    ensures var toks := [ValueToken, ValueToken, ScalarToken("a", Plain), FlowSequenceEndToken];
            !PairKeyAsWritten([], toks).ok && PairKey([], toks).ok
  {
    var toks := [ValueToken, ValueToken, ScalarToken("a", Plain), FlowSequenceEndToken];
    var rest := toks[1..];
    var value := rest[1..];
    var n := Node([], value, false, false);
    assert Properties(value) == Props(None, None, value);
    assert n == Content([], None, "", value, false, false);
    assert n == Out([ScalarEvent(None, "", value[0])], value[1..], true);
    assert FlowSequence([], false, n.rest).ok;
    assert PairEnd([], n.rest).ok;
    if Node([], rest, false, false).ok { NodeStart([], rest); }
    assert PairValue([], toks) == Then(Node([], rest, false, false), PairEnd([], Node([], rest, false, false).rest));
  }
}
