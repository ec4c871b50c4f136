/**
 For every token list whatsoever, the events of the grammar run through the event
 automaton: a completed production is one whole node (or the rest of one collection),
 and an abandoned one is cut off at a point from which the stream could still be finished.
 */
module YamlNesting {
  import opened Wrappers
  import opened YamlEvents
  import opened YamlTokens
  import opened YamlGrammar

  /** A token as the scanner makes them: names of anchors and handles are well formed. */
  predicate TokenOk(t: Token) {
    match t
    case AliasToken(name) => AnchorOk(name)
    case AnchorToken(name) => AnchorOk(name)
    case TagDirectiveToken(handle, prefix) => DirectiveOk(TagDirective(handle, prefix))
    case _ => true
  }

  predicate Clean(toks: seq<Token>) {
    forall i | 0 <= i < |toks| :: TokenOk(toks[i])
  }

  predicate CleanOut(o: Out) {
    Clean(o.rest) && forall i | 0 <= i < |o.events| :: EventOk(o.events[i])
  }

  /**
   From `c` the events run, and lead to `d` if the production was completed; and clean tokens
   give events that can be emitted.
   */
  ghost predicate Nests(toks: seq<Token>, c: Config, o: Out, d: Config) {
    var r := Run(c, o.events);
    r.Some? && (o.ok ==> r.value == d) && (Clean(toks) ==> CleanOut(o))
  }

  lemma NestsEmit(toks: seq<Token>, c: Config, e: Event, m: Config, o: Out, d: Config)
    requires Step(c, e) == Some(m) && Nests(toks, m, o, d) && (Clean(toks) ==> EventOk(e))
    ensures Nests(toks, c, Emit(e, o), d)
  {
  }

  lemma NestsOne(toks: seq<Token>, c: Config, e: Event, d: Config, rest: seq<Token>)
    requires Step(c, e) == Some(d) && (Clean(toks) ==> EventOk(e) && Clean(rest))
    ensures Nests(toks, c, Out([e], rest, true), d)
  {
  }

  lemma NestsThen(toks: seq<Token>, c: Config, a: Out, m: Config, b: Out, d: Config)
    requires Nests(toks, c, a, m) && Nests(a.rest, m, b, d)
    ensures Nests(toks, c, Then(a, b), d)
  {
    RunAppend(c, a.events, b.events);
  }

  /** Inside the collection at `p`, whose ancestors are `open`. */
  ghost function Inside(open: seq<Place>, p: Place): (c: Config)
    ensures c.InDocument? && Complete(c.open) == InDocument(open + [Advance(p)])
    ensures p == InSequence ==> Step(c, SequenceEnd) == Some(Complete(open))
    ensures p == AtKey ==> Step(c, MappingEnd) == Some(Complete(open))
  {
    assert (open + [p])[..|open|] == open;
    InDocument(open + [p])
  }

  lemma {:induction false} NodeNests(open: seq<Place>, td: seq<TagDirective>, toks: seq<Token>, block: bool,
                                     indentless: bool)
    ensures Nests(toks, InDocument(open), Node(td, toks, block, indentless), Complete(open))
    decreases |toks|, 2
  {
    if toks != [] && toks[0].AliasToken? {
      NestsOne(toks, InDocument(open), Alias(toks[0].name), Complete(open), toks[1..]);
    } else {
      var p := Properties(toks);
      var tag := ResolveTag(td, p.tag);
      if p.rest != [] && tag.Some? {
        if Clean(toks) && |toks| > 1 { assert TokenOk(toks[0]) && TokenOk(toks[1]); }
        ContentNests(toks, open, td, p.anchor, tag.value, p.rest, block, indentless);
      }
    }
  }

  lemma {:induction false} ContentNests(whole: seq<Token>, open: seq<Place>, td: seq<TagDirective>,
                                        anchor: Option<string>, tag: string,
                                        toks: seq<Token>, block: bool, indentless: bool)
    requires toks != [] && (Clean(whole) ==> OptionalAnchorOk(anchor) && Clean(toks))
    ensures Nests(whole, InDocument(open), Content(td, anchor, tag, toks, block, indentless), Complete(open))
    decreases |toks|, 1, 1
  {
    hide IndentlessSequence, FlowSequence, FlowMappingKey, BlockSequence, BlockMappingKey;
    var t, c, d := toks[0], InDocument(open), Complete(open);
    if t.ScalarToken? && !(indentless && t.BlockEntryToken?) {
      NestsOne(whole, c, ScalarEvent(anchor, tag, t), d, toks[1..]);
    } else if StartsCollection(t, block, indentless) {
      CollectionNests(whole, open, td, anchor, tag, toks, block, indentless);
    } else if NonEmpty(anchor) || tag != "" {
      NestsOne(whole, c, Scalar(anchor, tag, "", tag == "", false, Plain), d, toks);
    }
  }

  lemma {:induction false} CollectionNests(whole: seq<Token>, open: seq<Place>, td: seq<TagDirective>,
                                           anchor: Option<string>, tag: string,
                                           toks: seq<Token>, block: bool, indentless: bool)
    requires toks != [] && (Clean(whole) ==> OptionalAnchorOk(anchor) && Clean(toks))
    requires StartsCollection(toks[0], block, indentless)
    ensures Nests(whole, InDocument(open), Content(td, anchor, tag, toks, block, indentless), Complete(open))
    decreases |toks|, 1, 0
  {
    hide IndentlessSequence, FlowSequence, FlowMappingKey, BlockSequence, BlockMappingKey, Nests, Complete, Emit;
    hide OptionalAnchorOk;
    var t := toks[0];
    var implicit := tag == "";
    if indentless && t.BlockEntryToken? {
      IndentlessNests(open, td, toks);
      NestsStart(whole, toks, open, SequenceStart(anchor, tag, implicit, false), IndentlessSequence(td, toks));
    } else if t.FlowSequenceStartToken? {
      FlowSequenceNests(open, td, true, toks[1..]);
      NestsStart(whole, toks[1..], open, SequenceStart(anchor, tag, implicit, true), FlowSequence(td, true, toks[1..]));
    } else if t.FlowMappingStartToken? {
      FlowMappingNests(open, td, true, toks[1..]);
      NestsStart(whole, toks[1..], open, MappingStart(anchor, tag, implicit, true),
                 FlowMappingKey(td, true, toks[1..]));
    } else if block && t.BlockSequenceStartToken? {
      BlockSequenceNests(open, td, toks[1..]);
      NestsStart(whole, toks[1..], open, SequenceStart(anchor, tag, implicit, false), BlockSequence(td, toks[1..]));
    } else {
      BlockKeyNests(open, td, toks[1..]);
      NestsStart(whole, toks[1..], open, MappingStart(anchor, tag, implicit, false), BlockMappingKey(td, toks[1..]));
    }
  }

  /** The start of a collection in front of its items. */
  lemma NestsStart(whole: seq<Token>, toks: seq<Token>, open: seq<Place>, e: Event, o: Out)
    requires (e.SequenceStart? || e.MappingStart?) && (Clean(whole) ==> OptionalAnchorOk(e.anchor) && Clean(toks))
    requires Nests(toks, Inside(open, if e.SequenceStart? then InSequence else AtKey), o, Complete(open))
    ensures Nests(whole, InDocument(open), Emit(e, o), Complete(open))
  {
    NestsEmit(whole, InDocument(open), e, Inside(open, if e.SequenceStart? then InSequence else AtKey), o,
              Complete(open));
  }

  lemma {:induction false} BlockSequenceNests(open: seq<Place>, td: seq<TagDirective>, toks: seq<Token>)
    ensures Nests(toks, Inside(open, InSequence), BlockSequence(td, toks), Complete(open))
    decreases |toks|, 0
  {
    var c := Inside(open, InSequence);
    if |toks| > 1 && toks[0].BlockEntryToken? {
      var t := toks[1..];
      if t[0].BlockEntryToken? || t[0].BlockEndToken? {
        BlockSequenceNests(open, td, t);
        NestsEmit(toks, c, EMPTY_SCALAR, c, BlockSequence(td, t), Complete(open));
      } else {
        var n := Node(td, t, true, false);
        NodeNests(c.open, td, t, true, false);
        BlockSequenceNests(open, td, n.rest);
        NestsThen(toks, c, n, c, BlockSequence(td, n.rest), Complete(open));
      }
    } else if toks != [] && toks[0].BlockEndToken? {
      NestsOne(toks, c, SequenceEnd, Complete(open), toks[1..]);
    }
  }

  lemma {:induction false} IndentlessNests(open: seq<Place>, td: seq<TagDirective>, toks: seq<Token>)
    ensures Nests(toks, Inside(open, InSequence), IndentlessSequence(td, toks), Complete(open))
    decreases |toks|, 0
  {
    var c := Inside(open, InSequence);
    if |toks| > 1 && toks[0].BlockEntryToken? {
      var t := toks[1..];
      if t[0].BlockEntryToken? || t[0].KeyToken? || t[0].ValueToken? || t[0].BlockEndToken? {
        IndentlessNests(open, td, t);
        NestsEmit(toks, c, EMPTY_SCALAR, c, IndentlessSequence(td, t), Complete(open));
      } else {
        var n := Node(td, t, true, false);
        NodeNests(c.open, td, t, true, false);
        IndentlessNests(open, td, n.rest);
        NestsThen(toks, c, n, c, IndentlessSequence(td, n.rest), Complete(open));
      }
    } else if toks != [] && !toks[0].BlockEntryToken? {
      NestsOne(toks, c, SequenceEnd, Complete(open), toks);
    }
  }

  lemma {:induction false} BlockKeyNests(open: seq<Place>, td: seq<TagDirective>, toks: seq<Token>)
    ensures Nests(toks, Inside(open, AtKey), BlockMappingKey(td, toks), Complete(open))
    decreases |toks|, 0
  {
    var c, v := Inside(open, AtKey), Inside(open, AtValue);
    if |toks| > 1 && toks[0].KeyToken? {
      var t := toks[1..];
      if EndsBlockEntry(t[0]) {
        BlockValueNests(open, td, t);
        NestsEmit(toks, c, EMPTY_SCALAR, v, BlockMappingValue(td, t), Complete(open));
      } else {
        var n := Node(td, t, true, true);
        NodeNests(c.open, td, t, true, true);
        BlockValueNests(open, td, n.rest);
        NestsThen(toks, c, n, v, BlockMappingValue(td, n.rest), Complete(open));
      }
    } else if toks != [] && toks[0].BlockEndToken? {
      NestsOne(toks, c, MappingEnd, Complete(open), toks[1..]);
    }
  }

  lemma {:induction false} BlockValueNests(open: seq<Place>, td: seq<TagDirective>, toks: seq<Token>)
    ensures Nests(toks, Inside(open, AtValue), BlockMappingValue(td, toks), Complete(open))
    decreases |toks|, 1
  {
    var v, c := Inside(open, AtValue), Inside(open, AtKey);
    if |toks| > 1 && toks[0].ValueToken? && !EndsBlockEntry(toks[1]) {
      var t := toks[1..];
      var n := Node(td, t, true, true);
      NodeNests(v.open, td, t, true, true);
      BlockKeyNests(open, td, n.rest);
      NestsThen(toks, v, n, c, BlockMappingKey(td, n.rest), Complete(open));
    } else if toks != [] && !(|toks| == 1 && toks[0].ValueToken?) {
      var t := if toks[0].ValueToken? then toks[1..] else toks;
      BlockKeyNests(open, td, t);
      NestsEmit(toks, v, EMPTY_SCALAR, c, BlockMappingKey(td, t), Complete(open));
    }
  }

  lemma {:induction false} FlowSequenceNests(open: seq<Place>, td: seq<TagDirective>, first: bool, toks: seq<Token>)
    ensures Nests(toks, Inside(open, InSequence), FlowSequence(td, first, toks), Complete(open))
    decreases |toks|, if first then 4 else 0
  {
    var c := Inside(open, InSequence);
    if toks != [] {
      if toks[0].FlowSequenceEndToken? {
        NestsOne(toks, c, SequenceEnd, Complete(open), toks[1..]);
      } else if first {
        FlowSequenceEntryNests(open, td, toks);
      } else if toks[0].FlowEntryToken? && |toks| > 1 {
        var t := toks[1..];
        if t[0].FlowSequenceEndToken? {
          NestsOne(toks, c, SequenceEnd, Complete(open), t[1..]);
        } else {
          FlowSequenceEntryNests(open, td, t);
        }
      }
    }
  }

  lemma {:induction false} FlowSequenceEntryNests(open: seq<Place>, td: seq<TagDirective>, toks: seq<Token>)
    requires toks != []
    ensures Nests(toks, Inside(open, InSequence), FlowSequenceEntry(td, toks), Complete(open))
    decreases |toks|, 3
  {
    var c := Inside(open, InSequence);
    if toks[0].KeyToken? {
      PairKeyNests(open, td, toks[1..]);
      NestsEmit(toks, c, MappingStart(None, "", true, true), Inside(c.open, AtKey), PairKey(td, toks[1..]),
                Complete(open));
    } else {
      var n := Node(td, toks, false, false);
      NodeNests(c.open, td, toks, false, false);
      FlowSequenceNests(open, td, false, n.rest);
      NestsThen(toks, c, n, c, FlowSequence(td, false, n.rest), Complete(open));
    }
  }

  /** A single pair is a mapping inside the flow sequence, and the sequence goes on after it. */
  lemma {:induction false} PairKeyNests(open: seq<Place>, td: seq<TagDirective>, toks: seq<Token>)
    ensures Nests(toks, Inside(Inside(open, InSequence).open, AtKey), PairKey(td, toks), Complete(open))
    decreases |toks|, 3
  {
    var s := Inside(open, InSequence);
    var c, v := Inside(s.open, AtKey), Inside(s.open, AtValue);
    if toks != [] {
      if toks[0].ValueToken? || EndsPair(toks[0]) {
        PairValueNests(open, td, toks[1..]);
        NestsEmit(toks, c, EMPTY_SCALAR, v, PairValue(td, toks[1..]), Complete(open));
      } else {
        var n := Node(td, toks, false, false);
        NodeNests(c.open, td, toks, false, false);
        PairValueNests(open, td, n.rest);
        NestsThen(toks, c, n, v, PairValue(td, n.rest), Complete(open));
      }
    }
  }

  lemma {:induction false} PairValueNests(open: seq<Place>, td: seq<TagDirective>, toks: seq<Token>)
    ensures Nests(toks, Inside(Inside(open, InSequence).open, AtValue), PairValue(td, toks), Complete(open))
    decreases |toks|, 2
  {
    var s := Inside(open, InSequence);
    var v, c := Inside(s.open, AtValue), Inside(s.open, AtKey);
    if |toks| > 1 && toks[0].ValueToken? && !EndsPair(toks[1]) {
      var t := toks[1..];
      var n := Node(td, t, false, false);
      NodeNests(v.open, td, t, false, false);
      PairEndNests(open, td, n.rest);
      NestsThen(toks, v, n, c, PairEnd(td, n.rest), Complete(open));
    } else if toks != [] && !(|toks| == 1 && toks[0].ValueToken?) {
      var t := if toks[0].ValueToken? then toks[1..] else toks;
      PairEndNests(open, td, t);
      NestsEmit(toks, v, EMPTY_SCALAR, c, PairEnd(td, t), Complete(open));
    }
  }

  lemma {:induction false} PairEndNests(open: seq<Place>, td: seq<TagDirective>, toks: seq<Token>)
    ensures Nests(toks, Inside(Inside(open, InSequence).open, AtKey), PairEnd(td, toks), Complete(open))
    decreases |toks|, 1
  {
    var s := Inside(open, InSequence);
    if toks != [] {
      FlowSequenceNests(open, td, false, toks);
      NestsEmit(toks, Inside(s.open, AtKey), MappingEnd, s, FlowSequence(td, false, toks), Complete(open));
    }
  }

  lemma {:induction false} FlowMappingNests(open: seq<Place>, td: seq<TagDirective>, first: bool, toks: seq<Token>)
    ensures Nests(toks, Inside(open, AtKey), FlowMappingKey(td, first, toks), Complete(open))
    decreases |toks|, if first then 4 else 0
  {
    var c := Inside(open, AtKey);
    if toks != [] {
      if toks[0].FlowMappingEndToken? {
        NestsOne(toks, c, MappingEnd, Complete(open), toks[1..]);
      } else if first {
        FlowMappingEntryNests(open, td, toks);
      } else if toks[0].FlowEntryToken? && |toks| > 1 {
        var t := toks[1..];
        if t[0].FlowMappingEndToken? {
          NestsOne(toks, c, MappingEnd, Complete(open), t[1..]);
        } else {
          FlowMappingEntryNests(open, td, t);
        }
      }
    }
  }

  lemma {:induction false} FlowMappingEntryNests(open: seq<Place>, td: seq<TagDirective>, toks: seq<Token>)
    requires toks != []
    ensures Nests(toks, Inside(open, AtKey), FlowMappingEntry(td, toks), Complete(open))
    decreases |toks|, 3
  {
    var c, v := Inside(open, AtKey), Inside(open, AtValue);
    if toks[0].KeyToken? {
      if |toks| > 1 {
        var t := toks[1..];
        if t[0].ValueToken? || EndsFlowEntry(t[0]) {
          FlowValueNests(open, td, false, t);
          NestsEmit(toks, c, EMPTY_SCALAR, v, FlowMappingValue(td, false, t), Complete(open));
        } else {
          var n := Node(td, t, false, false);
          NodeNests(c.open, td, t, false, false);
          FlowValueNests(open, td, false, n.rest);
          NestsThen(toks, c, n, v, FlowMappingValue(td, false, n.rest), Complete(open));
        }
      }
    } else {
      var n := Node(td, toks, false, false);
      NodeNests(c.open, td, toks, false, false);
      FlowValueNests(open, td, true, n.rest);
      NestsThen(toks, c, n, v, FlowMappingValue(td, true, n.rest), Complete(open));
    }
  }

  lemma {:induction false} FlowValueNests(open: seq<Place>, td: seq<TagDirective>, empty: bool, toks: seq<Token>)
    ensures Nests(toks, Inside(open, AtValue), FlowMappingValue(td, empty, toks), Complete(open))
    decreases |toks|, 1
  {
    var v, c := Inside(open, AtValue), Inside(open, AtKey);
    var value := !empty && toks != [] && toks[0].ValueToken?;
    if value && |toks| > 1 && !EndsFlowEntry(toks[1]) {
      var t := toks[1..];
      var n := Node(td, t, false, false);
      NodeNests(v.open, td, t, false, false);
      FlowMappingNests(open, td, false, n.rest);
      NestsThen(toks, v, n, c, FlowMappingKey(td, false, n.rest), Complete(open));
    } else if toks != [] && !(value && |toks| == 1) {
      var t := if value then toks[1..] else toks;
      FlowMappingNests(open, td, false, t);
      NestsEmit(toks, v, EMPTY_SCALAR, c, FlowMappingKey(td, false, t), Complete(open));
    }
  }

  lemma {:induction false} DocumentsNest(td: seq<TagDirective>, implicit: bool, all: seq<Token>)
    ensures Nests(all, BetweenDocuments, Documents(td, implicit, all), Ended)
    decreases |all|, if implicit then 5 else 3, 0
  {
    var toks := if implicit then all else SkipDocumentEnds(all);
    SkipKeepsClean(all);
    if toks != [] {
      DocumentsFromNest(td, implicit, toks);
    }
  }

  lemma {:induction false} SkipKeepsClean(toks: seq<Token>)
    ensures Clean(toks) ==> Clean(SkipDocumentEnds(toks))
  {
    if toks != [] { SkipKeepsClean(toks[1..]); }
  }

  lemma {:induction false} DocumentsFromNest(td: seq<TagDirective>, implicit: bool, toks: seq<Token>)
    requires toks != []
    ensures Nests(toks, BetweenDocuments, DocumentsFrom(td, implicit, toks), Ended)
    decreases |toks|, if implicit then 4 else 2, 2
  {
    if implicit && !IsDirective(toks[0]) && !toks[0].DocumentStartToken? && !toks[0].StreamEndToken? {
      var n := Node(WithDefaults(td), toks, true, false);
      NodeNests([], WithDefaults(td), toks, true, false);
      OneDocumentNests(toks, DocumentStart(None, [], false), n);
    } else if !toks[0].StreamEndToken? {
      var h := Directives(Header(None, [], td, toks));
      if h.Some? && h.value.rest[0].DocumentStartToken? {
        var n := DocumentContent(h.value.known, h.value.rest[1..]);
        ContentOfDocumentNests(h.value.known, h.value.rest[1..]);
        if Clean(toks) { HeaderOk(Header(None, [], td, toks)); }
        OneDocumentNests(toks, DocumentStart(h.value.version, h.value.directives, false), n);
      }
    } else {
      NestsOne(toks, BetweenDocuments, StreamEnd, Ended, toks[1..]);
    }
  }

  /** The directives of a document header: what was declared is known, once each, and well formed. */
  lemma {:induction false} HeaderOk(h: Header)
    requires h.version in {None, Some(Version(1, 1))} && Distinct(h.directives)
    requires forall i | 0 <= i < |h.directives| :: FindHandle(h.known, h.directives[i].handle).Some?
    requires Clean(h.rest) && forall i | 0 <= i < |h.directives| :: DirectiveOk(h.directives[i])
    ensures var r := Directives(h);
            r.Some? ==> EventOk(DocumentStart(r.value.version, r.value.directives, false)) && Clean(r.value.rest)
    decreases |h.rest|
  {
    if h.rest != [] {
      var t := h.rest[0];
      if t.VersionDirectiveToken? {
        if h.version.None? && t.major == 1 && t.minor == 1 {
          HeaderOk(h.(version := Some(Version(t.major, t.minor)), rest := h.rest[1..]));
        }
      } else if t.TagDirectiveToken? {
        var d := TagDirective(t.handle, t.prefix);
        if FindHandle(h.known, t.handle).None? {
          forall handle { FindHandleAppend(h.known, d, handle); }
          assert TokenOk(h.rest[0]);
          HeaderOk(h.(directives := h.directives + [d], known := h.known + [d], rest := h.rest[1..]));
        }
      }
    }
  }

  lemma {:induction false} FindHandleAppend(td: seq<TagDirective>, d: TagDirective, handle: string)
    ensures FindHandle(td, handle).Some? || d.handle == handle ==> FindHandle(td + [d], handle).Some?
  {
    if td != [] {
      FindHandleAppend(td[1..], d, handle);
      assert (td + [d])[1..] == td[1..] + [d];
    }
  }

  lemma {:induction false} OneDocumentNests(toks: seq<Token>, start: Event, n: Out)
    requires start.DocumentStart? && (Clean(toks) ==> EventOk(start)) && Nests(toks, InDocument([]), n, AfterRoot)
    ensures Nests(toks, BetweenDocuments, Emit(start, Then(n, EndOfDocument(n.rest))), Ended)
    decreases |n.rest|, 4, 1
  {
    EndOfDocumentNests(n.rest);
    NestsThen(toks, InDocument([]), n, AfterRoot, EndOfDocument(n.rest), Ended);
    NestsEmit(toks, BetweenDocuments, start, InDocument([]), Then(n, EndOfDocument(n.rest)), Ended);
  }

  lemma ContentOfDocumentNests(td: seq<TagDirective>, toks: seq<Token>)
    ensures Nests(toks, InDocument([]), DocumentContent(td, toks), AfterRoot)
  {
    NestsOne(toks, InDocument([]), EMPTY_SCALAR, AfterRoot, toks);
    NodeNests([], td, toks, true, false);
  }

  lemma {:induction false} EndOfDocumentNests(toks: seq<Token>)
    ensures Nests(toks, AfterRoot, EndOfDocument(toks), Ended)
    decreases |toks|, 3, 1
  {
    if toks != [] {
      var ended := toks[0].DocumentEndToken?;
      var t := if ended then toks[1..] else toks;
      DocumentsNest([], false, t);
      NestsEmit(toks, AfterRoot, DocumentEnd(!ended), BetweenDocuments, Documents([], false, t), Ended);
    }
  }

  /** Whatever the tokens, the events nest, and they form a whole stream if the parse succeeds. */
  lemma StreamNests(toks: seq<Token>)
    ensures Nests(toks, BeforeStream, Stream(toks), Ended)
  {
    if toks != [] && toks[0].StreamStartToken? {
      DocumentsNest([], true, toks[1..]);
      NestsEmit(toks, BeforeStream, StreamStart, BetweenDocuments, Documents([], true, toks[1..]), Ended);
    }
  }
}
