/**
 The parser against the grammar that is written down in its comments, for whole streams. The
 grammar is read in both ways side by side. They part where an entry of a block mapping has no
 key, and where a single pair of a flow sequence has none. Nowhere else, and for good: from
 there on one of them fails, or a closing bracket is lost that is never made up for.
 */
module YamlWritten {
  import opened Wrappers
  import opened YamlEvents
  import opened YamlTokens
  import opened YamlGrammar

  // ---------------------------------------------------------------- counting

  /** The closing brackets up to the end of the stream. */
  function Brackets(toks: seq<Token>): nat {
    if toks == [] || toks[0].StreamEndToken? then 0
    else (if toks[0].FlowSequenceEndToken? then 1 else 0) + Brackets(toks[1..])
  }

  function FlowStart(e: Event): nat {
    if e.SequenceStart? && e.flow then 1 else 0
  }

  /** The flow sequences that begin in a list of events. */
  function FlowStarts(es: seq<Event>): nat {
    if es == [] then 0 else FlowStart(es[0]) + FlowStarts(es[1..])
  }

  lemma {:induction false} FlowStartsAppend(a: seq<Event>, b: seq<Event>)
    ensures FlowStarts(a + b) == FlowStarts(a) + FlowStarts(b)
    decreases |a|
  {
    if a == [] {
      assert a + b == b;
    } else {
      FlowStartsAppend(a[1..], b);
      assert (a + b)[0] == a[0] && (a + b)[1..] == a[1..] + b;
    }
  }

  lemma FlowStartsCons(e: Event, es: seq<Event>)
    ensures FlowStarts([e] + es) == FlowStart(e) + FlowStarts(es)
  {
    assert ([e] + es)[1..] == es;
  }

  /** Brackets that a production takes beyond those of the sequences that begin in it, and the `k` that it closes. */
  function Surplus(toks: seq<Token>, o: Out, k: nat): int {
    Brackets(toks) - Brackets(o.rest) - FlowStarts(o.events) - k
  }

  /**
   One production in both readings. As written no bracket is lost; as coded some may be. If nothing is odd in the
   written reading they are the same; otherwise one of them fails, or a bracket is lost.
   */
  predicate Both(toks: seq<Token>, f: Out, w: Out, k: nat) {
    && (f.ok ==> Surplus(toks, f, k) >= 0) && (w.ok ==> Surplus(toks, w, k) == 0)
    && if !w.odd then f == w else !f.ok || !w.ok || Surplus(toks, f, k) > 0
  }

  lemma BothFail(toks: seq<Token>, k: nat)
    ensures Both(toks, FAIL, FAIL, k)
  {
  }

  lemma BothOne(toks: seq<Token>, e: Event, rest: seq<Token>, k: nat)
    requires Brackets(toks) == Brackets(rest) + FlowStart(e) + k
    ensures Both(toks, Out([e], rest, true), Out([e], rest, true), k)
  {
    FlowStartsCons(e, []);
    assert [e] + [] == [e];
  }

  lemma BothEmit(toks: seq<Token>, e: Event, f: Out, w: Out, k: nat)
    requires Both(toks, f, w, k + FlowStart(e))
    ensures Both(toks, Emit(e, f), Emit(e, w), k)
  {
    FlowStartsCons(e, f.events);
    FlowStartsCons(e, w.events);
  }

  /** Behind a token that both take. */
  lemma BothTake(toks: seq<Token>, f: Out, w: Out, k: nat)
    requires toks != [] && !toks[0].StreamEndToken? && !toks[0].FlowSequenceEndToken? && Both(toks[1..], f, w, k)
    ensures Both(toks, f, w, k)
  {
  }

  /** A node, and what follows it: from the same tokens on, if it is the same node in both readings. */
  lemma BothThen(toks: seq<Token>, nf: Out, nw: Out, f: Out, w: Out, k: nat)
    requires Both(toks, nf, nw, 0)
    requires (f.ok ==> Surplus(nf.rest, f, k) >= 0) && (w.ok ==> Surplus(nw.rest, w, k) == 0)
    requires nf == nw ==> Both(nf.rest, f, w, k)
    ensures Both(toks, Then(nf, f), Then(nw, w), k)
  {
    FlowStartsAppend(nf.events, f.events);
    FlowStartsAppend(nw.events, w.events);
  }

  // ---------------------------------------------------------------- nodes

  lemma PropertiesTake(toks: seq<Token>)
    ensures Brackets(Properties(toks).rest) == Brackets(toks)
  {
  }

  lemma {:induction false} NodeBoth(td: seq<TagDirective>, toks: seq<Token>, block: bool, indentless: bool)
    ensures Both(toks, Node(td, toks, block, indentless), Node(td, toks, block, indentless, true), 0)
    decreases |toks|, 2
  {
    hide Content, Both, Brackets;
    BothFail(toks, 0);
    if toks != [] {
      if toks[0].AliasToken? {
        BothOneMore(toks);
      } else {
        var p := Properties(toks);
        var tag := ResolveTag(td, p.tag);
        PropertiesTake(toks);
        if p.rest != [] && tag.Some? {
          ContentBoth(td, p.anchor, tag.value, p.rest, block, indentless);
          SameBrackets(toks, p.rest, Content(td, p.anchor, tag.value, p.rest, block, indentless),
                       Content(td, p.anchor, tag.value, p.rest, block, indentless, true), 0);
        }
      }
    }
  }

  lemma BothOneMore(toks: seq<Token>)
    requires toks != [] && toks[0].AliasToken?
    ensures Both(toks, Out([Alias(toks[0].name)], toks[1..], true), Out([Alias(toks[0].name)], toks[1..], true), 0)
  {
    BothOne(toks, Alias(toks[0].name), toks[1..], 0);
  }

  lemma SameBrackets(toks: seq<Token>, rest: seq<Token>, f: Out, w: Out, k: nat)
    requires Brackets(toks) == Brackets(rest) && Both(rest, f, w, k)
    ensures Both(toks, f, w, k)
  {
  }

  lemma {:induction false} ContentBoth(td: seq<TagDirective>, anchor: Option<string>, tag: string,
                                       toks: seq<Token>, block: bool, indentless: bool)
    requires toks != []
    ensures Both(toks, Content(td, anchor, tag, toks, block, indentless),
                 Content(td, anchor, tag, toks, block, indentless, true), 0)
    decreases |toks|, 1
  {
    hide Both, IndentlessSequence, FlowSequence, FlowMappingKey, BlockSequence, BlockMappingKey, Emit;
    var t, rest, implicit := toks[0], toks[1..], tag == "";
    BothFail(toks, 0);
    if indentless && t.BlockEntryToken? {
      IndentlessBoth(td, toks);
      BothEmit(toks, SequenceStart(anchor, tag, implicit, false),
               IndentlessSequence(td, toks), IndentlessSequence(td, toks, true), 0);
    } else if t.ScalarToken? {
      BothOne(toks, ScalarEvent(anchor, tag, t), rest, 0);
    } else if t.FlowSequenceStartToken? {
      FlowSequenceBoth(td, true, rest);
      var f, w := FlowSequence(td, true, rest), FlowSequence(td, true, rest, true);
      BothTake(toks, f, w, 1);
      BothEmit(toks, SequenceStart(anchor, tag, implicit, true), f, w, 0);
    } else if t.FlowMappingStartToken? {
      FlowMappingBoth(td, true, rest);
      var f, w := FlowMappingKey(td, true, rest), FlowMappingKey(td, true, rest, true);
      BothTake(toks, f, w, 0);
      BothEmit(toks, MappingStart(anchor, tag, implicit, true), f, w, 0);
    } else if block && t.BlockSequenceStartToken? {
      BlockSequenceBoth(td, rest);
      var f, w := BlockSequence(td, rest), BlockSequence(td, rest, true);
      BothTake(toks, f, w, 0);
      BothEmit(toks, SequenceStart(anchor, tag, implicit, false), f, w, 0);
    } else if block && t.BlockMappingStartToken? {
      BlockKeyBoth(td, rest);
      var f, w := BlockMappingKey(td, rest), BlockMappingKey(td, rest, true);
      BothTake(toks, f, w, 0);
      BothEmit(toks, MappingStart(anchor, tag, implicit, false), f, w, 0);
    } else if NonEmpty(anchor) || tag != "" {
      BothOne(toks, Scalar(anchor, tag, "", implicit, false, Plain), toks, 0);
    }
  }

  // ---------------------------------------------------------------- block collections

  lemma {:induction false} BlockSequenceBoth(td: seq<TagDirective>, toks: seq<Token>)
    ensures Both(toks, BlockSequence(td, toks), BlockSequence(td, toks, true), 0)
    decreases |toks|, 0
  {
    hide Both, Node, Emit, Then;
    BothFail(toks, 0);
    if toks != [] && toks[0].BlockEntryToken? && |toks| > 1 {
      var t := toks[1..];
      if t[0].BlockEntryToken? || t[0].BlockEndToken? {
        BlockSequenceBoth(td, t);
        BothEmit(t, EMPTY_SCALAR, BlockSequence(td, t), BlockSequence(td, t, true), 0);
      } else {
        var nf, nw := Node(td, t, true, false), Node(td, t, true, false, true);
        NodeBoth(td, t, true, false);
        BlockSequenceBoth(td, nf.rest);
        BlockSequenceBoth(td, nw.rest);
        BothNext(t, nf, nw, BlockSequence(td, nf.rest), BlockSequence(td, nf.rest, true),
                 BlockSequence(td, nw.rest), BlockSequence(td, nw.rest, true), 0);
      }
      BothTake(toks, BlockSequence(td, toks), BlockSequence(td, toks, true), 0);
    } else if toks != [] && toks[0].BlockEndToken? {
      BothOne(toks, SequenceEnd, toks[1..], 0);
    }
  }

  /** The same with the two continuations read in both ways from both places. */
  lemma BothNext(toks: seq<Token>, nf: Out, nw: Out, ff: Out, wf: Out, fw: Out, ww: Out, k: nat)
    requires Both(toks, nf, nw, 0) && Both(nf.rest, ff, wf, k) && Both(nw.rest, fw, ww, k)
    requires nf == nw ==> ff == fw && wf == ww
    ensures Both(toks, Then(nf, ff), Then(nw, ww), k)
  {
    BothThen(toks, nf, nw, ff, ww, k);
  }

  lemma {:induction false} IndentlessBoth(td: seq<TagDirective>, toks: seq<Token>)
    ensures Both(toks, IndentlessSequence(td, toks), IndentlessSequence(td, toks, true), 0)
    decreases |toks|, 0
  {
    hide Both, Node, Emit, Then;
    BothFail(toks, 0);
    if toks != [] && toks[0].BlockEntryToken? && |toks| > 1 {
      var t := toks[1..];
      if t[0].BlockEntryToken? || t[0].KeyToken? || t[0].ValueToken? || t[0].BlockEndToken? {
        IndentlessBoth(td, t);
        BothEmit(t, EMPTY_SCALAR, IndentlessSequence(td, t), IndentlessSequence(td, t, true), 0);
      } else {
        var nf, nw := Node(td, t, true, false), Node(td, t, true, false, true);
        NodeBoth(td, t, true, false);
        IndentlessBoth(td, nf.rest);
        IndentlessBoth(td, nw.rest);
        BothNext(t, nf, nw, IndentlessSequence(td, nf.rest), IndentlessSequence(td, nf.rest, true),
                 IndentlessSequence(td, nw.rest), IndentlessSequence(td, nw.rest, true), 0);
      }
      BothTake(toks, IndentlessSequence(td, toks), IndentlessSequence(td, toks, true), 0);
    } else if toks != [] && !toks[0].BlockEntryToken? {
      BothOne(toks, SequenceEnd, toks, 0);
    }
  }

  /** Where an entry begins with VALUE, the code fails. */
  lemma {:induction false} BlockKeyBoth(td: seq<TagDirective>, toks: seq<Token>)
    ensures Both(toks, BlockMappingKey(td, toks), BlockMappingKey(td, toks, true), 0)
    decreases |toks|, 1
  {
    hide Both, Node, Emit, Then, BlockMappingValue;
    BothFail(toks, 0);
    if toks != [] && toks[0].KeyToken? && |toks| > 1 {
      var t := toks[1..];
      if EndsBlockEntry(t[0]) {
        BlockValueBoth(td, t);
        BothEmit(t, EMPTY_SCALAR, BlockMappingValue(td, t), BlockMappingValue(td, t, true), 0);
      } else {
        var nf, nw := Node(td, t, true, true), Node(td, t, true, true, true);
        NodeBoth(td, t, true, true);
        BlockValueBoth(td, nf.rest);
        BlockValueBoth(td, nw.rest);
        BothNext(t, nf, nw, BlockMappingValue(td, nf.rest), BlockMappingValue(td, nf.rest, true),
                 BlockMappingValue(td, nw.rest), BlockMappingValue(td, nw.rest, true), 0);
      }
      BothTake(toks, BlockMappingKey(td, toks), BlockMappingKey(td, toks, true), 0);
    } else if toks != [] && toks[0].BlockEndToken? {
      BothOne(toks, MappingEnd, toks[1..], 0);
    } else if toks != [] && toks[0].ValueToken? {
      BlockValueBoth(td, toks);
      OnlyWritten(toks, BlockMappingValue(td, toks), BlockMappingValue(td, toks, true), 0);
    }
  }

  lemma OnlyWritten(toks: seq<Token>, f: Out, w: Out, k: nat)
    requires Both(toks, f, w, k)
    ensures Both(toks, FAIL, Emit(EMPTY_SCALAR, w).(odd := true), k)
  {
    FlowStartsCons(EMPTY_SCALAR, w.events);
  }

  lemma {:induction false} BlockValueBoth(td: seq<TagDirective>, toks: seq<Token>)
    ensures Both(toks, BlockMappingValue(td, toks), BlockMappingValue(td, toks, true), 0)
    decreases |toks|, if toks != [] && toks[0].ValueToken? then 0 else 2
  {
    hide Both, Node, Emit, Then, BlockMappingKey;
    BothFail(toks, 0);
    if toks != [] && !toks[0].ValueToken? {
      BlockKeyBoth(td, toks);
      BothEmit(toks, EMPTY_SCALAR, BlockMappingKey(td, toks), BlockMappingKey(td, toks, true), 0);
    } else if |toks| > 1 {
      var t := toks[1..];
      if EndsBlockEntry(t[0]) {
        BlockKeyBoth(td, t);
        BothEmit(t, EMPTY_SCALAR, BlockMappingKey(td, t), BlockMappingKey(td, t, true), 0);
      } else {
        var nf, nw := Node(td, t, true, true), Node(td, t, true, true, true);
        NodeBoth(td, t, true, true);
        BlockKeyBoth(td, nf.rest);
        BlockKeyBoth(td, nw.rest);
        BothNext(t, nf, nw, BlockMappingKey(td, nf.rest), BlockMappingKey(td, nf.rest, true),
                 BlockMappingKey(td, nw.rest), BlockMappingKey(td, nw.rest, true), 0);
      }
      BothTake(toks, BlockMappingValue(td, toks), BlockMappingValue(td, toks, true), 0);
    }
  }

  // ---------------------------------------------------------------- flow sequences

  lemma {:induction false} FlowSequenceBoth(td: seq<TagDirective>, first: bool, toks: seq<Token>)
    ensures Both(toks, FlowSequence(td, first, toks), FlowSequence(td, first, toks, true), 1)
    decreases |toks|, if first then 4 else 0
  {
    hide Both, FlowSequenceEntry;
    BothFail(toks, 1);
    if toks == [] {
    } else if toks[0].FlowSequenceEndToken? {
      BothOne(toks, SequenceEnd, toks[1..], 1);
    } else if first {
      FlowSequenceEntryBoth(td, toks);
    } else if toks[0].FlowEntryToken? && |toks| > 1 {
      var t := toks[1..];
      if t[0].FlowSequenceEndToken? {
        BothOne(t, SequenceEnd, t[1..], 1);
      } else {
        FlowSequenceEntryBoth(td, t);
      }
      BothTake(toks, FlowSequence(td, first, toks), FlowSequence(td, first, toks, true), 1);
    }
  }

  lemma {:induction false} FlowSequenceEntryBoth(td: seq<TagDirective>, toks: seq<Token>)
    requires toks != []
    ensures Both(toks, FlowSequenceEntry(td, toks), FlowSequenceEntry(td, toks, true), 1)
    decreases |toks|, 3
  {
    hide Both, Node, Emit, Then, PairKey, FlowSequence;
    if toks[0].KeyToken? {
      var t := toks[1..];
      PairKeyBoth(td, t);
      BothTake(toks, PairKey(td, t), PairKey(td, t, true), 1);
      BothEmit(toks, MappingStart(None, "", true, true), PairKey(td, t), PairKey(td, t, true), 1);
    } else {
      var nf, nw := Node(td, toks, false, false), Node(td, toks, false, false, true);
      NodeBoth(td, toks, false, false);
      FlowSequenceBoth(td, false, nf.rest);
      FlowSequenceBoth(td, false, nw.rest);
      BothNext(toks, nf, nw, FlowSequence(td, false, nf.rest), FlowSequence(td, false, nf.rest, true),
               FlowSequence(td, false, nw.rest), FlowSequence(td, false, nw.rest, true), 1);
    }
  }

  lemma {:induction false} PairKeyBoth(td: seq<TagDirective>, toks: seq<Token>)
    ensures Both(toks, PairKey(td, toks), PairKey(td, toks, true), 1)
    decreases |toks|, 3
  {
    hide Both, Node, Emit, Then, PairValue;
    BothFail(toks, 1);
    if toks == [] {
    } else if toks[0].ValueToken? || EndsPair(toks[0]) {
      PairValueBoth(td, toks);
      PairValueBoth(td, toks[1..]);
      AbsentKeyBoth(td, toks);
    } else {
      var nf, nw := Node(td, toks, false, false), Node(td, toks, false, false, true);
      NodeBoth(td, toks, false, false);
      PairValueBoth(td, nf.rest);
      PairValueBoth(td, nw.rest);
      BothNext(toks, nf, nw, PairValue(td, nf.rest), PairValue(td, nf.rest, true),
               PairValue(td, nw.rest), PairValue(td, nw.rest, true), 1);
    }
  }

  /** An absent key: the code goes on one token later. */
  lemma AbsentKeyBoth(td: seq<TagDirective>, toks: seq<Token>)
    requires toks != [] && (toks[0].ValueToken? || EndsPair(toks[0]))
    requires Both(toks, PairValue(td, toks), PairValue(td, toks, true), 1)
    requires Both(toks[1..], PairValue(td, toks[1..]), PairValue(td, toks[1..], true), 1)
    ensures Both(toks, PairKey(td, toks), PairKey(td, toks, true), 1)
  {
    hide PairValue;
    var rest := toks[1..];
    var f, w := PairValue(td, rest), PairValue(td, toks, true);
    FlowStartsCons(EMPTY_SCALAR, f.events);
    FlowStartsCons(EMPTY_SCALAR, w.events);
    if Harmless(toks) {
      HarmlessBoth(td, toks);
    } else if !toks[0].FlowSequenceEndToken? {
      OneFails(td, toks);
    }
  }

  lemma HarmlessBoth(td: seq<TagDirective>, toks: seq<Token>)
    requires Harmless(toks)
    ensures PairValue(td, toks[1..]) == PairValue(td, toks)
  {
    hide Node;
    var rest := toks[1..];
    if toks[0].ValueToken? {
      assert PairValue(td, toks) == Emit(EMPTY_SCALAR, PairEnd(td, rest));
      assert PairValue(td, rest) == Emit(EMPTY_SCALAR, PairEnd(td, rest));
    } else {
      assert PairValue(td, toks) == Emit(EMPTY_SCALAR, PairEnd(td, toks));
      assert PairEnd(td, toks) == Emit(MappingEnd, FlowSequence(td, false, toks));
      assert PairValue(td, rest) == Emit(EMPTY_SCALAR, PairEnd(td, rest));
      assert PairEnd(td, rest) == Emit(MappingEnd, FlowSequence(td, false, rest));
      assert FlowSequence(td, false, rest) == Out([SequenceEnd], rest[1..], true);
    }
  }

  /** A colon or a comma in the place of the key that is not harmless. */
  lemma OneFails(td: seq<TagDirective>, toks: seq<Token>)
    requires toks != [] && (toks[0].ValueToken? || toks[0].FlowEntryToken?) && !Harmless(toks)
    ensures !PairValue(td, toks[1..]).ok || !PairValue(td, toks, true).ok
  {
    hide Node;
    var rest := toks[1..];
    if rest != [] {
      if rest[0].ValueToken? || EndsPair(rest[0]) {
        NoNode(td, rest);
        if toks[0].FlowEntryToken? {
          assert FlowSequence(td, false, toks, true) == FlowSequenceEntry(td, rest, true);
          assert PairEnd(td, toks, true) == Emit(MappingEnd, FlowSequence(td, false, toks, true));
        }
      } else {
        PairStopsAtNode(td, rest);
      }
    }
  }

  lemma NoNode(td: seq<TagDirective>, toks: seq<Token>)
    requires toks != [] && (toks[0].ValueToken? || EndsPair(toks[0]))
    ensures !Node(td, toks, false, false, true).ok
  {
  }

  lemma {:induction false} PairValueBoth(td: seq<TagDirective>, toks: seq<Token>)
    ensures Both(toks, PairValue(td, toks), PairValue(td, toks, true), 1)
    decreases |toks|, 2
  {
    hide Both, Node, Emit, Then, PairEnd;
    BothFail(toks, 1);
    if toks == [] {
    } else if toks[0].ValueToken? {
      if |toks| > 1 {
        var t := toks[1..];
        if EndsPair(t[0]) {
          PairEndBoth(td, t);
          BothEmit(t, EMPTY_SCALAR, PairEnd(td, t), PairEnd(td, t, true), 1);
        } else {
          var nf, nw := Node(td, t, false, false), Node(td, t, false, false, true);
          NodeBoth(td, t, false, false);
          PairEndBoth(td, nf.rest);
          PairEndBoth(td, nw.rest);
          BothNext(t, nf, nw, PairEnd(td, nf.rest), PairEnd(td, nf.rest, true),
                   PairEnd(td, nw.rest), PairEnd(td, nw.rest, true), 1);
        }
        BothTake(toks, PairValue(td, toks), PairValue(td, toks, true), 1);
      }
    } else {
      PairEndBoth(td, toks);
      BothEmit(toks, EMPTY_SCALAR, PairEnd(td, toks), PairEnd(td, toks, true), 1);
    }
  }

  lemma {:induction false} PairEndBoth(td: seq<TagDirective>, toks: seq<Token>)
    ensures Both(toks, PairEnd(td, toks), PairEnd(td, toks, true), 1)
    decreases |toks|, 1
  {
    hide Both, FlowSequence;
    BothFail(toks, 1);
    if toks != [] {
      FlowSequenceBoth(td, false, toks);
      BothEmit(toks, MappingEnd, FlowSequence(td, false, toks), FlowSequence(td, false, toks, true), 1);
    }
  }

  // ---------------------------------------------------------------- flow mappings

  lemma {:induction false} FlowMappingBoth(td: seq<TagDirective>, first: bool, toks: seq<Token>)
    ensures Both(toks, FlowMappingKey(td, first, toks), FlowMappingKey(td, first, toks, true), 0)
    decreases |toks|, if first then 4 else 0
  {
    hide Both, FlowMappingEntry;
    BothFail(toks, 0);
    if toks == [] {
    } else if toks[0].FlowMappingEndToken? {
      BothOne(toks, MappingEnd, toks[1..], 0);
    } else if first {
      FlowMappingEntryBoth(td, toks);
    } else if toks[0].FlowEntryToken? && |toks| > 1 {
      var t := toks[1..];
      if t[0].FlowMappingEndToken? {
        BothOne(t, MappingEnd, t[1..], 0);
      } else {
        FlowMappingEntryBoth(td, t);
      }
      BothTake(toks, FlowMappingKey(td, first, toks), FlowMappingKey(td, first, toks, true), 0);
    }
  }

  lemma {:induction false} FlowMappingEntryBoth(td: seq<TagDirective>, toks: seq<Token>)
    requires toks != []
    ensures Both(toks, FlowMappingEntry(td, toks), FlowMappingEntry(td, toks, true), 0)
    decreases |toks|, 3
  {
    hide Both, Node, Emit, Then, FlowMappingValue;
    BothFail(toks, 0);
    if toks[0].KeyToken? {
      if |toks| > 1 {
        var t := toks[1..];
        if t[0].ValueToken? || EndsFlowEntry(t[0]) {
          FlowValueBoth(td, false, t);
          BothEmit(t, EMPTY_SCALAR, FlowMappingValue(td, false, t), FlowMappingValue(td, false, t, true), 0);
        } else {
          EntryNodeBoth(td, false, t);
        }
        BothTake(toks, FlowMappingEntry(td, toks), FlowMappingEntry(td, toks, true), 0);
      }
    } else {
      EntryNodeBoth(td, true, toks);
    }
  }

  lemma {:induction false} EntryNodeBoth(td: seq<TagDirective>, empty: bool, toks: seq<Token>)
    requires toks != []
    ensures var nf, nw := Node(td, toks, false, false), Node(td, toks, false, false, true);
            Both(toks, Then(nf, FlowMappingValue(td, empty, nf.rest)),
                 Then(nw, FlowMappingValue(td, empty, nw.rest, true)), 0)
    decreases |toks|, 3, 0
  {
    hide Both, Node, Emit, Then, FlowMappingValue;
    var nf, nw := Node(td, toks, false, false), Node(td, toks, false, false, true);
    NodeBoth(td, toks, false, false);
    FlowValueBoth(td, empty, nf.rest);
    FlowValueBoth(td, empty, nw.rest);
    BothNext(toks, nf, nw, FlowMappingValue(td, empty, nf.rest), FlowMappingValue(td, empty, nf.rest, true),
             FlowMappingValue(td, empty, nw.rest), FlowMappingValue(td, empty, nw.rest, true), 0);
  }

  lemma {:induction false} FlowValueBoth(td: seq<TagDirective>, empty: bool, toks: seq<Token>)
    ensures Both(toks, FlowMappingValue(td, empty, toks), FlowMappingValue(td, empty, toks, true), 0)
    decreases |toks|, 1
  {
    hide Both, Node, Emit, Then, FlowMappingKey;
    BothFail(toks, 0);
    if toks == [] {
    } else if !empty && toks[0].ValueToken? {
      if |toks| > 1 {
        var t := toks[1..];
        if EndsFlowEntry(t[0]) {
          FlowMappingBoth(td, false, t);
          BothEmit(t, EMPTY_SCALAR, FlowMappingKey(td, false, t), FlowMappingKey(td, false, t, true), 0);
        } else {
          var nf, nw := Node(td, t, false, false), Node(td, t, false, false, true);
          NodeBoth(td, t, false, false);
          FlowMappingBoth(td, false, nf.rest);
          FlowMappingBoth(td, false, nw.rest);
          BothNext(t, nf, nw, FlowMappingKey(td, false, nf.rest), FlowMappingKey(td, false, nf.rest, true),
                   FlowMappingKey(td, false, nw.rest), FlowMappingKey(td, false, nw.rest, true), 0);
        }
        BothTake(toks, FlowMappingValue(td, empty, toks), FlowMappingValue(td, empty, toks, true), 0);
      }
    } else {
      FlowMappingBoth(td, false, toks);
      BothEmit(toks, EMPTY_SCALAR, FlowMappingKey(td, false, toks), FlowMappingKey(td, false, toks, true), 0);
    }
  }

  // ---------------------------------------------------------------- documents

  /** The same for what reaches to the end of the stream. */
  predicate BothEnd(toks: seq<Token>, f: Out, w: Out) {
    && (f.ok ==> Brackets(toks) >= FlowStarts(f.events)) && (w.ok ==> Brackets(toks) == FlowStarts(w.events))
    && if !w.odd then f == w else !f.ok || !w.ok || Brackets(toks) > FlowStarts(f.events)
  }

  lemma EndFail(toks: seq<Token>)
    ensures BothEnd(toks, FAIL, FAIL)
  {
  }

  lemma EndEmit(toks: seq<Token>, e: Event, f: Out, w: Out)
    requires BothEnd(toks, f, w) && FlowStart(e) == 0
    ensures BothEnd(toks, Emit(e, f), Emit(e, w))
  {
    FlowStartsCons(e, f.events);
    FlowStartsCons(e, w.events);
  }

  lemma EndLater(toks: seq<Token>, rest: seq<Token>, f: Out, w: Out)
    requires Brackets(toks) == Brackets(rest) && BothEnd(rest, f, w)
    ensures BothEnd(toks, f, w)
  {
  }

  lemma EndNext(toks: seq<Token>, nf: Out, nw: Out, ff: Out, wf: Out, fw: Out, ww: Out)
    requires Both(toks, nf, nw, 0) && BothEnd(nf.rest, ff, wf) && BothEnd(nw.rest, fw, ww)
    requires nf == nw ==> ff == fw && wf == ww
    ensures BothEnd(toks, Then(nf, ff), Then(nw, ww))
  {
    FlowStartsAppend(nf.events, ff.events);
    FlowStartsAppend(nw.events, ww.events);
  }

  lemma {:induction false} DirectivesTake(h: Header)
    ensures Directives(h).Some? ==> Brackets(Directives(h).value.rest) == Brackets(h.rest)
    decreases |h.rest|
  {
    if h.rest != [] {
      match h.rest[0] {
        case VersionDirectiveToken(major, minor) =>
          DirectivesTake(h.(version := Some(Version(major, minor)), rest := h.rest[1..]));
        case TagDirectiveToken(handle, prefix) =>
          var d := TagDirective(handle, prefix);
          DirectivesTake(h.(directives := h.directives + [d], known := h.known + [d], rest := h.rest[1..]));
        case _ =>
      }
    }
  }

  lemma {:induction false} SkipTakes(toks: seq<Token>)
    ensures Brackets(SkipDocumentEnds(toks)) == Brackets(toks)
  {
    if toks != [] && toks[0].DocumentEndToken? { SkipTakes(toks[1..]); }
  }

  lemma {:induction false} DocumentsBoth(td: seq<TagDirective>, implicit: bool, all: seq<Token>)
    ensures BothEnd(all, Documents(td, implicit, all), Documents(td, implicit, all, true))
    decreases |all|, if implicit then 5 else 3, 0
  {
    hide BothEnd, DocumentsFrom, Brackets;
    var toks := if implicit then all else SkipDocumentEnds(all);
    SkipTakes(all);
    EndFail(all);
    if toks != [] {
      DocumentsFromBoth(td, implicit, toks);
      EndLater(all, toks, DocumentsFrom(td, implicit, toks), DocumentsFrom(td, implicit, toks, true));
    }
  }

  lemma {:induction false} DocumentsFromBoth(td: seq<TagDirective>, implicit: bool, toks: seq<Token>)
    requires toks != []
    ensures BothEnd(toks, DocumentsFrom(td, implicit, toks), DocumentsFrom(td, implicit, toks, true))
    decreases |toks|, if implicit then 4 else 2
  {
    hide Both, BothEnd, Node, Emit, Then, DocumentContent, EndOfDocument, Directives;
    EndFail(toks);
    if implicit && !IsDirective(toks[0]) && !toks[0].DocumentStartToken? && !toks[0].StreamEndToken? {
      var nf, nw := Node(WithDefaults(td), toks, true, false), Node(WithDefaults(td), toks, true, false, true);
      NodeBoth(WithDefaults(td), toks, true, false);
      OneDocumentBoth(toks, DocumentStart(None, [], false), nf, nw);
    } else if !toks[0].StreamEndToken? {
      var h := Directives(Header(None, [], td, toks));
      DirectivesTake(Header(None, [], td, toks));
      if h.Some? && h.value.rest[0].DocumentStartToken? {
        var rest := h.value.rest[1..];
        var nf, nw := DocumentContent(h.value.known, rest), DocumentContent(h.value.known, rest, true);
        ContentOfDocumentBoth(h.value.known, rest);
        OneDocumentBoth(rest, DocumentStart(h.value.version, h.value.directives, false), nf, nw);
        EndLater(toks, rest, DocumentsFrom(td, implicit, toks), DocumentsFrom(td, implicit, toks, true));
      }
    } else {
      StreamEnds(toks);
    }
  }

  lemma StreamEnds(toks: seq<Token>)
    requires toks != [] && toks[0].StreamEndToken?
    ensures BothEnd(toks, Out([StreamEnd], toks[1..], true), Out([StreamEnd], toks[1..], true))
  {
    FlowStartsCons(StreamEnd, []);
    assert [StreamEnd] + [] == [StreamEnd];
  }

  lemma {:induction false} OneDocumentBoth(toks: seq<Token>, start: Event, nf: Out, nw: Out)
    requires start.DocumentStart? && Both(toks, nf, nw, 0) && |nf.rest| <= |toks| && |nw.rest| <= |toks|
    ensures BothEnd(toks, Emit(start, Then(nf, EndOfDocument(nf.rest))),
                    Emit(start, Then(nw, EndOfDocument(nw.rest, true))))
    decreases |toks|, 3, 2
  {
    hide Both, BothEnd, Emit, Then, EndOfDocument;
    EndOfDocumentBoth(nf.rest);
    EndOfDocumentBoth(nw.rest);
    EndNext(toks, nf, nw, EndOfDocument(nf.rest), EndOfDocument(nf.rest, true),
            EndOfDocument(nw.rest), EndOfDocument(nw.rest, true));
    EndEmit(toks, start, Then(nf, EndOfDocument(nf.rest)), Then(nw, EndOfDocument(nw.rest, true)));
  }

  lemma ContentOfDocumentBoth(td: seq<TagDirective>, toks: seq<Token>)
    ensures Both(toks, DocumentContent(td, toks), DocumentContent(td, toks, true), 0)
  {
    hide Both, Node;
    BothFail(toks, 0);
    BothOne(toks, EMPTY_SCALAR, toks, 0);
    NodeBoth(td, toks, true, false);
  }

  lemma {:induction false} EndOfDocumentBoth(toks: seq<Token>)
    ensures BothEnd(toks, EndOfDocument(toks), EndOfDocument(toks, true))
    decreases |toks|, 3, 1
  {
    hide BothEnd, Documents, Emit;
    EndFail(toks);
    if toks != [] {
      var rest := if toks[0].DocumentEndToken? then toks[1..] else toks;
      DocumentsBoth([], false, rest);
      var f, w := Documents([], false, rest), Documents([], false, rest, true);
      EndLater(toks, rest, f, w);
      EndEmit(toks, DocumentEnd(!toks[0].DocumentEndToken?), f, w);
    }
  }

  /** The same events, and the same success. */
  predicate SameReading(a: Out, b: Out) {
    a.events == b.events && a.ok == b.ok
  }

  /**
   For every list of tokens: if in the written reading every entry of a block mapping has its key, and every single
   pair of a flow sequence has one or lacks it harmlessly, the code reads the same. And where either of the two readings
   is complete, the code reads the same only then.
   */
  lemma StreamDeparts(toks: seq<Token>)
    ensures !Stream(toks, true).odd ==> Stream(toks) == Stream(toks, true)
    ensures Stream(toks).ok || Stream(toks, true).ok ==>
              (SameReading(Stream(toks), Stream(toks, true)) <==> !Stream(toks, true).odd)
  {
    hide Documents;
    if toks != [] && toks[0].StreamStartToken? {
      var rest := toks[1..];
      var f, w := Documents([], true, rest), Documents([], true, rest, true);
      DocumentsBoth([], true, rest);
      EndEmit(rest, StreamStart, f, w);
      assert Stream(toks) == Emit(StreamStart, f) && Stream(toks, true) == Emit(StreamStart, w);
    }
  }

  const KEYLESS := [StreamStartToken, BlockMappingStartToken, ValueToken, ScalarToken("a", Plain), BlockEndToken,
                    StreamEndToken]

  lemma KeylessMapping(td: seq<TagDirective>)
    ensures var n := Node(td, KEYLESS[1..], true, false, true); n.ok && n.odd && n.rest == KEYLESS[5..]
    ensures !Node(td, KEYLESS[1..], true, false).ok
  {
    var toks, scalar := KEYLESS[2..], KEYLESS[3..];
    var n := Node(td, scalar, true, true, true);
    assert Properties(scalar) == Props(None, None, scalar);
    assert n == Content(td, None, "", scalar, true, true, true);
    assert n == Out([ScalarEvent(None, "", scalar[0])], scalar[1..], true);
    assert scalar[1..] == KEYLESS[4..] && KEYLESS[4..][1..] == KEYLESS[5..];
    assert BlockMappingKey(td, KEYLESS[4..], true) == Out([MappingEnd], KEYLESS[5..], true);
    assert toks[1..] == scalar;
    var v := BlockMappingValue(td, toks, true);
    assert v == Then(n, BlockMappingKey(td, KEYLESS[4..], true));
    assert BlockMappingKey(td, toks, true) == Emit(EMPTY_SCALAR, v).(odd := true);
    assert BlockMappingKey(td, toks) == FAIL;
    assert KEYLESS[1..][1..] == toks && Properties(KEYLESS[1..]) == Props(None, None, KEYLESS[1..]);
  }

  /** `: a` is in the written grammar and is refused. */
  lemma BlockMappingCounterexample()
    ensures Stream(KEYLESS, true).ok && !Stream(KEYLESS).ok
  {
    hide Node;
    var rest, end := KEYLESS[1..], KEYLESS[5..];
    KeylessMapping(WithDefaults([]));
    assert SkipDocumentEnds(end) == end;
    assert Documents([], false, end, true).ok;
    assert EndOfDocument(end, true).ok;
    assert DocumentsFrom([], true, rest, true).ok;
    assert !DocumentsFrom([], true, rest).ok;
  }
}
