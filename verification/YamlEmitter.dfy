/**
 The emitter: a second pushdown automaton, fed through a queue that holds events back until
 enough of them are known to choose a layout. The text that is written is left out, so the
 choices that depend on it (line width, line breaks inside a scalar) are left open; whatever
 they are, the emitter takes an event exactly if the automaton of event streams does.
 */
module YamlEmitter {
  import opened Wrappers
  import opened YamlEvents
  import G = YamlGrammar
  import N = YamlNesting
  import T = YamlTokens

  datatype State =
    | StreamStartState
    | FirstDocumentStartState
    | DocumentStartState
    | DocumentContentState
    | DocumentEndState
    | FlowSequenceFirstItemState
    | FlowSequenceItemState
    | FlowMappingFirstKeyState
    | FlowMappingKeyState
    | FlowMappingSimpleValueState
    | FlowMappingValueState
    | BlockSequenceFirstItemState
    | BlockSequenceItemState
    | BlockMappingFirstKeyState
    | BlockMappingKeyState
    | BlockMappingSimpleValueState
    | BlockMappingValueState
    | EndState

  // ---------------------------------------------------------------- the queue

  /** How many events must follow before a start event is written. */
  function Lookahead(e: Event): nat {
    if e.DocumentStart? then 1 else if e.SequenceStart? then 2 else if e.MappingStart? then 3 else 0
  }

  function LevelChange(e: Event): int {
    if e.StreamStart? || e.DocumentStart? || e.SequenceStart? || e.MappingStart? then 1
    else if e.StreamEnd? || e.DocumentEnd? || e.SequenceEnd? || e.MappingEnd? then -1
    else 0
  }

  /** Starting from `level`, the nesting level comes back to zero within `q`. */
  predicate Closes(q: seq<Event>, level: int) {
    q != [] && (level + LevelChange(q[0]) == 0 || Closes(q[1..], level + LevelChange(q[0])))
  }

  predicate NeedMore(q: seq<Event>) {
    q == [] || (Lookahead(q[0]) > 0 && |q| <= Lookahead(q[0]) && !Closes(q, 0))
  }

  /** The start of a collection is not written before it is known whether the collection is empty. */
  lemma EmptyKnown(q: seq<Event>)
    requires !NeedMore(q) && (q[0].SequenceStart? || q[0].MappingStart?)
    ensures |q| >= 2
  {
    if |q| == 1 { assert !Closes(q[1..], 1); }
  }

  /** The first position from which the rest of `es` must wait. */
  function Settled(es: seq<Event>, k: nat): (n: nat)
    requires k <= |es|
    ensures k <= n <= |es|
    ensures NeedMore(es[n..])
    ensures forall i | k <= i < n :: !NeedMore(es[i..])
    decreases |es| - k
  {
    if NeedMore(es[k..]) then k else Settled(es, k + 1)
  }

  lemma SettledNext(es: seq<Event>, k: nat)
    requires k < |es| && !NeedMore(es[k..])
    ensures Settled(es, k) == Settled(es, k + 1)
  {
  }

  lemma SettledHere(es: seq<Event>, k: nat)
    requires k <= |es| && NeedMore(es[k..])
    ensures Settled(es, k) == k
  {
  }

  /** Nesting depth of a configuration; events change it by their level. */
  ghost function Depth(c: Config): nat {
    match c
    case BeforeStream => 0
    case BetweenDocuments => 1
    case InDocument(open) => 2 + |open|
    case AfterRoot => 2
    case Ended => 0
  }

  lemma DepthStep(c: Config, e: Event)
    requires Step(c, e).Some?
    ensures Depth(Step(c, e).value) == Depth(c) + LevelChange(e)
  {
  }

  /** On the way to the end of the stream every level is left again. */
  lemma {:induction false} ClosesBeforeEnd(c: Config, q: seq<Event>, level: nat)
    requires Run(c, q) == Some(Ended) && 0 < level <= Depth(c)
    ensures Closes(q, level)
    decreases |q|
  {
    if q != [] {
      DepthStep(c, q[0]);
      if level + LevelChange(q[0]) != 0 {
        ClosesBeforeEnd(Step(c, q[0]).value, q[1..], level + LevelChange(q[0]));
      }
    }
  }

  lemma NotHeldBack(es: seq<Event>, n: nat)
    requires Run(BeforeStream, es) == Some(Ended) && n < |es|
    ensures !NeedMore(es[n..])
  {
    RunPrefix(BeforeStream, es, n);
    var c := Run(BeforeStream, es[..n]).value;
    var q := es[n..];
    if Lookahead(q[0]) > 0 {
      DepthStep(c, q[0]);
      ClosesBeforeEnd(Step(c, q[0]).value, q[1..], 1);
    }
  }

  /** When the stream is complete, nothing of it is held back. */
  lemma NothingHeldBack(es: seq<Event>, k: nat)
    requires Run(BeforeStream, es) == Some(Ended) && k <= |es|
    ensures Settled(es, k) == |es|
  {
    if Settled(es, k) < |es| {
      NotHeldBack(es, Settled(es, k));
      assert false;
    }
  }

  /**
   Every stream that the parser makes of clean tokens is one the emitter takes: no event of it,
   nor of any part of it, can be refused, and a whole one is written to the last event.
   */
  lemma ParserOutputIsEmitted(toks: seq<T.Token>, k: nat)
    requires N.Clean(toks) && k <= |G.Stream(toks).events|
    ensures var es := G.Stream(toks).events;
            && Run(BeforeStream, es[..k]).Some?
            && (forall i | 0 <= i < k :: EventOk(es[i]))
            && (G.Stream(toks).ok ==> Settled(es, 0) == |es|)
  {
    var es := G.Stream(toks).events;
    N.StreamNests(toks);
    RunPrefix(BeforeStream, es, k);
    if G.Stream(toks).ok { NothingHeldBack(es, 0); }
  }

  // ---------------------------------------------------------------- what a state stands for

  predicate IsFlow(s: State) {
    s.FlowSequenceFirstItemState? || s.FlowSequenceItemState? || s.FlowMappingFirstKeyState? ||
    s.FlowMappingKeyState? || s.FlowMappingSimpleValueState? || s.FlowMappingValueState?
  }

  predicate IsFirst(s: State) {
    s.FlowSequenceFirstItemState? || s.FlowMappingFirstKeyState? ||
    s.BlockSequenceFirstItemState? || s.BlockMappingFirstKeyState?
  }

  predicate IsOuter(s: State) {
    s.StreamStartState? || s.FirstDocumentStartState? || s.DocumentStartState? ||
    s.DocumentContentState? || s.DocumentEndState? || s.EndState?
  }

  /** The place in the innermost collection while the state is current. */
  function PlaceOf(s: State): Place
    requires !IsOuter(s)
  {
    match s
    case FlowSequenceFirstItemState => InSequence
    case FlowSequenceItemState => InSequence
    case BlockSequenceFirstItemState => InSequence
    case BlockSequenceItemState => InSequence
    case FlowMappingFirstKeyState => AtKey
    case FlowMappingKeyState => AtKey
    case BlockMappingFirstKeyState => AtKey
    case BlockMappingKeyState => AtKey
    case FlowMappingSimpleValueState => AtValue
    case FlowMappingValueState => AtValue
    case BlockMappingSimpleValueState => AtValue
    case BlockMappingValueState => AtValue
  }

  predicate Waiting(s: State) {
    !IsOuter(s) && !IsFirst(s)
  }

  /** The document end at the bottom, states that wait for a node above it. */
  predicate StackOk(states: seq<State>) {
    && states != [] && states[0] == DocumentEndState
    && forall i | 1 <= i < |states| :: Waiting(states[i])
  }

  /** A waiting state takes over when the node is complete, so its place is one step behind. */
  ghost function Places(states: seq<State>): (ps: seq<Place>)
    requires StackOk(states)
    ensures |ps| == |states| - 1
  {
    if |states| == 1 then []
    else Places(states[..|states| - 1]) + [Advance(PlaceOf(states[|states| - 1]))]
  }

  ghost function ConfigOf(states: seq<State>, s: State): Config
    requires IsOuter(s) || StackOk(states)
  {
    match s
    case StreamStartState => BeforeStream
    case FirstDocumentStartState => BetweenDocuments
    case DocumentStartState => BetweenDocuments
    case DocumentContentState => InDocument([])
    case DocumentEndState => AfterRoot
    case EndState => Ended
    case _ => InDocument(Places(states) + [PlaceOf(s)])
  }

  lemma ConfigPush(states: seq<State>, s: State)
    requires StackOk(states) && Waiting(s)
    ensures StackOk(states + [s])
    ensures Places(states + [s]) == Places(states) + [Advance(PlaceOf(s))]
    ensures FlowCount(states + [s]) == FlowCount(states) + (if IsFlow(s) then 1 else 0)
  {
  }

  /** Completing a node hands over to the state on top of the stack. */
  lemma ConfigPop(states: seq<State>)
    requires StackOk(states)
    ensures var outer, s := states[..|states| - 1], states[|states| - 1];
            && (IsOuter(s) || StackOk(outer))
            && (IsOuter(s) ==> outer == [])
            && Complete(Places(states)) == ConfigOf(outer, s)
  {
  }

  function FlowCount(states: seq<State>): nat {
    if states == [] then 0
    else FlowCount(states[..|states| - 1]) + if IsFlow(states[|states| - 1]) then 1 else 0
  }

  /** Nothing but flow collections inside a flow collection. */
  predicate FlowInside(stack: seq<State>) {
    forall i, j | 1 <= i < j < |stack| && IsFlow(stack[i]) :: IsFlow(stack[j])
  }

  lemma FlowCountZero(states: seq<State>)
    ensures FlowCount(states) == 0 <==> forall i | 0 <= i < |states| :: !IsFlow(states[i])
  {
  }

  // ---------------------------------------------------------------- tags

  /** The first directive whose prefix the tag begins with. */
  predicate FirstPrefix(ds: seq<TagDirective>, tag: string, i: nat) {
    i < |ds| && ds[i].prefix <= tag && forall j | 0 <= j < i :: !(ds[j].prefix <= tag)
  }

  /** A tag is written as the handle of that directive and what follows its prefix, or else in full. */
  ghost predicate TagParts(ds: seq<TagDirective>, tag: string, handle: string, suffix: string) {
    if exists i: nat :: FirstPrefix(ds, tag, i) then
      exists i: nat :: FirstPrefix(ds, tag, i) && handle == ds[i].handle && ds[i].prefix + suffix == tag
    else handle == "" && suffix == tag
  }

  predicate Written(canonical: bool, e: Event) {
    match e
    case Scalar(_, tag, _, implicit, quotedImplicit, _) => tag != "" && (canonical || (!implicit && !quotedImplicit))
    case SequenceStart(_, tag, implicit, _) => tag != "" && (canonical || !implicit)
    case MappingStart(_, tag, implicit, _) => tag != "" && (canonical || !implicit)
    case _ => false
  }

  /** The anchor or alias that is written with an event. */
  function AnchorWritten(e: Event): Option<string> {
    match e
    case Alias(name) => Some(name)
    case Scalar(anchor, _, _, _, _, _) => NotEmpty(anchor)
    case SequenceStart(anchor, _, _, _) => NotEmpty(anchor)
    case MappingStart(anchor, _, _, _) => NotEmpty(anchor)
    case _ => None
  }

  function NotEmpty(anchor: Option<string>): Option<string> {
    if anchor == Some("") then None else anchor
  }

  lemma {:induction false} FindOwn(ds: seq<TagDirective>, i: nat)
    requires Distinct(ds) && i < |ds|
    ensures G.FindHandle(ds, ds[i].handle) == Some(ds[i].prefix)
    decreases |ds|
  {
    if i > 0 {
      assert ds[0].handle != ds[i].handle;
      assert Distinct(ds[1..]) by { assert forall j | 0 <= j < |ds| - 1 :: ds[1..][j] == ds[j + 1]; }
      FindOwn(ds[1..], i - 1);
    }
  }

  /** The parser makes the same tag of these parts, where the same directives are known. */
  lemma TagReadsBack(ds: seq<TagDirective>, tag: string, handle: string, suffix: string)
    requires TagParts(ds, tag, handle, suffix) && tag != "" && Distinct(ds)
    requires forall i | 0 <= i < |ds| :: ds[i].handle != ""
    ensures G.ResolveTag(ds, Some(TagDirective(handle, suffix))) == Some(tag)
  {
    hide G.FindHandle;
    if exists i: nat :: FirstPrefix(ds, tag, i) {
      var i: nat :| FirstPrefix(ds, tag, i) && handle == ds[i].handle && ds[i].prefix + suffix == tag;
      FindOwn(ds, i);
    }
  }

  /** Directives with different handles, and the two that every document has where they are missing. */
  lemma DefaultsDistinct(ds: seq<TagDirective>)
    requires Distinct(ds) && forall i | 0 <= i < |ds| :: DirectiveOk(ds[i])
    ensures var all := G.WithDefaults(ds); Distinct(all) && forall i | 0 <= i < |all| :: all[i].handle != ""
  {
    AddDistinct(ds, G.DEFAULT_DIRECTIVES[0]);
    AddDistinct(G.AddMissing(ds, G.DEFAULT_DIRECTIVES[0]), G.DEFAULT_DIRECTIVES[1]);
  }

  lemma AddDistinct(ds: seq<TagDirective>, d: TagDirective)
    requires Distinct(ds) && d.handle != "" && forall i | 0 <= i < |ds| :: ds[i].handle != ""
    ensures var more := G.AddMissing(ds, d); Distinct(more) && forall i | 0 <= i < |more| :: more[i].handle != ""
  {
    NotFound(ds, d.handle);
  }

  lemma {:induction false} NotFound(ds: seq<TagDirective>, handle: string)
    ensures G.FindHandle(ds, handle).None? <==> forall i | 0 <= i < |ds| :: ds[i].handle != handle
    decreases |ds|
  {
    if ds != [] {
      NotFound(ds[1..], handle);
      assert forall i | 0 <= i < |ds| - 1 :: ds[1..][i] == ds[i + 1];
      if ds[0].handle != handle && forall i | 0 <= i < |ds| - 1 :: ds[1..][i].handle != handle {
        forall i | 0 <= i < |ds| ensures ds[i].handle != handle {
          if i > 0 { assert ds[1..][i - 1].handle != handle; }
        }
      }
    }
  }

  /** The part of `EventOk` that is checked before the state machine runs. */
  predicate AnalyzedOk(e: Event) {
    match e
    case Alias(name) => AnchorOk(name)
    case Scalar(anchor, _, _, _, _, _) => OptionalAnchorOk(anchor)
    case SequenceStart(anchor, _, _, _) => OptionalAnchorOk(anchor)
    case MappingStart(anchor, _, _, _) => OptionalAnchorOk(anchor)
    case _ => true
  }

  lemma AnalyzedEnough(e: Event)
    requires AnalyzedOk(e) && !e.Scalar? && !e.DocumentStart?
    ensures EventOk(e)
  {
  }

  lemma RunOneMore(es: seq<Event>, k: nat)
    requires k < |es| && Run(BeforeStream, es[..k]).Some?
    ensures Run(BeforeStream, es[..k + 1]) == Step(Run(BeforeStream, es[..k]).value, es[k])
  {
    RunAppend(BeforeStream, es[..k], [es[k]]);
    assert es[..k + 1] == es[..k] + [es[k]] && [es[k]][1..] == [];
  }

  lemma Refused(es: seq<Event>, k: nat)
    requires k < |es| && (Run(BeforeStream, es[..k + 1]) == None || !EventOk(es[k]))
    ensures Run(BeforeStream, es) == None || exists i :: 0 <= i < |es| && !EventOk(es[i])
  {
    if Run(BeforeStream, es).Some? { RunPrefix(BeforeStream, es, k + 1); }
  }

  /** Which events may come inside a collection at place `p`. */
  lemma StepInside(open: seq<Place>, p: Place, e: Event)
    ensures Step(InDocument(open + [p]), e).Some? <==>
              StartsNode(e) || (e.SequenceEnd? && p == InSequence) || (e.MappingEnd? && p == AtKey)
    ensures !StartsNode(e) && Step(InDocument(open + [p]), e).Some? ==>
              Step(InDocument(open + [p]), e) == Some(Complete(open)) && EventOk(e)
  {
  }

  /** Replacing the top state by one of the same kind keeps flow collections inside one another. */
  lemma SameStack(states: seq<State>, s: State, t: State)
    requires FlowInside(states + [s]) && IsFlow(s) == IsFlow(t)
    ensures FlowInside(states + [t]) && FlowInside(states)
  {
    var a, b := states + [s], states + [t];
    forall i, j | 1 <= i < j < |b| && IsFlow(b[i]) ensures IsFlow(b[j]) {
      assert a[i] == b[i] && IsFlow(a[j]) == IsFlow(b[j]);
    }
    forall i, j | 1 <= i < j < |states| && IsFlow(states[i]) ensures IsFlow(states[j]) {
      assert a[i] == states[i] && a[j] == states[j];
    }
  }

  // ---------------------------------------------------------------- the emitter

  class Emitter {
    const canonical: bool
    var bestIndent: int
    var state: State
    var states: seq<State>
    /** All events submitted so far; those before `head` have been written. */
    var events: seq<Event>
    var head: nat
    var indent: int
    var indents: seq<int>
    var flowLevel: int
    var mappingContext: bool
    var simpleKeyContext: bool
    var tagDirectives: seq<TagDirective>
    var anchor: Option<string>
    var tagHandle: string
    var tagSuffix: string
    var error: bool

    constructor (canonical: bool, bestIndent: int)
      ensures Valid() && events == [] && head == 0
    {
      this.canonical, this.bestIndent := canonical, bestIndent;
      state, states, events, head, indent, indents, flowLevel := StreamStartState, [], [], 0, 0, [], 0;
      mappingContext, simpleKeyContext, tagDirectives := false, false, [];
      anchor, tagHandle, tagSuffix, error := None, "", "", false;
    }

    ghost predicate InStep()
      reads this
    {
      if IsOuter(state) then
        && states == [] && indents == [] && flowLevel == 0
        && (!state.DocumentContentState? && !state.DocumentEndState? ==> tagDirectives == [])
      else
        && StackOk(states)
        && |indents| == |states| - (if IsFirst(state) then 1 else 0)
        && flowLevel == FlowCount(states) + (if IsFlow(state) && !IsFirst(state) then 1 else 0)
        && FlowInside(states + [state])
    }

    ghost function Config(): Config
      reads this
      requires InStep()
    {
      ConfigOf(states, state)
    }

    /** What has been written is the part of a stream that leads to the current state. */
    ghost predicate Valid()
      reads this
    {
      && !error
      && Stepped()
      && head <= |events|
      && NeedMore(events[head..])
      && Run(BeforeStream, events[..head]) == Some(Config())
      && forall i | 0 <= i < head :: EventOk(events[i])
    }

    /** Ready to write the event at the head of the queue. */
    ghost predicate Ready()
      reads this
    {
      head < |events| && !error && Stepped() && Analyzed()
    }

    ghost predicate Stepped()
      reads this
    {
      InStep() && (!state.StreamStartState? ==> 2 <= bestIndent <= 9) && HandlesNamed()
    }

    ghost predicate HandlesNamed()
      reads this
    {
      forall i | 0 <= i < |tagDirectives| :: tagDirectives[i].handle != ""
    }

    ghost predicate Analyzed()
      reads this
      requires head < |events|
    {
      var e := events[head];
      && AnalyzedOk(e) && anchor == AnchorWritten(e)
      && (if Written(canonical, e) then TagParts(tagDirectives, e.tag, tagHandle, tagSuffix) && TagShown()
          else !TagShown())
    }

    predicate TagShown()
      reads this
    {
      tagHandle != "" || tagSuffix != ""
    }

    /** Inside a document, with the waiting states on the stack and no state of its own. */
    ghost predicate Between()
      reads this
    {
      StackOk(states) && |indents| == |states| - 1 && flowLevel == FlowCount(states) && FlowInside(states)
    }

    // -------------------------------------------------------------- queue

    method NeedMoreEvents() returns (more: bool)
      requires head <= |events|
      ensures more <==> NeedMore(events[head..])
    {
      if head == |events| { return true; }
      var accumulate := 0;
      match events[head] {
        case DocumentStart(_, _, _) => accumulate := 1;
        case SequenceStart(_, _, _, _) => accumulate := 2;
        case MappingStart(_, _, _, _) => accumulate := 3;
        case _ => return false;
      }
      if |events| - head > accumulate { return false; }
      var level := 0;
      var i := head;
      while i < |events|
        invariant head <= i <= |events|
        invariant Closes(events[head..], 0) <==> Closes(events[i..], level)
      {
        if events[i].StreamStart? || events[i].DocumentStart? || events[i].SequenceStart? || events[i].MappingStart? {
          level := level + 1;
        } else if events[i].StreamEnd? || events[i].DocumentEnd? || events[i].SequenceEnd? || events[i].MappingEnd? {
          level := level - 1;
        }
        if level == 0 { return false; }
        assert events[i..][1..] == events[i + 1..];
        i := i + 1;
      }
      more := true;
    }

    /**
     Submit one event and write as many as can be written. All events are taken as long as
     they form the beginning of a stream, and at the end of the stream none is left in the queue.
     */
    method Emit(event: Event) returns (ok: bool)
      requires Valid()
      modifies this
      ensures events == old(events) + [event]
      ensures ok ==> Valid() && head == Settled(events, old(head))
      ensures ok && Run(BeforeStream, events) == Some(Ended) ==> head == |events|
      ensures !ok ==> head < |events| && head < Settled(events, old(head))
      ensures !ok ==> Run(BeforeStream, events[..head + 1]) == None || !EventOk(events[head])
      ensures !ok ==> Run(BeforeStream, events) == None || exists i :: 0 <= i < |events| && !EventOk(events[i])
    {
      hide StackOk, FlowCount, FlowInside, ConfigOf, Run, EventOk, NeedMore, Settled;
      events := events + [event];
      assert events[..head] == old(events)[..head];
      var more := NeedMoreEvents();
      while !more
        invariant events == old(events) + [event] && old(head) <= head <= |events|
        invariant more <==> NeedMore(events[head..])
        invariant Settled(events, head) == Settled(events, old(head))
        invariant !error && Stepped()
        invariant Run(BeforeStream, events[..head]) == Some(Config())
        invariant forall i | 0 <= i < head :: EventOk(events[i])
        decreases |events| - head
      {
        SettledNext(events, head);
        ok := WriteHead();
        if !ok {
          Refused(events, head);
          return false;
        }
        head := head + 1;
        more := NeedMoreEvents();
      }
      SettledHere(events, head);
      if Run(BeforeStream, events) == Some(Ended) { NothingHeldBack(events, old(head)); }
      ok := true;
    }

    /** Write the event at the head of the queue. */
    method WriteHead() returns (ok: bool)
      requires head < |events| && !error && Stepped() && Run(BeforeStream, events[..head]) == Some(Config())
      modifies this
      ensures events == old(events) && head == old(head)
      ensures ok ==> !error && Stepped() && EventOk(events[head])
      ensures ok ==> Run(BeforeStream, events[..head + 1]) == Some(Config())
      ensures !ok ==> Run(BeforeStream, events[..head + 1]) == None || !EventOk(events[head])
    {
      hide StackOk, Places, FlowCount, FlowInside, Step, EventOk, Run;
      RunOneMore(events, head);
      ok := AnalyzeEvent();
      if ok {
        ok := StateMachine();
      }
    }

    // -------------------------------------------------------------- data of an event

    method AnalyzeAnchor(name: string) returns (ok: bool)
      modifies this`anchor, this`error
      ensures ok <==> AnchorOk(name)
      ensures ok ==> error == old(error) && anchor == Some(name)
    {
      if |name| == 0 {
        error := true;
        return false;
      }
      var i := 0;
      while i < |name|
        invariant i <= |name|
        invariant forall k | 0 <= k < i :: IsAlpha(name[k])
      {
        if !IsAlpha(name[i]) {
          error := true;
          return false;
        }
        i := i + 1;
      }
      anchor := Some(name);
      ok := true;
    }

    /** Split a tag at the first known prefix; one of the two parts is not empty. */
    method AnalyzeTag(tag: string)
      requires tag != "" && tagHandle == ""
      requires HandlesNamed()
      modifies this`tagHandle, this`tagSuffix
      ensures TagShown() && TagParts(tagDirectives, tag, tagHandle, tagSuffix)
    {
      var i := 0;
      while i < |tagDirectives|
        invariant i <= |tagDirectives| && tagHandle == "" && forall j | 0 <= j < i :: !(tagDirectives[j].prefix <= tag)
      {
        var prefix := tagDirectives[i].prefix;
        if prefix <= tag {
          tagHandle := tagDirectives[i].handle;
          tagSuffix := tag[|prefix|..];
          assert FirstPrefix(tagDirectives, tag, i);
          return;
        }
        i := i + 1;
      }
      tagSuffix := tag;
    }

    method AnalyzeEvent() returns (ok: bool)
      requires head < |events| && !error
      requires HandlesNamed()
      modifies this`anchor, this`tagHandle, this`tagSuffix, this`error
      ensures !ok ==> !EventOk(events[head])
      ensures ok ==> !error && Analyzed()
    {
      hide TagParts, DirectiveOk, Distinct, AnchorOk;
      anchor, tagHandle, tagSuffix := None, "", "";
      ok := true;
      match events[head]
      case Alias(name) =>
        ok := AnalyzeAnchor(name);
      case Scalar(a, tag, _, implicit, quotedImplicit, _) =>
        ok := AnalyzeProperties(a, tag, canonical || (!implicit && !quotedImplicit));
      case SequenceStart(a, tag, implicit, _) =>
        ok := AnalyzeProperties(a, tag, canonical || !implicit);
      case MappingStart(a, tag, implicit, _) =>
        ok := AnalyzeProperties(a, tag, canonical || !implicit);
      case _ =>
    }

    method AnalyzeProperties(a: Option<string>, tag: string, explicit: bool) returns (ok: bool)
      requires anchor == None && tagHandle == "" && tagSuffix == "" && !error && HandlesNamed()
      modifies this`anchor, this`tagHandle, this`tagSuffix, this`error
      ensures ok <==> OptionalAnchorOk(a)
      ensures ok ==> !error && anchor == NotEmpty(a)
      ensures ok ==> if tag != "" && explicit then TagParts(tagDirectives, tag, tagHandle, tagSuffix) && TagShown()
                     else !TagShown()
    {
      hide TagParts, AnchorOk;
      ok := true;
      if a.Some? && |a.value| > 0 { ok := AnalyzeAnchor(a.value); }
      if ok && |tag| > 0 && explicit { AnalyzeTag(tag); }
    }

    // -------------------------------------------------------------- states

    /** Write the event at the head of the queue. It is taken exactly if the stream may go on with it. */
    method StateMachine() returns (ok: bool)
      requires Ready()
      modifies this
      ensures events == old(events) && head == old(head)
      ensures ok <==> Step(old(Config()), events[head]).Some? && EventOk(events[head])
      ensures ok ==> !error && Stepped() && Step(old(Config()), events[head]) == Some(Config())
    {
      match state
      case StreamStartState => ok := EmitStreamStart();
      case FirstDocumentStartState => ok := EmitDocumentStart();
      case DocumentStartState => ok := EmitDocumentStart();
      case DocumentContentState => ok := EmitDocumentContent();
      case DocumentEndState => ok := EmitDocumentEnd();
      case FlowSequenceFirstItemState => ok := EmitFlowSequenceItem(true);
      case FlowSequenceItemState => ok := EmitFlowSequenceItem(false);
      case FlowMappingFirstKeyState => ok := EmitFlowMappingKey(true);
      case FlowMappingKeyState => ok := EmitFlowMappingKey(false);
      case FlowMappingSimpleValueState => ok := EmitFlowMappingValue();
      case FlowMappingValueState => ok := EmitFlowMappingValue();
      case BlockSequenceFirstItemState => ok := EmitBlockSequenceItem(true);
      case BlockSequenceItemState => ok := EmitBlockSequenceItem(false);
      case BlockMappingFirstKeyState => ok := EmitBlockMappingKey(true);
      case BlockMappingKeyState => ok := EmitBlockMappingKey(false);
      case BlockMappingSimpleValueState => ok := EmitBlockMappingValue();
      case BlockMappingValueState => ok := EmitBlockMappingValue();
      case EndState =>
        error := true;
        ok := false;
    }

    // -------------------------------------------------------------- documents

    method EmitStreamStart() returns (ok: bool)
      requires Ready() && state.StreamStartState?
      modifies this
      ensures events == old(events) && head == old(head)
      ensures ok <==> Step(old(Config()), events[head]).Some? && EventOk(events[head])
      ensures ok ==> !error && Stepped() && Step(old(Config()), events[head]) == Some(Config())
    {
      if !events[head].StreamStart? {
        error := true;
        return false;
      }
      if bestIndent < 2 || bestIndent > 9 {
        bestIndent := 2;
      }
      indent := -1;
      state := FirstDocumentStartState;
      ok := true;
    }

    method AnalyzeTagDirective(d: TagDirective) returns (ok: bool)
      modifies this`error
      ensures ok <==> DirectiveOk(d)
      ensures ok ==> error == old(error)
    {
      ok := false;
      var handle := d.handle;
      if |handle| == 0 || handle[0] != '!' || handle[|handle| - 1] != '!' {
        error := true;
        return;
      }
      var i := 1;
      while i < |handle| - 1
        invariant 1 <= i
        invariant forall k | 1 <= k < i && k < |handle| - 1 :: IsAlpha(handle[k])
      {
        if !IsAlpha(handle[i]) {
          error := true;
          return;
        }
        i := i + 1;
      }
      if |d.prefix| == 0 {
        error := true;
        return;
      }
      ok := true;
    }

    method AppendTagDirective(d: TagDirective, allowDuplicates: bool) returns (ok: bool)
      modifies this`tagDirectives, this`error
      ensures ok <==>
              || allowDuplicates
              || forall i | 0 <= i < |old(tagDirectives)| :: old(tagDirectives)[i].handle != d.handle
      ensures ok ==> error == old(error)
      ensures tagDirectives == G.AddMissing(old(tagDirectives), d)
      ensures ok && !allowDuplicates ==> tagDirectives == old(tagDirectives) + [d]
    {
      NotFound(tagDirectives, d.handle);
      var i := 0;
      while i < |tagDirectives|
        invariant i <= |tagDirectives|
        invariant forall k | 0 <= k < i :: tagDirectives[k].handle != d.handle
      {
        if tagDirectives[i].handle == d.handle {
          if !allowDuplicates { error := true; }
          return allowDuplicates;
        }
        i := i + 1;
      }
      tagDirectives := tagDirectives + [d];
      ok := true;
    }

    /** The tag directives of a document, then the two that every document has. */
    method DeclareTags(directives: seq<TagDirective>) returns (ok: bool)
      requires tagDirectives == [] && !error
      modifies this`tagDirectives, this`error
      ensures ok <==> Distinct(directives) && forall i | 0 <= i < |directives| :: DirectiveOk(directives[i])
      ensures ok ==> !error && HandlesNamed() && Distinct(tagDirectives) && tagDirectives == G.WithDefaults(directives)
    {
      hide G.FindHandle;
      var i := 0;
      while i < |directives|
        invariant i <= |directives| && !error && tagDirectives == directives[..i]
        invariant Distinct(directives[..i]) && forall k | 0 <= k < i :: DirectiveOk(directives[k])
      {
        ok := AnalyzeTagDirective(directives[i]);
        if !ok { return; }
        ok := AppendTagDirective(directives[i], false);
        if !ok { return; }
        i := i + 1;
      }
      assert directives[..i] == directives;
      DefaultsDistinct(directives);
      var j := 0;
      while j < 2
        invariant j <= 2 && !error
        invariant tagDirectives == match j
                                   case 0 => directives
                                   case 1 => G.AddMissing(directives, G.DEFAULT_DIRECTIVES[0])
                                   case _ => G.WithDefaults(directives)
      {
        var taken := AppendTagDirective(G.DEFAULT_DIRECTIVES[j], true);
        j := j + 1;
      }
      ok := true;
    }

    method EmitDocumentStart() returns (ok: bool)
      requires Ready() && (state.FirstDocumentStartState? || state.DocumentStartState?)
      modifies this
      ensures events == old(events) && head == old(head)
      ensures ok <==> Step(old(Config()), events[head]).Some? && EventOk(events[head])
      ensures ok ==> !error && Stepped() && Step(old(Config()), events[head]) == Some(Config())
    {
      if events[head].DocumentStart? {
        var version := events[head].version;
        if version.Some? && (version.value.major != 1 || version.value.minor != 1) {
          error := true;
          return false;
        }
        ok := DeclareTags(events[head].directives);
        if !ok { return; }
        state := DocumentContentState;
      } else if events[head].StreamEnd? {
        state := EndState;
        ok := true;
      } else {
        error := true;
        ok := false;
      }
    }

    method EmitDocumentContent() returns (ok: bool)
      requires Ready() && state.DocumentContentState?
      modifies this
      ensures events == old(events) && head == old(head)
      ensures ok <==> Step(old(Config()), events[head]).Some? && EventOk(events[head])
      ensures ok ==> !error && Stepped() && Step(old(Config()), events[head]) == Some(Config())
    {
      hide EventOk, AnalyzedOk, TagParts, Written, AnchorWritten;
      states := states + [DocumentEndState];
      FlowCountZero(states);
      ok := EmitNode(false, false);
    }

    method EmitDocumentEnd() returns (ok: bool)
      requires Ready() && state.DocumentEndState?
      modifies this
      ensures events == old(events) && head == old(head)
      ensures ok <==> Step(old(Config()), events[head]).Some? && EventOk(events[head])
      ensures ok ==> !error && Stepped() && Step(old(Config()), events[head]) == Some(Config())
    {
      if !events[head].DocumentEnd? {
        error := true;
        return false;
      }
      state := DocumentStartState;
      tagDirectives := [];
      ok := true;
    }

    // -------------------------------------------------------------- collections

    method IncreaseIndent(flow: bool, indentless: bool)
      modifies this`indent, this`indents
      ensures indents == old(indents) + [old(indent)]
      ensures indent == if old(indent) < 0 then (if flow then bestIndent else 0)
                        else if indentless then old(indent) else old(indent) + bestIndent
    {
      indents := indents + [indent];
      if indent < 0 {
        indent := if flow then bestIndent else 0;
      } else if !indentless {
        indent := indent + bestIndent;
      }
    }

    method DecreaseIndent()
      requires indents != []
      modifies this`indent, this`indents
      ensures indents == old(indents)[..|old(indents)| - 1] && indent == old(indents)[|old(indents)| - 1]
    {
      indent := indents[|indents| - 1];
      indents := indents[..|indents| - 1];
    }

    /** The node is complete; the state that waited for it takes over. */
    method PopState()
      requires Between()
      modifies this`state, this`states
      ensures InStep() && Config() == Complete(old(Places(states)))
    {
      ConfigPop(states);
      state := states[|states| - 1];
      states := states[..|states| - 1];
      assert old(states) == states + [state];
      assert FlowCount(old(states)) == FlowCount(states) + if IsFlow(state) then 1 else 0;
    }

    /** A child node, after which the collection goes on in state `s`. */
    method EmitChild(s: State, mapping: bool, simpleKey: bool) returns (ok: bool)
      requires head < |events| && !error && Analyzed() && 2 <= bestIndent <= 9 && HandlesNamed()
      requires StackOk(states) && Waiting(s) && |indents| == |states|
      requires flowLevel == FlowCount(states) + (if IsFlow(s) then 1 else 0) && FlowInside(states + [s])
      modifies this
      ensures events == old(events) && head == old(head)
      ensures ok <==> StartsNode(events[head]) && EventOk(events[head])
      ensures ok ==> !error && Stepped()
      ensures ok ==> Step(InDocument(old(Places(states)) + [Advance(PlaceOf(s))]), events[head]) == Some(Config())
    {
      hide Places, Step, FlowCount, FlowInside, EventOk, AnalyzedOk, TagParts, Written, AnchorWritten;
      ConfigPush(states, s);
      states := states + [s];
      ok := EmitNode(mapping, simpleKey);
    }

    method EmitFlowSequenceItem(first: bool) returns (ok: bool)
      requires Ready() && state == (if first then FlowSequenceFirstItemState else FlowSequenceItemState)
      modifies this
      ensures events == old(events) && head == old(head)
      ensures ok <==> Step(old(Config()), events[head]).Some? && EventOk(events[head])
      ensures ok ==> !error && Stepped() && Step(old(Config()), events[head]) == Some(Config())
    {
      hide Places, FlowCount, FlowInside, EventOk, AnalyzedOk, Step, TagParts, Written, AnchorWritten;
      StepInside(Places(states), PlaceOf(state), events[head]);
      SameStack(states, state, FlowSequenceItemState);
      if first {
        IncreaseIndent(true, false);
        flowLevel := flowLevel + 1;
      }
      if events[head].SequenceEnd? {
        flowLevel := flowLevel - 1;
        DecreaseIndent();
        PopState();
        return true;
      }
      ok := EmitChild(FlowSequenceItemState, false, false);
    }

    method EmitFlowMappingKey(first: bool) returns (ok: bool)
      requires Ready() && state == (if first then FlowMappingFirstKeyState else FlowMappingKeyState)
      modifies this
      ensures events == old(events) && head == old(head)
      ensures ok <==> Step(old(Config()), events[head]).Some? && EventOk(events[head])
      ensures ok ==> !error && Stepped() && Step(old(Config()), events[head]) == Some(Config())
    {
      hide Places, FlowCount, FlowInside, EventOk, AnalyzedOk, Step, TagParts, Written, AnchorWritten;
      hide KeyLength, EmptySequenceNext, EmptyMappingNext;
      StepInside(Places(states), PlaceOf(state), events[head]);
      SameStack(states, state, FlowMappingKeyState);
      if first {
        IncreaseIndent(true, false);
        flowLevel := flowLevel + 1;
      }
      if events[head].MappingEnd? {
        flowLevel := flowLevel - 1;
        DecreaseIndent();
        PopState();
        return true;
      }
      var simple := CheckSimpleKey();
      simple := !canonical && simple;
      var next := if simple then FlowMappingSimpleValueState else FlowMappingValueState;
      SameStack(states, state, next);
      ok := EmitChild(next, true, simple);
    }

    method EmitBlockSequenceItem(first: bool) returns (ok: bool)
      requires Ready() && state == (if first then BlockSequenceFirstItemState else BlockSequenceItemState)
      modifies this
      ensures events == old(events) && head == old(head)
      ensures ok <==> Step(old(Config()), events[head]).Some? && EventOk(events[head])
      ensures ok ==> !error && Stepped() && Step(old(Config()), events[head]) == Some(Config())
    {
      hide Places, FlowCount, FlowInside, EventOk, AnalyzedOk, Step, TagParts, Written, AnchorWritten;
      StepInside(Places(states), PlaceOf(state), events[head]);
      SameStack(states, state, BlockSequenceItemState);
      var indentless: bool := *;
      if first {
        IncreaseIndent(false, mappingContext && indentless);
      }
      if events[head].SequenceEnd? {
        DecreaseIndent();
        PopState();
        return true;
      }
      ok := EmitChild(BlockSequenceItemState, false, false);
    }

    method EmitBlockMappingKey(first: bool) returns (ok: bool)
      requires Ready() && state == (if first then BlockMappingFirstKeyState else BlockMappingKeyState)
      modifies this
      ensures events == old(events) && head == old(head)
      ensures ok <==> Step(old(Config()), events[head]).Some? && EventOk(events[head])
      ensures ok ==> !error && Stepped() && Step(old(Config()), events[head]) == Some(Config())
    {
      hide Places, FlowCount, FlowInside, EventOk, AnalyzedOk, Step, TagParts, Written, AnchorWritten;
      hide KeyLength, EmptySequenceNext, EmptyMappingNext;
      StepInside(Places(states), PlaceOf(state), events[head]);
      SameStack(states, state, BlockMappingKeyState);
      if first {
        IncreaseIndent(false, false);
      }
      if events[head].MappingEnd? {
        DecreaseIndent();
        PopState();
        return true;
      }
      var simple := CheckSimpleKey();
      var next := if simple then BlockMappingSimpleValueState else BlockMappingValueState;
      SameStack(states, state, next);
      ok := EmitChild(next, true, simple);
    }

    method EmitFlowMappingValue() returns (ok: bool)
      requires Ready() && (state.FlowMappingSimpleValueState? || state.FlowMappingValueState?)
      modifies this
      ensures events == old(events) && head == old(head)
      ensures ok <==> Step(old(Config()), events[head]).Some? && EventOk(events[head])
      ensures ok ==> !error && Stepped() && Step(old(Config()), events[head]) == Some(Config())
    {
      hide Places, FlowCount, FlowInside, EventOk, AnalyzedOk, Step, TagParts, Written, AnchorWritten;
      StepInside(Places(states), AtValue, events[head]);
      SameStack(states, state, FlowMappingKeyState);
      ok := EmitChild(FlowMappingKeyState, true, false);
    }

    method EmitBlockMappingValue() returns (ok: bool)
      requires Ready() && (state.BlockMappingSimpleValueState? || state.BlockMappingValueState?)
      modifies this
      ensures events == old(events) && head == old(head)
      ensures ok <==> Step(old(Config()), events[head]).Some? && EventOk(events[head])
      ensures ok ==> !error && Stepped() && Step(old(Config()), events[head]) == Some(Config())
    {
      hide Places, FlowCount, FlowInside, EventOk, AnalyzedOk, Step, TagParts, Written, AnchorWritten;
      StepInside(Places(states), AtValue, events[head]);
      SameStack(states, state, BlockMappingKeyState);
      ok := EmitChild(BlockMappingKeyState, true, false);
    }

    // -------------------------------------------------------------- nodes

    /** Whether the next node can be written as a simple key; line breaks in a scalar are left open. */
    method CheckSimpleKey() returns (simple: bool)
      requires head < |events|
      ensures simple ==> KeyLength() <= 128
      ensures !events[head].Scalar? ==>
                (simple <==> KeyLength() <= 128 && (events[head].Alias? || EmptySequenceNext() || EmptyMappingNext()))
    {
      var length := 0;
      match events[head] {
        case Alias(_) =>
          length := AnchorLength();
        case Scalar(_, _, text, _, _, _) =>
          var multiline: bool := *;
          if multiline { return false; }
          length := AnchorLength() + |tagHandle| + |tagSuffix| + |text|;
        case SequenceStart(_, _, _, _) =>
          if !EmptySequenceNext() { return false; }
          length := AnchorLength() + |tagHandle| + |tagSuffix|;
        case MappingStart(_, _, _, _) =>
          if !EmptyMappingNext() { return false; }
          length := AnchorLength() + |tagHandle| + |tagSuffix|;
        case _ => return false;
      }
      simple := length <= 128;
    }

    /** How much of a key is written: its anchor or alias, its tag, and its text. */
    function KeyLength(): nat
      requires head < |events|
      reads this
    {
      AnchorLength() + (if events[head].Alias? then 0 else |tagHandle| + |tagSuffix|) +
      if events[head].Scalar? then |events[head].text| else 0
    }

    function AnchorLength(): nat
      reads this
    {
      if anchor.Some? then |anchor.value| else 0
    }

    predicate EmptySequenceNext()
      reads `events, `head
    {
      head + 1 < |events| && events[head].SequenceStart? && events[head + 1].SequenceEnd?
    }

    predicate EmptyMappingNext()
      reads `events, `head
    {
      head + 1 < |events| && events[head].MappingStart? && events[head + 1].MappingEnd?
    }

    /** Whether a collection that starts here is written in flow style: asked for, inside another, or empty. */
    predicate InFlow()
      requires head < |events|
      reads `events, `head, `flowLevel
    {
      || flowLevel > 0 || canonical || EmptySequenceNext() || EmptyMappingNext()
      || (events[head].SequenceStart? && events[head].flow) || (events[head].MappingStart? && events[head].flow)
    }

    method EmitNode(mapping: bool, simpleKey: bool) returns (ok: bool)
      requires head < |events| && !error && Analyzed() && 2 <= bestIndent <= 9 && HandlesNamed() && Between()
      modifies this
      ensures events == old(events) && head == old(head)
      ensures events[head].SequenceStart? ==>
                state == if old(InFlow()) then FlowSequenceFirstItemState else BlockSequenceFirstItemState
      ensures events[head].MappingStart? ==>
                state == if old(InFlow()) then FlowMappingFirstKeyState else BlockMappingFirstKeyState
      ensures ok <==> StartsNode(events[head]) && EventOk(events[head])
      ensures ok ==> !error && Stepped() && Step(InDocument(old(Places(states))), events[head]) == Some(Config())
    {
      hide Places, FlowCount, FlowInside, EventOk, AnalyzedOk, StackOk, ConfigOf, TagParts, Written, AnchorWritten;
      mappingContext, simpleKeyContext := mapping, simpleKey;
      ok := true;
      match events[head]
      case Alias(_) =>
        AnalyzedEnough(events[head]);
        PopState();
      case Scalar(_, _, _, _, _, _) =>
        var at;
        ok, at := EmitScalar();
      case SequenceStart(_, _, _, _) =>
        EmitSequenceStart();
      case MappingStart(_, _, _, _) =>
        EmitMappingStart();
      case _ =>
        error := true;
        ok := false;
    }

    method EmitSequenceStart()
      requires head < |events| && events[head].SequenceStart? && Analyzed() && Between()
      modifies this`state
      ensures state == if old(InFlow()) then FlowSequenceFirstItemState else BlockSequenceFirstItemState
      ensures InStep() && EventOk(events[head]) && Step(InDocument(Places(states)), events[head]) == Some(Config())
    {
      hide Places, FlowCount, FlowInside, EventOk, AnalyzedOk, StackOk, ConfigOf, TagParts, Written, AnchorWritten;
      AnalyzedEnough(events[head]);
      StartCollection(flowLevel > 0 || canonical || events[head].flow || EmptySequenceNext(),
                      FlowSequenceFirstItemState, BlockSequenceFirstItemState);
    }

    method EmitMappingStart()
      requires head < |events| && events[head].MappingStart? && Analyzed() && Between()
      modifies this`state
      ensures state == if old(InFlow()) then FlowMappingFirstKeyState else BlockMappingFirstKeyState
      ensures InStep() && EventOk(events[head]) && Step(InDocument(Places(states)), events[head]) == Some(Config())
    {
      hide Places, FlowCount, FlowInside, EventOk, AnalyzedOk, StackOk, ConfigOf, TagParts, Written, AnchorWritten;
      AnalyzedEnough(events[head]);
      StartCollection(flowLevel > 0 || canonical || events[head].flow || EmptyMappingNext(),
                      FlowMappingFirstKeyState, BlockMappingFirstKeyState);
    }

    /**
     A scalar is written one level further in, at an indentation of at least two; the level is left again behind it.
     */
    method EmitScalar() returns (ok: bool, at: int)
      requires head < |events| && events[head].Scalar? && !error && Analyzed() && Between() && 2 <= bestIndent
      modifies this`tagHandle, this`error, this`indent, this`indents, this`state, this`states
      ensures ok <==> EventOk(events[head])
      ensures ok ==> !error && InStep() && Config() == Complete(old(Places(states)))
      ensures ok ==> at >= 2 && at == (if indent < 0 then bestIndent else indent + bestIndent)
      ensures indent == old(indent) && indents == old(indents)
    {
      hide Places, FlowCount, FlowInside, EventOk, AnalyzedOk, StackOk, ConfigOf, TagParts, Written, AnchorWritten;
      at := indent;
      ok := SelectScalarStyle();
      if ok {
        IncreaseIndent(true, false);
        at := indent;
        DecreaseIndent();
        PopState();
      }
    }

    /** A scalar needs a tag, or leave to go without one in some style. */
    method SelectScalarStyle() returns (ok: bool)
      requires head < |events| && events[head].Scalar? && Analyzed()
      modifies this`tagHandle, this`error
      ensures ok <==> EventOk(events[head])
      ensures ok ==> error == old(error)
    {
      var noTag := |tagHandle| == 0 && |tagSuffix| == 0;
      if noTag && !events[head].implicit && !events[head].quotedImplicit {
        error := true;
        return false;
      }
      var plain: bool := *;
      if noTag && !events[head].quotedImplicit && !plain {
        tagHandle := "!";
      }
      ok := true;
    }

    /** Once inside a flow collection, only flow collections are opened. */
    method StartCollection(asFlow: bool, flowState: State, blockState: State)
      requires Between() && (flowLevel > 0 ==> asFlow)
      requires (flowState, blockState) in {(FlowSequenceFirstItemState, BlockSequenceFirstItemState),
                                           (FlowMappingFirstKeyState, BlockMappingFirstKeyState)}
      modifies this`state
      ensures InStep() && Config() == InDocument(Places(states) + [PlaceOf(flowState)])
      ensures state == if asFlow then flowState else blockState
    {
      FlowCountZero(states);
      state := if asFlow then flowState else blockState;
    }
  }
}
