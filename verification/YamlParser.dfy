/**
 The event parser: a pushdown automaton with 23 working states, an explicit stack of return
 states and a stack of marks. Each call of `Parse` yields one event. Its contract says that
 this event is the next one of the grammar's reading of the tokens (module YamlGrammar), so
 that a whole sequence of calls delivers exactly that reading, and stops where it stops.
 */
module YamlParser {
  import opened Wrappers
  import opened YamlEvents
  import opened YamlTokens
  import D = YamlData
  import G = YamlGrammar

  datatype State =
    | StreamStartState
    | ImplicitDocumentStartState
    | DocumentStartState
    | DocumentContentState
    | DocumentEndState
    | BlockNodeState
    | BlockNodeOrIndentlessSequenceState
    | FlowNodeState
    | BlockSequenceFirstEntryState
    | BlockSequenceEntryState
    | IndentlessSequenceEntryState
    | BlockMappingFirstKeyState
    | BlockMappingKeyState
    | BlockMappingValueState
    | FlowSequenceFirstEntryState
    | FlowSequenceEntryState
    | FlowSequenceEntryMappingKeyState
    | FlowSequenceEntryMappingValueState
    | FlowSequenceEntryMappingEndState
    | FlowMappingFirstKeyState
    | FlowMappingKeyState
    | FlowMappingValueState
    | FlowMappingEmptyValueState
    | EndState

  // ---------------------------------------------------------------- what a state stands for

  ghost function Tail(toks: seq<Token>): seq<Token> {
    if toks == [] then [] else toks[1..]
  }

  /** The grammar's reading of the production that a state is in the middle of. */
  ghost function Reading(td: seq<TagDirective>, s: State, toks: seq<Token>): G.Out {
    match s
    case StreamStartState => G.Stream(toks)
    case ImplicitDocumentStartState => G.Documents(td, true, toks)
    case DocumentStartState => G.Documents(td, false, toks)
    case DocumentContentState => G.DocumentContent(td, toks)
    case DocumentEndState => G.EndOfDocument(toks)
    case BlockNodeState => G.Node(td, toks, true, false)
    case BlockNodeOrIndentlessSequenceState => G.Node(td, toks, true, true)
    case FlowNodeState => G.Node(td, toks, false, false)
    case BlockSequenceFirstEntryState => G.BlockSequence(td, Tail(toks))
    case BlockSequenceEntryState => G.BlockSequence(td, toks)
    case IndentlessSequenceEntryState => G.IndentlessSequence(td, toks)
    case BlockMappingFirstKeyState => G.BlockMappingKey(td, Tail(toks))
    case BlockMappingKeyState => G.BlockMappingKey(td, toks)
    case BlockMappingValueState => G.BlockMappingValue(td, toks)
    case FlowSequenceFirstEntryState => G.FlowSequence(td, true, Tail(toks))
    case FlowSequenceEntryState => G.FlowSequence(td, false, toks)
    case FlowSequenceEntryMappingKeyState => G.PairKey(td, toks)
    case FlowSequenceEntryMappingValueState => G.PairValue(td, toks)
    case FlowSequenceEntryMappingEndState => G.PairEnd(td, toks)
    case FlowMappingFirstKeyState => G.FlowMappingKey(td, true, Tail(toks))
    case FlowMappingKeyState => G.FlowMappingKey(td, false, toks)
    case FlowMappingValueState => G.FlowMappingValue(td, false, toks)
    case FlowMappingEmptyValueState => G.FlowMappingValue(td, true, toks)
    case EndState => G.Out([], toks, true)
  }

  /** What remains to be delivered: the top state's production, then those of its callers. */
  ghost function Rest(td: seq<TagDirective>, stack: seq<State>, toks: seq<Token>): G.Out
    decreases |stack|
  {
    if stack == [] then G.Out([], toks, true)
    else
      var o := Reading(td, stack[|stack| - 1], toks);
      G.Then(o, Rest(td, stack[..|stack| - 1], o.rest))
  }

  /** What is due when `o` comes first and then whatever the waiting states ask for. */
  ghost function Due(td: seq<TagDirective>, states: seq<State>, o: G.Out): G.Out {
    G.Then(o, Rest(td, states, o.rest))
  }

  lemma RestPush(td: seq<TagDirective>, states: seq<State>, s: State, toks: seq<Token>)
    ensures Rest(td, states + [s], toks) == Due(td, states, Reading(td, s, toks))
  {
    assert (states + [s])[..|states|] == states;
  }

  /** A node followed by the rest of `s`, then by the callers, may be read with `s` pushed. */
  lemma RestAfterNode(td: seq<TagDirective>, states: seq<State>, n: G.Out, s: State)
    ensures Due(td, states, G.Then(n, Reading(td, s, n.rest))) == Due(td, states + [s], n)
  {
    RestPush(td, states, s, n.rest);
    var m := Reading(td, s, n.rest);
    assert n.events + (m.events + Rest(td, states, m.rest).events)
        == (n.events + m.events) + Rest(td, states, m.rest).events;
  }

  lemma DueFail(td: seq<TagDirective>, states: seq<State>)
    ensures Due(td, states, G.FAIL) == G.FAIL
  {
  }

  /** One event, and the production goes on in state `s`. */
  lemma RestAfterEvent(td: seq<TagDirective>, states: seq<State>, e: Event, s: State, toks: seq<Token>)
    ensures Due(td, states, G.Emit(e, Reading(td, s, toks))) == G.Emit(e, Rest(td, states + [s], toks))
  {
    RestPush(td, states, s, toks);
    var m := Reading(td, s, toks);
    assert ([e] + m.events) + Rest(td, states, m.rest).events == [e] + (m.events + Rest(td, states, m.rest).events);
  }

  /** One event, and the production is finished. */
  lemma RestAfterLast(td: seq<TagDirective>, states: seq<State>, e: Event, toks: seq<Token>)
    ensures Due(td, states, G.Out([e], toks, true)) == G.Emit(e, Rest(td, states, toks))
  {
  }

  /** The start of a document: its event, then its content in state `s`, then its end. */
  lemma DocumentFollows(due: G.Out, e: Event, td: seq<TagDirective>, s: State, toks: seq<Token>)
    requires var n := Reading(td, s, toks); due == G.Emit(e, G.Then(n, G.EndOfDocument(n.rest)))
    ensures due == G.Emit(e, Rest(td, [DocumentEndState] + [s], toks))
  {
    var n := Reading(td, s, toks);
    RestPush(td, [DocumentEndState], s, toks);
    RestPush(td, [], DocumentEndState, n.rest);
    var o := G.EndOfDocument(n.rest);
    assert [] + [DocumentEndState] == [DocumentEndState] && o.events + [] == o.events;
  }

  lemma NoDirectives(td: seq<TagDirective>, toks: seq<Token>)
    requires toks != []
    ensures !G.IsDirective(toks[0]) ==>
              G.Directives(G.Header(None, [], td, toks)) == Some(G.Header(None, [], G.WithDefaults(td), toks))
  {
  }

  /** An outer state leaves nothing on the stack. */
  lemma OuterRest(td: seq<TagDirective>, s: State, toks: seq<Token>)
    ensures Rest(td, [] + [s], toks) == Reading(td, s, toks)
  {
    RestPush(td, [], s, toks);
    var o := Reading(td, s, toks);
    assert o.events + [] == o.events;
  }

  // ---------------------------------------------------------------- stack discipline

  predicate IsFirst(s: State) {
    s.BlockSequenceFirstEntryState? || s.BlockMappingFirstKeyState? ||
    s.FlowSequenceFirstEntryState? || s.FlowMappingFirstKeyState?
  }

  predicate IsNodeState(s: State) {
    s.BlockNodeState? || s.BlockNodeOrIndentlessSequenceState? || s.FlowNodeState? || s.DocumentContentState?
  }

  /** States outside any document content; they run with an empty stack. */
  predicate IsOuter(s: State) {
    s.StreamStartState? || s.ImplicitDocumentStartState? || s.DocumentStartState? ||
    s.DocumentEndState? || s.EndState?
  }

  predicate IsCollection(s: State) {
    !IsFirst(s) && !IsNodeState(s) && !IsOuter(s)
  }

  /** The states that wait for a node; the key of a single pair is asked for in its own state. */
  predicate CanWait(s: State) {
    IsCollection(s) && !s.FlowSequenceEntryMappingKeyState?
  }

  /** The number of marks kept while a state is current or waiting. */
  function MarksOf(s: State): nat {
    if IsCollection(s) && !s.IndentlessSequenceEntryState? then 1 else 0
  }

  function AllMarks(states: seq<State>): nat {
    if states == [] then 0 else AllMarks(states[..|states| - 1]) + MarksOf(states[|states| - 1])
  }

  lemma AllMarksPush(states: seq<State>, s: State)
    ensures AllMarks(states + [s]) == AllMarks(states) + MarksOf(s)
  {
  }

  /** The stack holds the document end at the bottom and open collections above it. */
  predicate StackOk(states: seq<State>) {
    && states != []
    && states[0] == DocumentEndState
    && forall i | 1 <= i < |states| :: CanWait(states[i])
  }

  /** Popping a well-kept stack leads back to the document end or to an open collection. */
  lemma StackPop(states: seq<State>, s: State)
    requires StackOk(states + [s])
    ensures states == [] ==> s == DocumentEndState
    ensures states != [] ==> StackOk(states) && CanWait(s)
    ensures AllMarks(states + [s]) == AllMarks(states) + MarksOf(s)
  {
    AllMarksPush(states, s);
    var all := states + [s];
    assert all[0] == DocumentEndState && all[|states|] == s;
    assert forall i | 1 <= i < |states| :: all[i] == states[i];
  }

  lemma StackPush(states: seq<State>, s: State)
    requires StackOk(states) && CanWait(s)
    ensures StackOk(states + [s])
    ensures AllMarks(states + [s]) == AllMarks(states) + MarksOf(s)
  {
  }

  predicate IsStartToken(s: State, t: Token) {
    match s
    case BlockSequenceFirstEntryState => t.BlockSequenceStartToken?
    case BlockMappingFirstKeyState => t.BlockMappingStartToken?
    case FlowSequenceFirstEntryState => t.FlowSequenceStartToken?
    case FlowMappingFirstKeyState => t.FlowMappingStartToken?
    case _ => false
  }

  // ---------------------------------------------------------------- states and events

  /** The collections that a current state is inside of, as places of the event automaton. */
  function PlacesOf(s: State): seq<Place> {
    match s
    case BlockSequenceFirstEntryState => [InSequence]
    case BlockSequenceEntryState => [InSequence]
    case IndentlessSequenceEntryState => [InSequence]
    case BlockMappingFirstKeyState => [AtKey]
    case BlockMappingKeyState => [AtKey]
    case BlockMappingValueState => [AtValue]
    case FlowSequenceFirstEntryState => [InSequence]
    case FlowSequenceEntryState => [InSequence]
    case FlowSequenceEntryMappingKeyState => [InSequence, AtKey]
    case FlowSequenceEntryMappingValueState => [InSequence, AtValue]
    case FlowSequenceEntryMappingEndState => [InSequence, AtKey]
    case FlowMappingFirstKeyState => [AtKey]
    case FlowMappingKeyState => [AtKey]
    case FlowMappingValueState => [AtValue]
    case FlowMappingEmptyValueState => [AtValue]
    case _ => []
  }

  /** The state that asks for a node and leaves `s` waiting for it. */
  function Asking(s: State): State {
    match s
    case BlockMappingKeyState => BlockMappingValueState
    case BlockMappingValueState => BlockMappingKeyState
    case FlowSequenceEntryMappingValueState => FlowSequenceEntryMappingKeyState
    case FlowSequenceEntryMappingEndState => FlowSequenceEntryMappingValueState
    case FlowMappingKeyState => FlowMappingValueState
    case FlowMappingValueState => FlowMappingKeyState
    case FlowMappingEmptyValueState => FlowMappingKeyState
    case _ => s
  }

  /** The places of a state that waits for a node: they have not moved on yet. */
  function WaitsIn(s: State): seq<Place> {
    PlacesOf(Asking(s))
  }

  function Waiting(states: seq<State>): seq<Place> {
    if states == [] then [] else Waiting(states[..|states| - 1]) + WaitsIn(states[|states| - 1])
  }

  /** The last place moves on when a node is complete. */
  function MoveOn(ps: seq<Place>): seq<Place>
    requires ps != []
  {
    ps[..|ps| - 1] + [Advance(ps[|ps| - 1])]
  }

  lemma MovesOn(s: State)
    requires CanWait(s)
    ensures WaitsIn(s) != [] && MoveOn(WaitsIn(s)) == PlacesOf(s)
  {
  }

  /** Where the event automaton stands when the parser is in state `s` with `states` waiting. */
  function ConfigOf(states: seq<State>, s: State): Config {
    match s
    case StreamStartState => BeforeStream
    case ImplicitDocumentStartState => BetweenDocuments
    case DocumentStartState => BetweenDocuments
    case DocumentEndState => AfterRoot
    case EndState => Ended
    case _ => InDocument(Waiting(states) + PlacesOf(s))
  }

  lemma WaitingPush(states: seq<State>, s: State)
    ensures Waiting(states + [s]) == Waiting(states) + WaitsIn(s)
  {
    assert (states + [s])[..|states|] == states;
  }

  lemma NodeStanding(states: seq<State>, s: State)
    requires IsNodeState(s)
    ensures ConfigOf(states, s) == InDocument(Waiting(states))
  {
    assert Waiting(states) + [] == Waiting(states);
  }

  lemma CompleteIn(w: seq<Place>, ps: seq<Place>)
    requires ps != []
    ensures Complete(w + ps) == InDocument(w + MoveOn(ps))
  {
    assert (w + ps)[..|w + ps| - 1] == w + ps[..|ps| - 1];
  }

  /** A node completed below `states + [s]` leads back to `s`. */
  lemma Returns(states: seq<State>, s: State)
    requires StackOk(states + [s])
    ensures ConfigOf(states, s) == Complete(Waiting(states + [s]))
  {
    hide Waiting, PlacesOf;
    StackPop(states, s);
    WaitingPush(states, s);
    if states == [] {
      NothingWaits();
    } else {
      MovesOn(s);
      CompleteIn(Waiting(states), WaitsIn(s));
    }
  }

  lemma NothingWaits()
    ensures Waiting([]) == [] && WaitsIn(DocumentEndState) == [] && Waiting([DocumentEndState]) == []
  {
  }

  /** In `s` a node is read, after which the same collection goes on in `t`. */
  predicate Proceeds(s: State, t: State) {
    match t
    case BlockSequenceEntryState => s.BlockSequenceFirstEntryState? || s.BlockSequenceEntryState?
    case IndentlessSequenceEntryState => s.IndentlessSequenceEntryState?
    case BlockMappingKeyState => s.BlockMappingValueState?
    case BlockMappingValueState => s.BlockMappingFirstKeyState? || s.BlockMappingKeyState?
    case FlowSequenceEntryState => s.FlowSequenceFirstEntryState? || s.FlowSequenceEntryState?
    case FlowSequenceEntryMappingValueState => s.FlowSequenceEntryMappingKeyState?
    case FlowSequenceEntryMappingEndState => s.FlowSequenceEntryMappingValueState?
    case FlowMappingKeyState => s.FlowMappingValueState? || s.FlowMappingEmptyValueState?
    case FlowMappingValueState => s.FlowMappingFirstKeyState? || s.FlowMappingKeyState?
    case FlowMappingEmptyValueState => s.FlowMappingFirstKeyState? || s.FlowMappingKeyState?
    case _ => false
  }

  lemma ProceedsPlaces(s: State, t: State)
    requires Proceeds(s, t)
    ensures CanWait(t) && PlacesOf(s) == WaitsIn(t) && !IsOuter(s)
  {
  }

  lemma InsideOf(states: seq<State>, s: State)
    requires !IsOuter(s)
    ensures ConfigOf(states, s) == InDocument(Waiting(states) + PlacesOf(s))
  {
  }

  lemma ProceedsTo(states: seq<State>, s: State, t: State)
    requires Proceeds(s, t)
    ensures ConfigOf(states, s) == InDocument(Waiting(states) + WaitsIn(t))
    ensures Step(ConfigOf(states, s), EMPTY_SCALAR) == Some(ConfigOf(states, t))
  {
    hide Waiting, PlacesOf, ConfigOf, WaitsIn, Proceeds, Complete;
    ProceedsPlaces(s, t);
    InsideOf(states, s);
    InsideOf(states, t);
    MovesOn(t);
    CompleteIn(Waiting(states), PlacesOf(s));
  }

  /** The state behind the start of a collection. */
  predicate OpenedBy(s: State, e: Event) {
    if s.BlockSequenceFirstEntryState? || s.FlowSequenceFirstEntryState? || s.IndentlessSequenceEntryState?
    then e.SequenceStart?
    else (s.BlockMappingFirstKeyState? || s.FlowMappingFirstKeyState?) && e.MappingStart?
  }

  lemma AfterStart(states: seq<State>, s: State, e: Event)
    requires OpenedBy(s, e)
    ensures Step(InDocument(Waiting(states)), e) == Some(ConfigOf(states, s))
  {
  }

  lemma AfterScalar(states: seq<State>, e: Event)
    requires e.Alias? || e.Scalar?
    ensures Step(InDocument(Waiting(states)), e) == Some(Complete(Waiting(states)))
  {
  }

  /** The event that closes the collection that a state is in. */
  predicate ClosedBy(s: State, e: Event) {
    if s.BlockSequenceFirstEntryState? || s.BlockSequenceEntryState? || s.IndentlessSequenceEntryState? ||
       s.FlowSequenceFirstEntryState? || s.FlowSequenceEntryState?
    then e == SequenceEnd
    else
      && (s.BlockMappingFirstKeyState? || s.BlockMappingKeyState? ||
          s.FlowMappingFirstKeyState? || s.FlowMappingKeyState?)
      && e == MappingEnd
  }

  lemma ClosedPlaces(s: State, e: Event)
    requires ClosedBy(s, e)
    ensures PlacesOf(s) == (if e == SequenceEnd then [InSequence] else [AtKey]) && !IsOuter(s)
  {
  }

  lemma AfterEnd(states: seq<State>, s: State, e: Event)
    requires ClosedBy(s, e)
    ensures Step(ConfigOf(states, s), e) == Some(Complete(Waiting(states)))
  {
    hide Waiting, PlacesOf, ConfigOf;
    ClosedPlaces(s, e);
    InsideOf(states, s);
    var w := Waiting(states);
    assert (w + PlacesOf(s))[..|w|] == w;
  }

  lemma AfterPair(states: seq<State>)
    ensures Step(ConfigOf(states, FlowSequenceEntryMappingEndState), MappingEnd) ==
              Some(ConfigOf(states, FlowSequenceEntryState))
  {
    hide Waiting;
    PairCloses(Waiting(states));
  }

  lemma PairCloses(w: seq<Place>)
    ensures Step(InDocument(w + [InSequence, AtKey]), MappingEnd) == Some(InDocument(w + [InSequence]))
  {
    var open := w + [InSequence, AtKey];
    assert open[..|open| - 1] == w + [InSequence];
    assert (w + [InSequence])[..|w|] == w;
  }

  lemma AfterPairStart(states: seq<State>, s: State, e: Event)
    requires e.MappingStart? && Proceeds(s, FlowSequenceEntryState)
    ensures Step(ConfigOf(states, s), e) == Some(ConfigOf(states, FlowSequenceEntryMappingKeyState))
  {
    hide Waiting;
    assert Waiting(states) + [InSequence, AtKey] == (Waiting(states) + [InSequence]) + [AtKey];
  }

  lemma RunOne(c: Config, e: Event)
    ensures Run(c, [e]) == Step(c, e)
  {
    assert [e][1..] == [];
  }

  /** The number of collections that a state is inside of: in a single pair of a flow sequence it is two. */
  function Weight(s: State): nat {
    if IsNodeState(s) || IsOuter(s) then 0
    else if s.FlowSequenceEntryMappingKeyState? || s.FlowSequenceEntryMappingValueState? then 2
    else if s.FlowSequenceEntryMappingEndState? then 2
    else 1
  }

  function Weights(states: seq<State>): nat {
    if states == [] then 0 else Weights(states[..|states| - 1]) + Weight(states[|states| - 1])
  }

  function OpenCollections(c: Config): nat {
    if c.InDocument? then |c.open| else 0
  }

  lemma PlacesWeigh(s: State)
    ensures |PlacesOf(s)| == |WaitsIn(s)| == Weight(s)
  {
  }

  lemma {:induction false} WaitingWeights(states: seq<State>)
    ensures |Waiting(states)| == Weights(states)
  {
    hide PlacesOf, Asking, Weight;
    if states != [] {
      WaitingWeights(states[..|states| - 1]);
      PlacesWeigh(states[|states| - 1]);
    }
  }

  // ---------------------------------------------------------------- the parser

  class Parser {
    /** The tokens the scanner will produce; asking for more than these is a scanner error. */
    const input: seq<Token>
    var pos: nat
    var state: State
    var states: seq<State>
    /** Positions of the tokens that opened the collections, for error messages. */
    var marks: seq<nat>
    var tagDirectives: seq<TagDirective>
    var error: bool
    var streamEndProduced: bool
    /** The events handed out so far. */
    ghost var produced: seq<Event>

    constructor (input: seq<Token>)
      ensures Valid() && !error && this.input == input && Todo() == G.Stream(input) && state.StreamStartState?
      ensures produced == []
    {
      this.input := input;
      pos, state, states, marks, tagDirectives := 0, StreamStartState, [], [], [];
      error, streamEndProduced, produced := false, false, [];
      new;
      assert input[0..] == input;
      RestPush([], [], StreamStartState, input);
      var o := G.Stream(input);
      assert o.events + [] == o.events;
    }

    predicate InStep()
      reads this
    {
      if IsOuter(state) then states == [] && marks == [] && (state.StreamStartState? ==> tagDirectives == [])
      else
        && StackOk(states)
        && (IsNodeState(state) ==> |states| == 1 && marks == [])
        && (IsFirst(state) ==> pos < |input| && IsStartToken(state, input[pos]))
        && |marks| == AllMarks(states) + MarksOf(state)
    }

    predicate Coherent()
      reads this
    {
      && pos <= |input|
      && (!error ==> InStep() && (streamEndProduced ==> state.EndState?))
    }

    /** Where the event automaton stands. */
    ghost function Standing(): Config
      reads this
    {
      ConfigOf(states, state)
    }

    /**
     The events produced so far lead the event automaton to where the stack of states stands. After an
     error nothing more is promised, and nothing more is parsed.
     */
    ghost predicate Valid()
      reads this
    {
      Coherent() && (!error ==> Run(BeforeStream, produced) == Some(Standing()))
    }

    ghost function Left(): seq<Token>
      reads this
      requires pos <= |input|
    {
      input[pos..]
    }

    ghost function Todo(): G.Out
      reads this
      requires pos <= |input|
    {
      Rest(tagDirectives, states + [state], Left())
    }


    // -------------------------------------------------------------- tokens

    method PeekToken() returns (token: Option<Token>)
      requires pos <= |input|
      modifies this`error
      ensures pos < |input| ==> token == Some(input[pos]) && error == old(error)
      ensures pos == |input| ==> token == None && error
    {
      if pos < |input| {
        token := Some(input[pos]);
      } else {
        token := None;
        error := true;
      }
    }

    method SkipToken()
      requires pos < |input|
      modifies this`pos, this`streamEndProduced
      ensures pos == old(pos) + 1 && Left() == old(Left())[1..]
      ensures streamEndProduced == input[old(pos)].StreamEndToken?
    {
      streamEndProduced := input[pos].StreamEndToken?;
      pos := pos + 1;
    }

    /** Return to the state that was waiting for the node that ends with `event`. */
    method FinishNode(ghost event: Event)
      requires pos <= |input| && !error && !streamEndProduced && StackOk(states) && |marks| == AllMarks(states)
      modifies this`state, this`states
      ensures Coherent() && Standing() == Complete(old(Waiting(states)))
      ensures old(Due(tagDirectives, states, G.Out([event], Left(), true))) == G.Emit(event, Todo())
    {
      hide Reading, ConfigOf, Waiting, Complete;
      RestAfterLast(tagDirectives, states, event, Left());
      state := states[|states| - 1];
      states := states[..|states| - 1];
      assert old(states) == states + [state];
      StackPop(states, state);
      Returns(states, state);
    }

    /** Go on in state `s` after `event`. */
    method GoTo(s: State, ghost event: Event)
      requires pos <= |input| && !error && !streamEndProduced && StackOk(states)
      requires IsCollection(s) || (IsFirst(s) && pos < |input| && IsStartToken(s, input[pos]))
      requires |marks| == AllMarks(states) + MarksOf(s)
      modifies this`state
      ensures Coherent() && Standing() == ConfigOf(states, s)
      ensures old(Due(tagDirectives, states, G.Emit(event, Reading(tagDirectives, s, Left())))) == G.Emit(event, Todo())
    {
      hide Reading;
      RestAfterEvent(tagDirectives, states, event, s, Left());
      state := s;
    }

    /** The start of a collection, which goes on in state `s`. */
    method OpenCollection(s: State, event: Event)
      requires pos < |input| && !error && !streamEndProduced && StackOk(states) && OpenedBy(s, event)
      requires s.IndentlessSequenceEntryState? || IsStartToken(s, input[pos])
      requires |marks| == AllMarks(states)
      modifies this`state
      ensures Coherent() && Step(InDocument(old(Waiting(states))), event) == Some(Standing())
      ensures old(Due(tagDirectives, states, G.Emit(event, Reading(tagDirectives, s, Left())))) == G.Emit(event, Todo())
    {
      hide Rest, Reading, Due, G.Emit, AllMarks, StackOk, Waiting, ConfigOf, YamlEvents.Step;
      AfterStart(states, s, event);
      GoTo(s, event);
    }

    /** A node of one event. */
    method FinishScalar(event: Event)
      requires pos <= |input| && !error && !streamEndProduced && StackOk(states) && |marks| == AllMarks(states)
      requires event.Alias? || event.Scalar?
      modifies this`state, this`states
      ensures Coherent() && Step(InDocument(old(Waiting(states))), event) == Some(Standing())
      ensures old(Due(tagDirectives, states, G.Out([event], Left(), true))) == G.Emit(event, Todo())
    {
      hide Rest, Reading, Due, G.Emit, AllMarks, StackOk, Waiting, ConfigOf, YamlEvents.Step;
      AfterScalar(states, event);
      FinishNode(event);
    }

    /** The token that closes a collection, and its event. */
    method CloseCollection(event: Event)
      requires pos < |input| && !error && !streamEndProduced && !input[pos].StreamEndToken? && StackOk(states)
      requires ClosedBy(state, event) && |marks| == AllMarks(states) + 1
      modifies this
      ensures Coherent() && !error && Step(old(Standing()), event) == Some(Standing())
      ensures old(Due(tagDirectives, states, G.Out([event], Left()[1..], true))) == G.Emit(event, Todo())
    {
      hide Rest, Reading, Due, G.Emit, AllMarks, StackOk, Waiting, ConfigOf, Complete, YamlEvents.Step;
      AfterEnd(states, state, event);
      marks := marks[..|marks| - 1];
      SkipToken();
      FinishNode(event);
    }

    /** A node is missing, and the collection goes on in state `s`. */
    method MissingNode(s: State)
      requires pos <= |input| && !error && !streamEndProduced && StackOk(states)
      requires Proceeds(state, s) && |marks| == AllMarks(states) + MarksOf(s)
      modifies this`state
      ensures Coherent() && Step(old(Standing()), EMPTY_SCALAR) == Some(Standing())
      ensures old(Due(tagDirectives, states, G.Emit(EMPTY_SCALAR, Reading(tagDirectives, s, Left())))) ==
              G.Emit(EMPTY_SCALAR, Todo())
    {
      hide Rest, Reading, Due, G.Emit, AllMarks, StackOk, Waiting, ConfigOf, Complete, YamlEvents.Step, PlacesOf;
      ProceedsPlaces(state, s);
      ProceedsTo(states, state, s);
      GoTo(s, EMPTY_SCALAR);
    }

    // -------------------------------------------------------------- dispatcher

    /** As many collections are open as the states, current and waiting, are inside of. */
    lemma OpenPlaces()
      requires Valid() && !error
      ensures Run(BeforeStream, produced).Some?
      ensures OpenCollections(Run(BeforeStream, produced).value) == Weights(states + [state])
    {
      WaitingWeights(states);
      assert (states + [state])[..|states|] == states;
    }

    /** The next event, or `None` after the end of the stream or an error. */
    method Parse() returns (ok: bool, event: Option<Event>)
      requires Valid()
      modifies this
      ensures Valid()
      ensures old(error) || old(state).EndState? ==> ok && event == None && unchanged(this)
      ensures !old(error) && !old(state).EndState? && ok ==>
                event.Some? && !error && old(Todo()) == G.Emit(event.value, Todo())
      ensures !old(error) && !old(state).EndState? && !ok ==> error && old(Todo()) == G.FAIL
      ensures produced == old(produced) + if ok && event.Some? then [event.value] else []
      ensures ok && event.Some? ==> Step(old(Standing()), event.value) == Some(Standing())
    {
      hide Run, Rest, ConfigOf, YamlEvents.Step;
      if streamEndProduced || error || state.EndState? {
        return true, None;
      }
      ghost var before := produced;
      var e: Event;
      ok, e := StateMachine();
      event := if ok then Some(e) else None;
      produced := before + if ok then [e] else [];
      RunAppend(BeforeStream, before, [e]);
      RunOne(old(Standing()), e);
    }

    method StateMachine() returns (ok: bool, event: Event)
      requires Coherent() && !error && !state.EndState? && !streamEndProduced
      modifies this
      ensures Coherent()
      ensures ok ==> !error && old(Todo()) == G.Emit(event, Todo())
      ensures ok ==> Step(old(Standing()), event) == Some(Standing())
      ensures !ok ==> error && old(Todo()) == G.FAIL
    {
      hide Rest, AllMarks, StackOk, G.Node;
      RestPush(tagDirectives, states, state, Left());
      if IsNodeState(state) { NodeStanding(states, state); }
      match state
      case StreamStartState => ok, event := ParseStreamStart();
      case ImplicitDocumentStartState => ok, event := ParseDocumentStart(true);
      case DocumentStartState => ok, event := ParseDocumentStart(false);
      case DocumentContentState => ok, event := ParseDocumentContent();
      case DocumentEndState => ok, event := ParseDocumentEnd();
      case BlockNodeState => ok, event := ParseNode(true, false);
      case BlockNodeOrIndentlessSequenceState => ok, event := ParseNode(true, true);
      case FlowNodeState => ok, event := ParseNode(false, false);
      case BlockSequenceFirstEntryState => ok, event := ParseBlockSequenceEntry(true);
      case BlockSequenceEntryState => ok, event := ParseBlockSequenceEntry(false);
      case IndentlessSequenceEntryState => ok, event := ParseIndentlessSequenceEntry();
      case BlockMappingFirstKeyState => ok, event := ParseBlockMappingKey(true);
      case BlockMappingKeyState => ok, event := ParseBlockMappingKey(false);
      case BlockMappingValueState => ok, event := ParseBlockMappingValue();
      case FlowSequenceFirstEntryState => ok, event := ParseFlowSequenceEntry(true);
      case FlowSequenceEntryState => ok, event := ParseFlowSequenceEntry(false);
      case FlowSequenceEntryMappingKeyState => ok, event := ParseFlowSequenceEntryMappingKey();
      case FlowSequenceEntryMappingValueState => ok, event := ParseFlowSequenceEntryMappingValue();
      case FlowSequenceEntryMappingEndState => ok, event := ParseFlowSequenceEntryMappingEnd();
      case FlowMappingFirstKeyState => ok, event := ParseFlowMappingKey(true);
      case FlowMappingKeyState => ok, event := ParseFlowMappingKey(false);
      case FlowMappingValueState => ok, event := ParseFlowMappingValue(false);
      case FlowMappingEmptyValueState => ok, event := ParseFlowMappingValue(true);
    }

    // -------------------------------------------------------------- documents

    method ParseStreamStart() returns (ok: bool, event: Event)
      requires Coherent() && !error && !streamEndProduced && state.StreamStartState?
      modifies this
      ensures Coherent()
      ensures ok ==> !error && old(Todo()) == G.Emit(event, Todo())
      ensures ok ==> Step(old(Standing()), event) == Some(Standing())
      ensures !ok ==> error && old(Todo()) == G.FAIL
    {
      hide Rest, AllMarks, StackOk, G.Documents;
      event := EMPTY_SCALAR;
      OuterRest(tagDirectives, state, Left());
      var token := PeekToken();
      if token.None? { return false, event; }
      if !token.value.StreamStartToken? {
        error := true;
        return false, event;
      }
      event := StreamStart;
      SkipToken();
      state := ImplicitDocumentStartState;
      OuterRest(tagDirectives, state, Left());
      ok := true;
    }

    /** Handle a new tag directive, unless its handle is known already. */
    method AppendTagDirective(d: TagDirective, allowDuplicates: bool) returns (ok: bool)
      modifies this`tagDirectives, this`error
      ensures ok <==> allowDuplicates || G.FindHandle(old(tagDirectives), d.handle).None?
      ensures ok ==> error == old(error) && tagDirectives == G.AddMissing(old(tagDirectives), d)
      ensures !ok ==> error
    {
      var i := 0;
      while i < |tagDirectives|
        invariant i <= |tagDirectives|
        invariant G.FindHandle(tagDirectives, d.handle) == G.FindHandle(tagDirectives[i..], d.handle)
      {
        if tagDirectives[i].handle == d.handle {
          if !allowDuplicates { error := true; }
          return allowDuplicates;
        }
        i := i + 1;
      }
      tagDirectives := tagDirectives + [d];
      ok := true;
    }

    /** DIRECTIVE* before a document; the two default handles are added behind the declared ones. */
    method ProcessDirectives() returns (ok: bool, version: Option<Version>, directives: seq<TagDirective>)
      requires pos <= |input| && !error && !streamEndProduced
      modifies this`pos, this`streamEndProduced, this`tagDirectives, this`error
      ensures pos <= |input|
      ensures var h := old(G.Directives(G.Header(None, [], tagDirectives, Left())));
              if ok then !error && !streamEndProduced && h == Some(G.Header(version, directives, tagDirectives, Left()))
              else error && h == None
    {
      version, directives := None, [];
      ghost var h := G.Directives(G.Header(None, [], tagDirectives, Left()));
      var token := PeekToken();
      if token.None? { return false, version, directives; }
      while token.value.VersionDirectiveToken? || token.value.TagDirectiveToken?
        invariant pos < |input| && token == Some(input[pos]) && !error && !streamEndProduced
        invariant h == G.Directives(G.Header(version, directives, tagDirectives, Left()))
        decreases |input| - pos
      {
        if token.value.VersionDirectiveToken? {
          if version.Some? || token.value.major != 1 || token.value.minor != 1 {
            error := true;
            return false, version, directives;
          }
          version := Some(Version(token.value.major, token.value.minor));
        } else {
          var d := TagDirective(token.value.handle, token.value.prefix);
          ok := AppendTagDirective(d, false);
          if !ok { return false, version, directives; }
          directives := directives + [d];
        }
        SkipToken();
        token := PeekToken();
        if token.None? { return false, version, directives; }
      }
      ok := AppendTagDirective(G.DEFAULT_DIRECTIVES[0], true);
      ok := AppendTagDirective(G.DEFAULT_DIRECTIVES[1], true);
    }

    method ParseDocumentStart(implicit: bool) returns (ok: bool, event: Event)
      requires Coherent() && !error && !streamEndProduced
      requires state == (if implicit then ImplicitDocumentStartState else DocumentStartState)
      modifies this
      ensures Coherent()
      ensures ok ==> !error && old(Todo()) == G.Emit(event, Todo())
      ensures ok ==> Step(old(Standing()), event) == Some(Standing())
      ensures !ok ==> error && old(Todo()) == G.FAIL
    {
      hide Rest, G.DocumentsFrom;
      event := EMPTY_SCALAR;
      OuterRest(tagDirectives, state, Left());
      var token := PeekToken();
      if token.None? { return false, event; }
      // Extra document end indicators.
      if !implicit {
        while token.value.DocumentEndToken?
          invariant pos < |input| && token == Some(input[pos]) && !error && !streamEndProduced
          invariant state == old(state) && states == old(states) && marks == old(marks)
          invariant tagDirectives == old(tagDirectives)
          invariant G.SkipDocumentEnds(Left()) == old(G.SkipDocumentEnds(Left()))
          decreases |input| - pos
        {
          SkipToken();
          token := PeekToken();
          if token.None? { return false, event; }
        }
      }
      ok, event := ParseDocumentFrom(implicit);
    }

    /** The content of a document is read in state `s`; its end waits on the stack. */
    method EnterDocument(s: State)
      requires pos <= |input| && !error && !streamEndProduced && states == [] && marks == []
      requires s.BlockNodeState? || s.DocumentContentState?
      modifies this`state, this`states
      ensures Coherent() && Standing() == InDocument([])
      ensures Todo() == Rest(tagDirectives, [DocumentEndState] + [s], Left())
    {
      hide Rest, Waiting, PlacesOf, ConfigOf;
      AllMarksPush([], DocumentEndState);
      assert [] + [DocumentEndState] == [DocumentEndState];
      states := states + [DocumentEndState];
      state := s;
      NodeStanding(states, s);
      NothingWaits();
    }

    /** A document that begins with its content. */
    method ParseImplicitDocument() returns (event: Event)
      requires pos < |input| && !error && !streamEndProduced && states == [] && marks == []
      requires !G.IsDirective(input[pos])
      modifies this
      ensures Coherent() && !error && Standing() == InDocument([]) && event == DocumentStart(None, [], false)
      ensures var n := old(G.Node(G.WithDefaults(tagDirectives), Left(), true, false));
              G.Emit(event, G.Then(n, G.EndOfDocument(n.rest))) == G.Emit(event, Todo())
    {
      hide Rest, AllMarks, StackOk, G.Node, G.EndOfDocument, G.Directives, Waiting, PlacesOf;
      NoDirectives(tagDirectives, Left());
      var ok, version, directives := ProcessDirectives();
      event := DocumentStart(None, [], false);
      ghost var n := G.Node(tagDirectives, Left(), true, false);
      DocumentFollows(G.Emit(event, G.Then(n, G.EndOfDocument(n.rest))), event, tagDirectives, BlockNodeState, Left());
      EnterDocument(BlockNodeState);
    }

    /** DIRECTIVE* DOCUMENT-START: what follows is the content. */
    method ParseExplicitDocument() returns (ok: bool, event: Event)
      requires pos < |input| && !error && !streamEndProduced && states == [] && marks == []
      modifies this
      ensures Coherent() && (ok ==> !error && Standing() == InDocument([]) && event.DocumentStart?)
      ensures match old(G.Directives(G.Header(None, [], tagDirectives, Left())))
              case None => !ok && error
              case Some(h) =>
                if !h.rest[0].DocumentStartToken? then !ok && error
                else
                  var n := G.DocumentContent(h.known, h.rest[1..]);
                  && ok && event == DocumentStart(h.version, h.directives, false)
                  && G.Emit(event, G.Then(n, G.EndOfDocument(n.rest))) == G.Emit(event, Todo())
    {
      hide Rest, AllMarks, StackOk, G.Node, G.DocumentContent, G.EndOfDocument, G.Directives, Waiting, PlacesOf;
      event := EMPTY_SCALAR;
      var version, directives;
      ok, version, directives := ProcessDirectives();
      if !ok { return false, event; }
      var token := PeekToken();
      if !token.value.DocumentStartToken? {
        error := true;
        return false, event;
      }
      event := DocumentStart(version, directives, false);
      SkipToken();
      ghost var n := G.DocumentContent(tagDirectives, Left());
      ghost var due := G.Emit(event, G.Then(n, G.EndOfDocument(n.rest)));
      DocumentFollows(due, event, tagDirectives, DocumentContentState, Left());
      EnterDocument(DocumentContentState);
    }

    /** The next document begins at the current token, or the stream ends here. */
    method ParseDocumentFrom(implicit: bool) returns (ok: bool, event: Event)
      requires Coherent() && !error && !streamEndProduced && pos < |input|
      requires state == (if implicit then ImplicitDocumentStartState else DocumentStartState)
      modifies this
      ensures Coherent()
      ensures ok ==> !error && old(G.DocumentsFrom(tagDirectives, implicit, Left())) == G.Emit(event, Todo())
      ensures ok ==> Step(old(Standing()), event) == Some(Standing())
      ensures !ok ==> error && old(G.DocumentsFrom(tagDirectives, implicit, Left())) == G.FAIL
    {
      hide Rest, G.Then, AllMarks, StackOk, G.Node, G.DocumentContent, G.EndOfDocument, G.Directives, Waiting, PlacesOf;
      event := EMPTY_SCALAR;
      var token := PeekToken();
      if implicit && !token.value.VersionDirectiveToken? && !token.value.TagDirectiveToken? &&
         !token.value.DocumentStartToken? && !token.value.StreamEndToken?
      {
        event := ParseImplicitDocument();
        ok := true;
      } else if !token.value.StreamEndToken? {
        ok, event := ParseExplicitDocument();
      } else {
        // The end of the stream.
        state := EndState;
        event := StreamEnd;
        SkipToken();
        OuterRest(tagDirectives, EndState, Left());
        ok := true;
      }
    }

    method ParseDocumentContent() returns (ok: bool, event: Event)
      requires Coherent() && !error && !streamEndProduced && state.DocumentContentState?
      modifies this
      ensures Coherent()
      ensures ok ==> !error && old(Todo()) == G.Emit(event, Todo())
      ensures ok ==> Step(old(Standing()), event) == Some(Standing())
      ensures !ok ==> error && old(Todo()) == G.FAIL
    {
      hide Rest, AllMarks, StackOk, G.Node;
      event := EMPTY_SCALAR;
      RestPush(tagDirectives, states, state, Left());
      NodeStanding(states, state);
      var token := PeekToken();
      if token.None? { return false, event; }
      if token.value.VersionDirectiveToken? || token.value.TagDirectiveToken? || token.value.DocumentStartToken? ||
         token.value.DocumentEndToken? || token.value.StreamEndToken?
      {
        FinishNode(event);
        return true, event;
      }
      ok, event := ParseNode(true, false);
    }

    method ParseDocumentEnd() returns (ok: bool, event: Event)
      requires Coherent() && !error && !streamEndProduced && state.DocumentEndState?
      modifies this
      ensures Coherent()
      ensures ok ==> !error && old(Todo()) == G.Emit(event, Todo())
      ensures ok ==> Step(old(Standing()), event) == Some(Standing())
      ensures !ok ==> error && old(Todo()) == G.FAIL
    {
      hide Rest, AllMarks, StackOk, G.Documents;
      event := EMPTY_SCALAR;
      OuterRest(tagDirectives, state, Left());
      var token := PeekToken();
      if token.None? { return false, event; }
      var implicit := true;
      if token.value.DocumentEndToken? {
        SkipToken();
        implicit := false;
      }
      tagDirectives := [];
      state := DocumentStartState;
      event := DocumentEnd(implicit);
      OuterRest([], state, Left());
      ok := true;
    }

    // -------------------------------------------------------------- nodes

    /**
     One node, whose first event is returned. The state that asked for it is already on the
     stack, so the current state plays no part.
     */
    method ParseNode(block: bool, indentless: bool) returns (ok: bool, event: Event)
      requires pos <= |input| && !error && !streamEndProduced
      requires StackOk(states) && |marks| == AllMarks(states)
      modifies this
      ensures Coherent() && (ok ==> Step(InDocument(old(Waiting(states))), event) == Some(Standing()))
      ensures ok ==> !error
      ensures var due := old(Due(tagDirectives, states, G.Node(tagDirectives, Left(), block, indentless)));
              if ok then due == G.Emit(event, Todo()) else error && due == G.FAIL
    {
      hide Rest, AllMarks, StackOk, Reading, G.Content, Waiting;
      event := EMPTY_SCALAR;
      var token := PeekToken();
      if token.None? { return false, event; }
      if token.value.AliasToken? {
        event := Alias(token.value.name);
        SkipToken();
        FinishNode(event);
        return true, event;
      }

      var anchor, tagToken;
      ok, anchor, tagToken := ParseProperties();
      if !ok { return false, event; }
      var tag := "";
      if tagToken.Some? {
        ok, tag := FindTag(tagToken.value);
        if !ok {
          error := true;
          return false, event;
        }
      }
      ok, event := ParseContent(anchor, tag, block, indentless);
    }

    /** The anchor and the tag in front of a node, in either order. */
    method ParseProperties() returns (ok: bool, anchor: Option<string>, tagToken: Option<TagDirective>)
      requires pos < |input| && !error && !streamEndProduced
      modifies this`pos, this`streamEndProduced, this`error
      ensures pos <= |input| && (ok <==> pos < |input|) && (ok <==> !error) && (ok ==> !streamEndProduced)
      ensures ok ==> old(G.Properties(Left())) == G.Props(anchor, tagToken, Left())
      ensures !ok ==> old(G.Properties(Left())).rest == []
    {
      anchor, tagToken := None, None;
      var token := PeekToken();
      if token.value.AnchorToken? {
        anchor := Some(token.value.name);
        SkipToken();
        token := PeekToken();
        if token.None? { return false, anchor, tagToken; }
        if token.value.TagToken? {
          tagToken := Some(TagDirective(token.value.handle, token.value.suffix));
          SkipToken();
          token := PeekToken();
          if token.None? { return false, anchor, tagToken; }
        }
      } else if token.value.TagToken? {
        tagToken := Some(TagDirective(token.value.handle, token.value.suffix));
        SkipToken();
        token := PeekToken();
        if token.None? { return false, anchor, tagToken; }
        if token.value.AnchorToken? {
          anchor := Some(token.value.name);
          SkipToken();
          token := PeekToken();
          if token.None? { return false, anchor, tagToken; }
        }
      }
      ok := true;
    }

    /** A node inside a collection, which goes on in state `s` after the node. */
    method ParseNodeThen(s: State, block: bool, indentless: bool) returns (ok: bool, event: Event)
      requires pos <= |input| && !error && !streamEndProduced
      requires StackOk(states) && Proceeds(state, s) && |marks| == AllMarks(states) + MarksOf(s)
      modifies this
      ensures Coherent() && (ok ==> Step(old(Standing()), event) == Some(Standing()))
      ensures ok ==> !error
      ensures var n := old(G.Node(tagDirectives, Left(), block, indentless));
              var due := old(Due(tagDirectives, states, G.Then(n, Reading(tagDirectives, s, n.rest))));
              if ok then due == G.Emit(event, Todo()) else error && due == G.FAIL
    {
      hide Reading, G.Node, Waiting, ConfigOf, YamlEvents.Step, PlacesOf;
      ProceedsPlaces(state, s);
      ProceedsTo(states, state, s);
      StackPush(states, s);
      RestAfterNode(tagDirectives, states, G.Node(tagDirectives, Left(), block, indentless), s);
      WaitingPush(states, s);
      states := states + [s];
      ok, event := ParseNode(block, indentless);
    }

    /** The full tag for a handle and suffix. */
    method FindTag(t: TagDirective) returns (ok: bool, tag: string)
      ensures ok <==> G.ResolveTag(tagDirectives, Some(t)).Some?
      ensures ok ==> G.ResolveTag(tagDirectives, Some(t)) == Some(tag)
    {
      if t.handle == "" { return true, t.prefix; }
      tag := "";
      var i := 0;
      while i < |tagDirectives|
        invariant i <= |tagDirectives|
        invariant tag == ""
        invariant G.FindHandle(tagDirectives, t.handle) == G.FindHandle(tagDirectives[i..], t.handle)
      {
        if tagDirectives[i].handle == t.handle {
          tag := tagDirectives[i].prefix + t.prefix;
          break;
        }
        i := i + 1;
      }
      ok := tag != "";
    }

    method ScalarOf(anchor: Option<string>, tag: string, token: Token) returns (event: Event)
      requires token.ScalarToken?
      ensures event == G.ScalarEvent(anchor, tag, token)
    {
      var plainImplicit, quotedImplicit := false, false;
      if (|tag| == 0 && token.style == Plain) || (|tag| == 1 && tag[0] == '!') {
        plainImplicit := true;
      } else if |tag| == 0 {
        quotedImplicit := true;
      }
      event := Scalar(anchor, tag, token.text, plainImplicit, quotedImplicit, token.style);
    }

    /** The first event of a collection, and the state that it leads to. */
    static method CollectionStart(anchor: Option<string>, tag: string, block: bool, indentless: bool, token: Token,
                                  ghost td: seq<TagDirective>, ghost toks: seq<Token>)
      returns (s: State, event: Event)
      requires toks != [] && token == toks[0] && G.StartsCollection(token, block, indentless)
      ensures OpenedBy(s, event) && (s.IndentlessSequenceEntryState? || IsStartToken(s, token))
      ensures G.Content(td, anchor, tag, toks, block, indentless) == G.Emit(event, Reading(td, s, toks))
    {
      hide G.Emit, G.IndentlessSequence, G.FlowSequence, G.FlowMappingKey, G.BlockSequence, G.BlockMappingKey;
      var implicit := tag == "";
      if indentless && token.BlockEntryToken? {
        s, event := IndentlessSequenceEntryState, SequenceStart(anchor, tag, implicit, false);
      } else if token.FlowSequenceStartToken? {
        s, event := FlowSequenceFirstEntryState, SequenceStart(anchor, tag, implicit, true);
      } else if token.FlowMappingStartToken? {
        s, event := FlowMappingFirstKeyState, MappingStart(anchor, tag, implicit, true);
      } else if token.BlockSequenceStartToken? {
        s, event := BlockSequenceFirstEntryState, SequenceStart(anchor, tag, implicit, false);
      } else {
        s, event := BlockMappingFirstKeyState, MappingStart(anchor, tag, implicit, false);
      }
    }

    /** The part of `ParseNode` behind the properties. */
    method ParseContent(anchor: Option<string>, tag: string, block: bool, indentless: bool)
      returns (ok: bool, event: Event)
      requires pos < |input| && !error && !streamEndProduced
      requires StackOk(states) && |marks| == AllMarks(states)
      modifies this
      ensures Coherent() && (ok ==> Step(InDocument(old(Waiting(states))), event) == Some(Standing()))
      ensures ok ==> !error
      ensures var n := old(G.Content(tagDirectives, anchor, tag, Left(), block, indentless));
              var due := old(Due(tagDirectives, states, n));
              if ok then due == G.Emit(event, Todo()) else error && due == G.FAIL
    {
      hide Rest, Due, G.Then, G.Emit, AllMarks, StackOk, Waiting, Complete, YamlEvents.Step, ConfigOf, PlacesOf;
      hide Reading;
      hide G.IndentlessSequence, G.FlowSequence, G.FlowMappingKey, G.BlockSequence, G.BlockMappingKey;
      DueFail(tagDirectives, states);
      ok := true;
      if G.StartsCollection(input[pos], block, indentless) {
        var s;
        s, event := CollectionStart(anchor, tag, block, indentless, input[pos], tagDirectives, Left());
        OpenCollection(s, event);
      } else if input[pos].ScalarToken? {
        event := ScalarOf(anchor, tag, input[pos]);
        SkipToken();
        FinishScalar(event);
      } else if (anchor.Some? && |anchor.value| > 0) || |tag| > 0 {
        event := Scalar(anchor, tag, "", tag == "", false, Plain);
        FinishScalar(event);
      } else {
        event := EMPTY_SCALAR;
        error := true;
        ok := false;
      }
    }

    // -------------------------------------------------------------- block collections

    /** The part of `ParseBlockSequenceEntry` from the dash on. */
    method ParseBlockSequenceItem() returns (ok: bool, event: Event)
      requires pos < |input| && !error && !streamEndProduced && input[pos].BlockEntryToken?
      requires StackOk(states) && |marks| == AllMarks(states) + 1 && Proceeds(state, BlockSequenceEntryState)
      modifies this
      ensures Coherent() && (ok ==> Step(old(Standing()), event) == Some(Standing()))
      ensures ok ==> !error
      ensures var due := old(Due(tagDirectives, states, G.BlockSequence(tagDirectives, Left())));
              if ok then due == G.Emit(event, Todo()) else error && due == G.FAIL
    {
      hide Rest, Due, G.Then, G.Emit, AllMarks, StackOk, Waiting, YamlEvents.Step, ConfigOf, G.Node;
      DueFail(tagDirectives, states);
      event := EMPTY_SCALAR;
      SkipToken();
      var token := PeekToken();
      if token.None? { return false, event; }
      if !token.value.BlockEntryToken? && !token.value.BlockEndToken? {
        ok, event := ParseNodeThen(BlockSequenceEntryState, true, false);
      } else {
        MissingNode(BlockSequenceEntryState);
        ok := true;
      }
    }

    method ParseBlockSequenceEntry(first: bool) returns (ok: bool, event: Event)
      requires Coherent() && !error && !streamEndProduced
      requires state == (if first then BlockSequenceFirstEntryState else BlockSequenceEntryState)
      modifies this
      ensures Coherent()
      ensures ok ==> !error && old(Todo()) == G.Emit(event, Todo())
      ensures ok ==> Step(old(Standing()), event) == Some(Standing())
      ensures !ok ==> error && old(Todo()) == G.FAIL
    {
      hide Rest, Due, G.Then, G.Emit, AllMarks, StackOk, Waiting, YamlEvents.Step, ConfigOf, G.Node;
      DueFail(tagDirectives, states);
      event := EMPTY_SCALAR;
      RestPush(tagDirectives, states, state, Left());
      if first {
        marks := marks + [pos];
        SkipToken();
      }
      var token := PeekToken();
      if token.None? { return false, event; }
      if token.value.BlockEntryToken? {
        ok, event := ParseBlockSequenceItem();
      } else if token.value.BlockEndToken? {
        event := SequenceEnd;
        CloseCollection(event);
        ok := true;
      } else {
        marks := marks[..|marks| - 1];
        error := true;
        ok := false;
      }
    }

    method ParseIndentlessSequenceEntry() returns (ok: bool, event: Event)
      requires Coherent() && !error && !streamEndProduced && state.IndentlessSequenceEntryState?
      modifies this
      ensures Coherent()
      ensures ok ==> !error && old(Todo()) == G.Emit(event, Todo())
      ensures ok ==> Step(old(Standing()), event) == Some(Standing())
      ensures !ok ==> error && old(Todo()) == G.FAIL
    {
      hide Rest, Due, G.Then, G.Emit, AllMarks, StackOk, Waiting, YamlEvents.Step, ConfigOf, G.Node;
      DueFail(tagDirectives, states);
      event := EMPTY_SCALAR;
      RestPush(tagDirectives, states, state, Left());
      var token := PeekToken();
      if token.None? { return false, event; }
      if token.value.BlockEntryToken? {
        SkipToken();
        token := PeekToken();
        if token.None? { return false, event; }
        if !token.value.BlockEntryToken? && !token.value.KeyToken? && !token.value.ValueToken? &&
           !token.value.BlockEndToken?
        {
          ok, event := ParseNodeThen(IndentlessSequenceEntryState, true, false);
        } else {
          MissingNode(IndentlessSequenceEntryState);
          ok := true;
        }
      } else {
        event := SequenceEnd;
        AfterEnd(states, state, event);
        FinishNode(event);
        ok := true;
      }
    }

    /** The part of `ParseBlockMappingKey` from KEY on. */
    method ParseBlockMappingItem() returns (ok: bool, event: Event)
      requires pos < |input| && !error && !streamEndProduced && input[pos].KeyToken?
      requires StackOk(states) && |marks| == AllMarks(states) + 1 && Proceeds(state, BlockMappingValueState)
      modifies this
      ensures Coherent() && (ok ==> Step(old(Standing()), event) == Some(Standing()))
      ensures ok ==> !error
      ensures var due := old(Due(tagDirectives, states, G.BlockMappingKey(tagDirectives, Left())));
              if ok then due == G.Emit(event, Todo()) else error && due == G.FAIL
    {
      hide Rest, Due, G.Then, G.Emit, AllMarks, StackOk, Waiting, YamlEvents.Step, ConfigOf, G.Node;
      hide G.BlockMappingValue;
      DueFail(tagDirectives, states);
      event := EMPTY_SCALAR;
      SkipToken();
      var token := PeekToken();
      if token.None? { return false, event; }
      if !token.value.KeyToken? && !token.value.ValueToken? && !token.value.BlockEndToken? {
        ok, event := ParseNodeThen(BlockMappingValueState, true, true);
      } else {
        MissingNode(BlockMappingValueState);
        ok := true;
      }
    }

    method ParseBlockMappingKey(first: bool) returns (ok: bool, event: Event)
      requires Coherent() && !error && !streamEndProduced
      requires state == (if first then BlockMappingFirstKeyState else BlockMappingKeyState)
      modifies this
      ensures Coherent()
      ensures ok ==> !error && old(Todo()) == G.Emit(event, Todo())
      ensures ok ==> Step(old(Standing()), event) == Some(Standing())
      ensures !ok ==> error && old(Todo()) == G.FAIL
    {
      hide Rest, Due, G.Then, G.Emit, AllMarks, StackOk, Waiting, YamlEvents.Step, ConfigOf, G.Node;
      hide G.BlockMappingValue;
      DueFail(tagDirectives, states);
      event := EMPTY_SCALAR;
      RestPush(tagDirectives, states, state, Left());
      if first {
        marks := marks + [pos];
        SkipToken();
      }
      var token := PeekToken();
      if token.None? { return false, event; }
      if token.value.KeyToken? {
        ok, event := ParseBlockMappingItem();
      } else if token.value.BlockEndToken? {
        event := MappingEnd;
        CloseCollection(event);
        ok := true;
      } else {
        marks := marks[..|marks| - 1];
        error := true;
        ok := false;
      }
    }

    method ParseBlockMappingValue() returns (ok: bool, event: Event)
      requires Coherent() && !error && !streamEndProduced && state.BlockMappingValueState?
      modifies this
      ensures Coherent()
      ensures ok ==> !error && old(Todo()) == G.Emit(event, Todo())
      ensures ok ==> Step(old(Standing()), event) == Some(Standing())
      ensures !ok ==> error && old(Todo()) == G.FAIL
    {
      hide Rest, Due, G.Then, G.Emit, AllMarks, StackOk, Waiting, YamlEvents.Step, ConfigOf, G.Node, G.BlockMappingKey;
      DueFail(tagDirectives, states);
      event := EMPTY_SCALAR;
      RestPush(tagDirectives, states, state, Left());
      var token := PeekToken();
      if token.None? { return false, event; }
      if token.value.ValueToken? {
        SkipToken();
        token := PeekToken();
        if token.None? { return false, event; }
        if !token.value.KeyToken? && !token.value.ValueToken? && !token.value.BlockEndToken? {
          ok, event := ParseNodeThen(BlockMappingKeyState, true, true);
          return;
        }
      }
      MissingNode(BlockMappingKeyState);
      ok := true;
    }

    // -------------------------------------------------------------- flow collections

    method ParseFlowSequenceEntry(first: bool) returns (ok: bool, event: Event)
      requires Coherent() && !error && !streamEndProduced
      requires state == (if first then FlowSequenceFirstEntryState else FlowSequenceEntryState)
      modifies this
      ensures Coherent()
      ensures ok ==> !error && old(Todo()) == G.Emit(event, Todo())
      ensures ok ==> Step(old(Standing()), event) == Some(Standing())
      ensures !ok ==> error && old(Todo()) == G.FAIL
    {
      hide Rest, Due, G.Then, G.Emit, AllMarks, StackOk, Waiting, YamlEvents.Step, ConfigOf, G.FlowSequenceEntry;
      DueFail(tagDirectives, states);
      event := EMPTY_SCALAR;
      RestPush(tagDirectives, states, state, Left());
      if first {
        marks := marks + [pos];
        SkipToken();
      }
      var token := PeekToken();
      if token.None? { return false, event; }
      if !token.value.FlowSequenceEndToken? {
        if !first {
          if token.value.FlowEntryToken? {
            SkipToken();
            token := PeekToken();
            if token.None? { return false, event; }
          } else {
            marks := marks[..|marks| - 1];
            error := true;
            return false, event;
          }
        }
        if !token.value.FlowSequenceEndToken? {
          ok, event := ParseFlowSequenceItem();
          return;
        }
      }
      event := SequenceEnd;
      CloseCollection(event);
      ok := true;
    }

    /** The part of `ParseFlowSequenceEntry` behind the comma. */
    method ParseFlowSequenceItem() returns (ok: bool, event: Event)
      requires pos < |input| && !error && !streamEndProduced
      requires StackOk(states) && |marks| == AllMarks(states) + 1 && Proceeds(state, FlowSequenceEntryState)
      modifies this
      ensures Coherent() && (ok ==> Step(old(Standing()), event) == Some(Standing()))
      ensures ok ==> !error
      ensures var due := old(Due(tagDirectives, states, G.FlowSequenceEntry(tagDirectives, Left())));
              if ok then due == G.Emit(event, Todo()) else error && due == G.FAIL
    {
      hide Rest, Due, G.Then, G.Emit, AllMarks, StackOk, Waiting, YamlEvents.Step, ConfigOf, G.Node, G.PairKey;
      DueFail(tagDirectives, states);
      if input[pos].KeyToken? {
        event := MappingStart(None, "", true, true);
        AfterPairStart(states, state, event);
        SkipToken();
        GoTo(FlowSequenceEntryMappingKeyState, event);
        ok := true;
      } else {
        ok, event := ParseNodeThen(FlowSequenceEntryState, false, false);
      }
    }

    method ParseFlowSequenceEntryMappingKey() returns (ok: bool, event: Event)
      requires Coherent() && !error && !streamEndProduced && state.FlowSequenceEntryMappingKeyState?
      modifies this
      ensures Coherent()
      ensures ok ==> !error && old(Todo()) == G.Emit(event, Todo())
      ensures ok ==> Step(old(Standing()), event) == Some(Standing())
      ensures !ok ==> error && old(Todo()) == G.FAIL
    {
      hide Rest, Due, G.Then, G.Emit, AllMarks, StackOk, Waiting, YamlEvents.Step, ConfigOf, G.Node, G.PairValue;
      DueFail(tagDirectives, states);
      event := EMPTY_SCALAR;
      RestPush(tagDirectives, states, state, Left());
      var token := PeekToken();
      if token.None? { return false, event; }
      if !token.value.ValueToken? && !token.value.FlowEntryToken? && !token.value.FlowSequenceEndToken? {
        ok, event := ParseNodeThen(FlowSequenceEntryMappingValueState, false, false);
        return;
      }
      SkipToken();
      MissingNode(FlowSequenceEntryMappingValueState);
      ok := true;
    }

    method ParseFlowSequenceEntryMappingValue() returns (ok: bool, event: Event)
      requires Coherent() && !error && !streamEndProduced && state.FlowSequenceEntryMappingValueState?
      modifies this
      ensures Coherent()
      ensures ok ==> !error && old(Todo()) == G.Emit(event, Todo())
      ensures ok ==> Step(old(Standing()), event) == Some(Standing())
      ensures !ok ==> error && old(Todo()) == G.FAIL
    {
      hide Rest, Due, G.Then, G.Emit, AllMarks, StackOk, Waiting, YamlEvents.Step, ConfigOf, G.Node, G.PairEnd;
      DueFail(tagDirectives, states);
      event := EMPTY_SCALAR;
      RestPush(tagDirectives, states, state, Left());
      var token := PeekToken();
      if token.None? { return false, event; }
      if token.value.ValueToken? {
        SkipToken();
        token := PeekToken();
        if token.None? { return false, event; }
        if !token.value.FlowEntryToken? && !token.value.FlowSequenceEndToken? {
          ok, event := ParseNodeThen(FlowSequenceEntryMappingEndState, false, false);
          return;
        }
      }
      MissingNode(FlowSequenceEntryMappingEndState);
      ok := true;
    }

    method ParseFlowSequenceEntryMappingEnd() returns (ok: bool, event: Event)
      requires Coherent() && !error && !streamEndProduced && state.FlowSequenceEntryMappingEndState?
      modifies this
      ensures Coherent()
      ensures ok ==> !error && old(Todo()) == G.Emit(event, Todo())
      ensures ok ==> Step(old(Standing()), event) == Some(Standing())
      ensures !ok ==> error && old(Todo()) == G.FAIL
    {
      hide Rest, Due, G.Then, G.Emit, AllMarks, StackOk, Waiting, YamlEvents.Step, ConfigOf, G.FlowSequence;
      DueFail(tagDirectives, states);
      event := EMPTY_SCALAR;
      RestPush(tagDirectives, states, state, Left());
      AfterPair(states);
      var token := PeekToken();
      if token.None? { return false, event; }
      event := MappingEnd;
      GoTo(FlowSequenceEntryState, event);
      ok := true;
    }

    method ParseFlowMappingKey(first: bool) returns (ok: bool, event: Event)
      requires Coherent() && !error && !streamEndProduced
      requires state == (if first then FlowMappingFirstKeyState else FlowMappingKeyState)
      modifies this
      ensures Coherent()
      ensures ok ==> !error && old(Todo()) == G.Emit(event, Todo())
      ensures ok ==> Step(old(Standing()), event) == Some(Standing())
      ensures !ok ==> error && old(Todo()) == G.FAIL
    {
      hide Rest, Due, G.Then, G.Emit, AllMarks, StackOk, Waiting, YamlEvents.Step, ConfigOf, G.FlowMappingEntry;
      DueFail(tagDirectives, states);
      event := EMPTY_SCALAR;
      RestPush(tagDirectives, states, state, Left());
      if first {
        marks := marks + [pos];
        SkipToken();
      }
      var token := PeekToken();
      if token.None? { return false, event; }
      if !token.value.FlowMappingEndToken? {
        if !first {
          if token.value.FlowEntryToken? {
            SkipToken();
            token := PeekToken();
            if token.None? { return false, event; }
          } else {
            marks := marks[..|marks| - 1];
            error := true;
            return false, event;
          }
        }
        if !token.value.FlowMappingEndToken? {
          ok, event := ParseFlowMappingItem();
          return;
        }
      }
      event := MappingEnd;
      CloseCollection(event);
      ok := true;
    }

    /** The part of `ParseFlowMappingKey` behind the comma. */
    method ParseFlowMappingItem() returns (ok: bool, event: Event)
      requires pos < |input| && !error && !streamEndProduced
      requires StackOk(states) && |marks| == AllMarks(states) + 1 && Proceeds(state, FlowMappingValueState)
      modifies this
      ensures Coherent() && (ok ==> Step(old(Standing()), event) == Some(Standing()))
      ensures ok ==> !error
      ensures var due := old(Due(tagDirectives, states, G.FlowMappingEntry(tagDirectives, Left())));
              if ok then due == G.Emit(event, Todo()) else error && due == G.FAIL
    {
      hide Rest, Due, G.Then, G.Emit, AllMarks, StackOk, Waiting, YamlEvents.Step, ConfigOf, G.Node, G.FlowMappingValue;
      DueFail(tagDirectives, states);
      event := EMPTY_SCALAR;
      if input[pos].KeyToken? {
        SkipToken();
        var token := PeekToken();
        if token.None? { return false, event; }
        if !token.value.ValueToken? && !token.value.FlowEntryToken? && !token.value.FlowMappingEndToken? {
          ok, event := ParseNodeThen(FlowMappingValueState, false, false);
        } else {
          MissingNode(FlowMappingValueState);
          ok := true;
        }
      } else {
        ok, event := ParseNodeThen(FlowMappingEmptyValueState, false, false);
      }
    }

    method ParseFlowMappingValue(empty: bool) returns (ok: bool, event: Event)
      requires Coherent() && !error && !streamEndProduced
      requires state == (if empty then FlowMappingEmptyValueState else FlowMappingValueState)
      modifies this
      ensures Coherent()
      ensures ok ==> !error && old(Todo()) == G.Emit(event, Todo())
      ensures ok ==> Step(old(Standing()), event) == Some(Standing())
      ensures !ok ==> error && old(Todo()) == G.FAIL
    {
      hide Rest, Due, G.Then, G.Emit, AllMarks, StackOk, Waiting, YamlEvents.Step, ConfigOf, G.Node, G.FlowMappingKey;
      DueFail(tagDirectives, states);
      event := EMPTY_SCALAR;
      RestPush(tagDirectives, states, state, Left());
      var token := PeekToken();
      if token.None? { return false, event; }
      if !empty && token.value.ValueToken? {
        SkipToken();
        token := PeekToken();
        if token.None? { return false, event; }
        if !token.value.FlowEntryToken? && !token.value.FlowMappingEndToken? {
          ok, event := ParseNodeThen(FlowMappingKeyState, false, false);
          return;
        }
      }
      MissingNode(FlowMappingKeyState);
      ok := true;
    }
  }

  lemma EndIsEnd(td: seq<TagDirective>, toks: seq<Token>)
    ensures Rest(td, [] + [EndState], toks) == G.Out([], toks, true)
  {
    OuterRest(td, EndState, toks);
  }

  /** Event after event, up to the end of the stream or an error: for every list of tokens this comes to an end. */
  method ParseStream(toks: seq<Token>) returns (events: seq<Event>, ok: bool)
    ensures events == G.Stream(toks).events && ok == G.Stream(toks).ok
    ensures forall side :: D.EventsData(side, events) <= D.Data(side, D.START, toks)
    ensures ok ==> forall side :: D.EventsData(side, events) == D.Data(side, D.START, toks)
  {
    hide D.EventsData, D.Data;
    hide Rest, Reading, G.Stream, ConfigOf, Run, YamlEvents.Step, StackOk, AllMarks;
    forall side { D.StreamCarries(side, toks); }
    var p := new Parser(toks);
    events := [];
    while !p.state.EndState?
      invariant fresh(p) && p.Valid() && !p.error && p.produced == events
      invariant events + p.Todo().events == G.Stream(toks).events && p.Todo().ok == G.Stream(toks).ok
      decreases |p.Todo().events|
    {
      var e;
      ghost var before, todo := events, p.Todo();
      ok, e := p.Parse();
      if !ok {
        assert events + [] == events;
        return;
      }
      events := events + [e.value];
      assert before + ([e.value] + p.Todo().events) == events + p.Todo().events;
    }
    EndIsEnd(p.tagDirectives, p.Left());
    assert events + [] == events;
    ok := true;
  }
}
