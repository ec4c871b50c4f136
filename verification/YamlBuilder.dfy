/**
 The node builder of the decoder: recursive descent over the parser's events. It trusts the
 parser to nest its events and panics otherwise; here those panics are proved unreachable,
 for every token list, and the node built is the tree that the consumed events spell out.
 */
module YamlBuilder {
  import opened Wrappers
  import opened YamlEvents
  import opened YamlTokens
  import opened YamlParser
  import G = YamlGrammar
  import N = YamlNesting

  datatype Node =
    | AliasNode(value: string)
    | ScalarNode(tag: string, value: string, implicit: bool)
    | SequenceNode(children: seq<Node>)
    | MappingNode(children: seq<Node>)

  datatype Anchor = Anchor(name: string, node: Node)

  /** A document node: its root, and its anchors in the order in which they were met. */
  datatype DocumentNode = DocumentNode(root: Node, anchors: seq<Anchor>)

  // ---------------------------------------------------------------- specification

  /** The node for a tree of events. */
  ghost function NodeOf(t: Tree): Node
    requires WellFormed(t)
  {
    match t
    case Leaf(e) => if e.Alias? then AliasNode(e.name) else ScalarNode(e.tag, e.text, e.implicit)
    case Collection(s, children) =>
      var nodes := NodesOf(children);
      if s.SequenceStart? then SequenceNode(nodes) else MappingNode(nodes)
  }

  ghost function NodesOf(ts: seq<Tree>): (ns: seq<Node>)
    requires forall i | 0 <= i < |ts| :: WellFormed(ts[i])
    ensures |ns| == |ts|
  {
    if ts == [] then [] else [NodeOf(ts[0])] + NodesOf(ts[1..])
  }

  ghost function AnchorOf(e: Event, n: Node): seq<Anchor> {
    if (e.Scalar? || e.SequenceStart? || e.MappingStart?) && e.anchor.Some? then [Anchor(e.anchor.value, n)] else []
  }

  /** Anchored nodes in document order, a collection before its children. */
  ghost function AnchorsOf(t: Tree): seq<Anchor>
    requires WellFormed(t)
  {
    match t
    case Leaf(e) => AnchorOf(e, NodeOf(t))
    case Collection(s, children) => AnchorOf(s, NodeOf(t)) + AllAnchors(children)
  }

  ghost function AllAnchors(ts: seq<Tree>): seq<Anchor>
    requires forall i | 0 <= i < |ts| :: WellFormed(ts[i])
  {
    if ts == [] then [] else AnchorsOf(ts[0]) + AllAnchors(ts[1..])
  }

  lemma {:induction false} ChildrenAppend(ts: seq<Tree>, t: Tree)
    requires WellFormed(t) && forall i | 0 <= i < |ts| :: WellFormed(ts[i])
    ensures FlattenAll(ts + [t]) == FlattenAll(ts) + Flatten(t)
    ensures NodesOf(ts + [t]) == NodesOf(ts) + [NodeOf(t)]
    ensures AllAnchors(ts + [t]) == AllAnchors(ts) + AnchorsOf(t)
  {
    if ts == [] {
      assert [] + [t] == [t] && [t][1..] == [];
      assert Flatten(t) + [] == Flatten(t) && AnchorsOf(t) + [] == AnchorsOf(t);
    } else {
      ChildrenAppend(ts[1..], t);
      assert (ts + [t])[0] == ts[0] && (ts + [t])[1..] == ts[1..] + [t];
      var f, a := Flatten(ts[0]), AnchorsOf(ts[0]);
      assert f + (FlattenAll(ts[1..]) + Flatten(t)) == (f + FlattenAll(ts[1..])) + Flatten(t);
      assert a + (AllAnchors(ts[1..]) + AnchorsOf(t)) == (a + AllAnchors(ts[1..])) + AnchorsOf(t);
    }
  }

  /** From `c`, the event `e` and what follows it run, and end the stream if nothing goes wrong. */
  ghost predicate Fits(c: Config, e: Event, todo: G.Out) {
    var r := Run(c, [e] + todo.events);
    r.Some? && (todo.ok ==> r.value == Ended)
  }

  lemma FitsStep(c: Config, e: Event, next: Event, todo: G.Out)
    requires Fits(c, e, G.Emit(next, todo))
    ensures Step(c, e).Some? && Fits(Step(c, e).value, next, todo)
  {
  }

  /** What the automaton allows next. */
  lemma FitsEvent(c: Config, e: Event, todo: G.Out)
    requires Fits(c, e, todo)
    ensures Step(c, e).Some?
    ensures c.BetweenDocuments? ==> e.DocumentStart? || e.StreamEnd?
    ensures c.InDocument? && c.open == [] ==> StartsNode(e)
    ensures c.InDocument? && c.open != [] && c.open[|c.open| - 1] == InSequence ==> StartsNode(e) || e.SequenceEnd?
    ensures c.InDocument? && c.open != [] && c.open[|c.open| - 1] == AtKey ==> StartsNode(e) || e.MappingEnd?
    ensures c.InDocument? && c.open != [] && c.open[|c.open| - 1] == AtValue ==> StartsNode(e)
    ensures c.AfterRoot? ==> e.DocumentEnd?
    ensures todo == G.Out([], todo.rest, true) ==> e.StreamEnd?
  {
    RunCons(c, e, todo.events);
  }

  /** Putting a collection together from its parts. */
  lemma CollectionParts(start: Event, ts: seq<Tree>, ahead: seq<Event>)
    requires start.SequenceStart? || (start.MappingStart? && |ts| % 2 == 0)
    requires forall i | 0 <= i < |ts| :: WellFormed(ts[i])
    ensures WellFormed(Collection(start, ts))
    ensures NodeOf(Collection(start, ts)) ==
            if start.SequenceStart? then SequenceNode(NodesOf(ts)) else MappingNode(NodesOf(ts))
    ensures [start] + FlattenAll(ts) + ([EndOf(start)] + ahead) == Flatten(Collection(start, ts)) + ahead
  {
  }

  lemma OneMore(start: Event, ts: seq<Tree>, t: Tree, ahead: seq<Event>)
    requires WellFormed(t) && forall i | 0 <= i < |ts| :: WellFormed(ts[i])
    ensures |Flatten(t)| > 0
    ensures forall i | 0 <= i < |ts + [t]| :: WellFormed((ts + [t])[i])
    ensures [start] + FlattenAll(ts) + (Flatten(t) + ahead) == [start] + FlattenAll(ts + [t]) + ahead
    ensures NodesOf(ts + [t]) == NodesOf(ts) + [NodeOf(t)]
    ensures forall a: seq<Anchor> :: a + AllAnchors(ts) + AnchorsOf(t) == a + AllAnchors(ts + [t])
  {
    ChildrenAppend(ts, t);
  }

  lemma Started(start: Event, open: seq<Place>)
    ensures start.SequenceStart? ==> Step(InDocument(open), start) == Some(InDocument(open + [InSequence]))
    ensures start.MappingStart? ==> Step(InDocument(open), start) == Some(InDocument(open + [AtKey]))
    ensures FlattenAll([]) == [] && NodesOf([]) == [] && AllAnchors([]) == []
  {
  }

  lemma Closed(open: seq<Place>, p: Place)
    ensures p == InSequence ==> Step(InDocument(open + [p]), SequenceEnd) == Some(Complete(open))
    ensures p == AtKey ==> Step(InDocument(open + [p]), MappingEnd) == Some(Complete(open))
  {
  }

  /** Filling in the place that was reserved for a collection's anchor. */
  lemma AnchorParts(start: Event, ts: seq<Tree>, before: seq<Anchor>, reserved: seq<Anchor>)
    requires start.SequenceStart? || (start.MappingStart? && |ts| % 2 == 0)
    requires forall i | 0 <= i < |ts| :: WellFormed(ts[i])
    requires if start.anchor.Some? then |reserved| == |before| + 1 && reserved[..|before|] == before
             else reserved == before
    ensures var all, node := reserved + AllAnchors(ts), NodeOf(Collection(start, ts));
            (if start.anchor.Some? then all[|before| := Anchor(start.anchor.value, node)] else all)
            == before + AnchorsOf(Collection(start, ts))
  {
    var node := NodeOf(Collection(start, ts));
    hide NodeOf, AllAnchors, NodesOf;
    if start.anchor.Some? {
      FillPlace(before, reserved, Anchor(start.anchor.value, node), AllAnchors(ts));
    }
  }

  lemma FillPlace(before: seq<Anchor>, reserved: seq<Anchor>, x: Anchor, after: seq<Anchor>)
    requires |reserved| == |before| + 1 && reserved[..|before|] == before
    ensures (reserved + after)[|before| := x] == before + ([x] + after)
  {
  }

  // ---------------------------------------------------------------- the builder

  class Builder {
    const parser: Parser
    /** The event that has been parsed but not used. */
    var event: Event
    var anchors: seq<Anchor>
    /** Where the automaton of event streams stands before `event`. */
    ghost var config: Config

    /** From here on the parser belongs to the builder. */
    constructor (parser: Parser, event: Event, ghost config: Config)
      requires parser.Valid() && !parser.error && Fits(config, event, parser.Todo())
      requires Step(config, event) == Some(parser.Standing())
      ensures Valid() && this.parser == parser && this.event == event && this.config == config && anchors == []
    {
      hide Rest, Reading, Run, Fits;
      this.parser, this.event, this.config, anchors := parser, event, config, [];
    }

    ghost predicate Valid()
      reads this, parser
    {
      && parser.Valid() && !parser.error && Fits(config, event, parser.Todo())
      && Step(config, event) == Some(parser.Standing())
    }

    ghost function Ahead(): seq<Event>
      reads this, parser
      requires parser.pos <= |parser.input|
    {
      [event] + parser.Todo().events
    }

    /** Use up the current event. Fails only if the parser does. */
    method Skip() returns (ok: bool)
      requires Valid() && !event.StreamEnd?
      modifies this, parser
      ensures ok ==> Valid() && Step(old(config), old(event)) == Some(config)
      ensures ok ==> old(Ahead()) == [old(event)] + Ahead() && old(parser.Todo().ok) == parser.Todo().ok
      ensures anchors == old(anchors)
      ensures !ok ==> !old(parser.Todo().ok)
    {
      hide Run, Rest, Reading;
      FitsEvent(config, event, parser.Todo());
      OuterRest(parser.tagDirectives, EndState, parser.Left());
      ghost var todo := parser.Todo();
      EndIsEnd(parser.tagDirectives, parser.Left());
      var e;
      ok, e := parser.Parse();
      if ok {
        FitsStep(config, event, e.value, parser.Todo());
        config := Step(config, event).value;
        event := e.value;
      }
    }

    /** A node and everything below it. */
    method Parse() returns (ok: bool, node: Node, ghost t: Tree)
      requires Valid() && config.InDocument? && StartsNode(event)
      modifies this, parser
      ensures ok ==> Valid() && config == Complete(old(config).open) && parser.Todo().ok == old(parser.Todo().ok)
      ensures ok ==> WellFormed(t) && node == NodeOf(t) && old(Ahead()) == Flatten(t) + Ahead()
      ensures ok ==> anchors == old(anchors) + AnchorsOf(t)
      ensures !ok ==> !old(parser.Todo().ok)
      decreases |Ahead()|, 1
    {
      hide Run, Rest, Reading, ConfigOf, Parser.InStep, Fits;
      match event
      case Scalar(_, _, _, _, _, _) => ok, node, t := ScalarLeaf();
      case Alias(_) => ok, node, t := AliasLeaf();
      case MappingStart(_, _, _, _) => ok, node, t := Mapping();
      case SequenceStart(_, _, _, _) => ok, node, t := Sequence();
    }

    method AliasLeaf() returns (ok: bool, node: Node, ghost t: Tree)
      requires Valid() && config.InDocument? && event.Alias?
      modifies this, parser
      ensures ok ==> Valid() && config == Complete(old(config).open) && parser.Todo().ok == old(parser.Todo().ok)
      ensures ok ==> WellFormed(t) && node == NodeOf(t) && old(Ahead()) == Flatten(t) + Ahead()
      ensures ok ==> anchors == old(anchors) + AnchorsOf(t)
      ensures !ok ==> !old(parser.Todo().ok)
      decreases |Ahead()|, 0
    {
      hide Run, Rest, Reading, ConfigOf, Parser.InStep, Fits;
      node, t := AliasNode(event.name), Leaf(event);
      ok := Skip();
    }

    method ScalarLeaf() returns (ok: bool, node: Node, ghost t: Tree)
      requires Valid() && config.InDocument? && event.Scalar?
      modifies this, parser
      ensures ok ==> Valid() && config == Complete(old(config).open) && parser.Todo().ok == old(parser.Todo().ok)
      ensures ok ==> WellFormed(t) && node == NodeOf(t) && old(Ahead()) == Flatten(t) + Ahead()
      ensures ok ==> anchors == old(anchors) + AnchorsOf(t)
      ensures !ok ==> !old(parser.Todo().ok)
      decreases |Ahead()|, 0
    {
      hide Run, Rest, Reading, ConfigOf, Parser.InStep, Fits;
      node, t := ScalarNode(event.tag, event.text, event.implicit), Leaf(event);
      if event.anchor.Some? {
        anchors := anchors + [Anchor(event.anchor.value, node)];
      }
      ok := Skip();
    }

    /** One more child of the collection that began with `start`, at place `p` inside `open`. */
    method Child(children: seq<Node>, ghost open: seq<Place>, ghost p: Place, ghost start: Event,
                 ghost ts: seq<Tree>, ghost whole: seq<Event>, ghost reserved: seq<Anchor>)
      returns (ok: bool, children': seq<Node>, ghost ts': seq<Tree>)
      requires Valid() && config == InDocument(open + [p]) && StartsNode(event)
      requires forall i | 0 <= i < |ts| :: WellFormed(ts[i])
      requires children == NodesOf(ts) && anchors == reserved + AllAnchors(ts)
      requires whole == [start] + FlattenAll(ts) + Ahead()
      modifies this, parser
      ensures ok ==> Valid() && config == InDocument(open + [Advance(p)]) && parser.Todo().ok == old(parser.Todo().ok)
      ensures ok ==> |ts'| == |ts| + 1 && forall i | 0 <= i < |ts'| :: WellFormed(ts'[i])
      ensures ok ==> children' == NodesOf(ts') && anchors == reserved + AllAnchors(ts')
      ensures ok ==> whole == [start] + FlattenAll(ts') + Ahead() && |Ahead()| < |old(Ahead())|
      ensures ok ==> StartsNode(event) || (p == InSequence && event.SequenceEnd?) || (p == AtValue && event.MappingEnd?)
      ensures !ok ==> !old(parser.Todo().ok)
      decreases |Ahead()|, 2
    {
      hide Run, Rest, Reading, ConfigOf, Parser.InStep, Fits, Step, Flatten, FlattenAll, NodeOf, NodesOf, AnchorsOf;
      hide AllAnchors, WellFormed;
      children', ts' := children, ts;
      var node;
      ghost var t;
      ok, node, t := Parse();
      if !ok { return; }
      OneMore(start, ts, t, Ahead());
      NextPlace(open, p);
      FitsEvent(config, event, parser.Todo());
      children', ts' := children + [node], ts + [t];
    }

    /**
     The node of a collection is known to the anchors from its start, before it has children;
     on values, its place is reserved and filled in at the end.
     */
    method Sequence() returns (ok: bool, node: Node, ghost t: Tree)
      requires Valid() && config.InDocument? && event.SequenceStart?
      modifies this, parser
      ensures ok ==> Valid() && config == Complete(old(config).open) && parser.Todo().ok == old(parser.Todo().ok)
      ensures ok ==> WellFormed(t) && node == NodeOf(t) && old(Ahead()) == Flatten(t) + Ahead()
      ensures ok ==> anchors == old(anchors) + AnchorsOf(t)
      ensures !ok ==> !old(parser.Todo().ok)
      decreases |Ahead()|, 0
    {
      hide Run, Rest, Reading, ConfigOf, Parser.InStep, Fits, Step, Flatten, FlattenAll, NodeOf, NodesOf, AnchorsOf;
      hide AllAnchors, WellFormed;
      node, t := SequenceNode([]), Leaf(event);
      var anchor, place := event.anchor, |anchors|;
      if anchor.Some? {
        anchors := anchors + [Anchor(anchor.value, node)];
      }
      ghost var start, reserved, open := event, anchors, config.open;
      ok := Skip();
      if !ok { return; }
      var children: seq<Node> := [];
      ghost var ts: seq<Tree> := [];
      Started(start, open);
      FitsEvent(config, event, parser.Todo());
      while !event.SequenceEnd?
        invariant Valid() && config == InDocument(open + [InSequence]) && parser.Todo().ok == old(parser.Todo().ok)
        invariant StartsNode(event) || event.SequenceEnd?
        invariant forall i | 0 <= i < |ts| :: WellFormed(ts[i])
        invariant children == NodesOf(ts) && anchors == reserved + AllAnchors(ts)
        invariant old(Ahead()) == [start] + FlattenAll(ts) + Ahead()
        decreases |Ahead()|
      {
        ok, children, ts := Child(children, open, InSequence, start, ts, old(Ahead()), reserved);
        if !ok { return; }
      }
      node := SequenceNode(children);
      if anchor.Some? {
        anchors := anchors[place := Anchor(anchor.value, node)];
      }
      t := Collection(start, ts);
      AnchorParts(start, ts, old(anchors), reserved);
      Closed(open, InSequence);
      ok := Skip();
      if ok { CollectionParts(start, ts, Ahead()); }
    }

    /** Keys and values are parsed in pairs, so the children are even in number. */
    method Mapping() returns (ok: bool, node: Node, ghost t: Tree)
      requires Valid() && config.InDocument? && event.MappingStart?
      modifies this, parser
      ensures ok ==> Valid() && config == Complete(old(config).open) && parser.Todo().ok == old(parser.Todo().ok)
      ensures ok ==> WellFormed(t) && node == NodeOf(t) && old(Ahead()) == Flatten(t) + Ahead()
      ensures ok ==> anchors == old(anchors) + AnchorsOf(t)
      ensures !ok ==> !old(parser.Todo().ok)
      decreases |Ahead()|, 0
    {
      hide Run, Rest, Reading, ConfigOf, Parser.InStep, Fits, Step, Flatten, FlattenAll, NodeOf, NodesOf, AnchorsOf;
      hide AllAnchors, WellFormed;
      node, t := MappingNode([]), Leaf(event);
      var anchor, place := event.anchor, |anchors|;
      if anchor.Some? {
        anchors := anchors + [Anchor(anchor.value, node)];
      }
      ghost var start, reserved, open := event, anchors, config.open;
      ok := Skip();
      if !ok { return; }
      var children: seq<Node> := [];
      ghost var ts: seq<Tree> := [];
      Started(start, open);
      FitsEvent(config, event, parser.Todo());
      while !event.MappingEnd?
        invariant Valid() && config == InDocument(open + [AtKey]) && parser.Todo().ok == old(parser.Todo().ok)
        invariant StartsNode(event) || event.MappingEnd?
        invariant forall i | 0 <= i < |ts| :: WellFormed(ts[i])
        invariant |ts| % 2 == 0
        invariant children == NodesOf(ts) && anchors == reserved + AllAnchors(ts)
        invariant old(Ahead()) == [start] + FlattenAll(ts) + Ahead()
        decreases |Ahead()|
      {
        ok, children, ts := Child(children, open, AtKey, start, ts, old(Ahead()), reserved);
        if !ok { return; }
        ok, children, ts := Child(children, open, AtValue, start, ts, old(Ahead()), reserved);
        if !ok { return; }
      }
      node := MappingNode(children);
      if anchor.Some? {
        anchors := anchors[place := Anchor(anchor.value, node)];
      }
      t := Collection(start, ts);
      AnchorParts(start, ts, old(anchors), reserved);
      Closed(open, AtKey);
      ok := Skip();
      if ok { CollectionParts(start, ts, Ahead()); }
    }

    /** The next document, or nothing at the end of the stream. */
    method Document() returns (ok: bool, document: Option<DocumentNode>, ghost d: seq<Document>)
      requires Valid() && config.BetweenDocuments?
      modifies this, parser
      ensures ok ==> Valid() && config.BetweenDocuments? && parser.Todo().ok == old(parser.Todo().ok)
      ensures ok ==> old(Ahead()) == FlattenDocuments(d) + Ahead() && |d| <= 1
      ensures ok && d == [] ==> document == None && event.StreamEnd?
      ensures ok && d != [] ==> WellFormedDocument(d[0])
      ensures ok && d != [] ==> document == Some(DocumentNode(NodeOf(d[0].root), AnchorsOf(d[0].root)))
      ensures !ok ==> !old(parser.Todo().ok)
    {
      hide Run, Rest, Reading, ConfigOf, Parser.InStep, Fits, Flatten, NodeOf, AnchorsOf, WellFormed;
      document, d := None, [];
      FitsEvent(config, event, parser.Todo());
      if event.StreamEnd? { return true, None, []; }
      ghost var start := event;
      anchors := [];
      ok := Skip();
      if !ok { return; }
      FitsEvent(config, event, parser.Todo());
      var root;
      ghost var t;
      ok, root, t := Parse();
      if !ok { return; }
      FitsEvent(config, event, parser.Todo());
      ghost var end := event;
      document := Some(DocumentNode(root, anchors));
      ok := Skip();
      if !ok { return; }
      d := [YamlEvents.Document(start, t, end)];
      assert d[1..] == [] && [] + AnchorsOf(t) == AnchorsOf(t);
      assert [start] + (Flatten(t) + ([end] + Ahead())) == [start] + Flatten(t) + [end] + [] + Ahead();
    }
  }

  // ---------------------------------------------------------------- whole streams

  /** The first event is the start of the stream, and it is not the last. */
  lemma FirstEvent(toks: seq<Token>, first: Event, todo: G.Out)
    requires G.Stream(toks) == G.Emit(first, todo)
    ensures first.StreamStart? && todo != G.Out([], todo.rest, true)
    ensures var r := Run(BetweenDocuments, todo.events); r.Some? && (todo.ok ==> r.value == Ended)
  {
    N.StreamNests(toks);
    RunCons(BeforeStream, first, todo.events);
  }

  lemma SecondFits(e: Event, todo: G.Out)
    requires var r := Run(BetweenDocuments, G.Emit(e, todo).events); r.Some? && (todo.ok ==> r.value == Ended)
    ensures Fits(BetweenDocuments, e, todo)
  {
  }

  /**
   A builder for a list of tokens. The parser's first event is used up; that it is the start of the stream is
   expected by the builder, and holds for every list of tokens.
   */
  method NewBuilder(toks: seq<Token>) returns (ok: bool, b: Builder?)
    ensures ok <==> b != null
    ensures ok ==> fresh(b) && fresh(b.parser) && b.Valid() && b.config.BetweenDocuments?
    ensures ok ==> G.Stream(toks).events == [StreamStart] + b.Ahead() && G.Stream(toks).ok == b.parser.Todo().ok
    ensures !ok ==> !G.Stream(toks).ok
  {
    hide Run, Rest, Reading, ConfigOf, G.Stream, Fits;
    b := null;
    var parser := new Parser(toks);
    var first, second;
    ok, first := parser.Parse();
    if !ok { return; }
    FirstEvent(toks, first.value, parser.Todo());
    assert first.value.StreamStart?;
    EndIsEnd(parser.tagDirectives, parser.Left());
    ok, second := parser.Parse();
    if !ok { return; }
    SecondFits(second.value, parser.Todo());
    b := new Builder(parser, second.value, BetweenDocuments);
  }

  lemma {:induction false} DocumentsAppend(ds: seq<Document>, d: Document)
    ensures FlattenDocuments(ds + [d]) == FlattenDocuments(ds) + FlattenDocuments([d])
    ensures FlattenDocuments([d]) != []
  {
    if ds == [] {
      assert [] + [d] == [d];
    } else {
      DocumentsAppend(ds[1..], d);
      assert (ds + [d])[0] == ds[0] && (ds + [d])[1..] == ds[1..] + [d];
    }
  }

  lemma NoDocuments()
    ensures [StreamStart] + FlattenDocuments([]) == [StreamStart]
  {
  }

  /** The document nodes of a stream. */
  ghost predicate Built(documents: seq<DocumentNode>, ds: seq<Document>) {
    |documents| == |ds| &&
    forall i | 0 <= i < |ds| ::
      WellFormedDocument(ds[i]) && documents[i] == DocumentNode(NodeOf(ds[i].root), AnchorsOf(ds[i].root))
  }

  lemma OnlyEndIsEnded(states: seq<State>, s: State)
    ensures ConfigOf(states, s).Ended? <==> s.EndState?
  {
  }

  lemma StreamEndEnds(c: Config)
    requires Step(c, StreamEnd).Some?
    ensures Step(c, StreamEnd) == Some(Ended)
  {
  }

  /** At the end of the stream the parser has nothing left to do. */
  lemma StreamIsOver(b: Builder)
    requires b.Valid() && b.event.StreamEnd?
    ensures b.parser.Todo().ok && b.Ahead() == [StreamEnd]
  {
    hide Run, Rest, Reading, ConfigOf, Fits, YamlEvents.Step;
    StreamEndEnds(b.config);
    OnlyEndIsEnded(b.parser.states, b.parser.state);
    EndIsEnd(b.parser.tagDirectives, b.parser.Left());
  }

  /**
   Document after document. For every list of tokens this succeeds exactly if the grammar's reading is complete,
   and then the nodes and anchors are those of the documents that the events of that reading spell out.
   */
  method BuildAll(toks: seq<Token>) returns (ok: bool, documents: seq<DocumentNode>, ghost ds: seq<Document>)
    ensures ok <==> G.Stream(toks).ok
    ensures ok ==> G.Stream(toks).events == FlattenStream(ds) && Built(documents, ds)
  {
    hide Run, Rest, Reading, ConfigOf, Parser.InStep, G.Stream, Fits, NodeOf, AnchorsOf, WellFormed, FlattenDocuments;
    documents, ds := [], [];
    var b;
    ok, b := NewBuilder(toks);
    if !ok { return; }
    NoDocuments();
    while true
      invariant fresh(b) && fresh(b.parser) && b.Valid() && b.config.BetweenDocuments?
      invariant G.Stream(toks).ok == b.parser.Todo().ok
      invariant G.Stream(toks).events == [StreamStart] + FlattenDocuments(ds) + b.Ahead()
      invariant Built(documents, ds)
      decreases |b.Ahead()|
    {
      var document;
      ghost var d;
      ok, document, d := b.Document();
      if !ok { return; }
      if document.None? { break; }
      DocumentsAppend(ds, d[0]);
      assert d == [d[0]];
      documents, ds := documents + [document.value], ds + d;
    }
    StreamIsOver(b);
  }

  /** The first document only, which is all that a call of the decoder asks for. */
  method BuildFirst(toks: seq<Token>) returns (ok: bool, document: Option<DocumentNode>, ghost d: seq<Document>)
    ensures ok ==> [StreamStart] + FlattenDocuments(d) <= G.Stream(toks).events && |d| <= 1
    ensures ok && d == [] ==> document == None && G.Stream(toks).events == [StreamStart, StreamEnd]
    ensures ok && d != [] ==> document.Some? && Built([document.value], d)
    ensures !ok ==> !G.Stream(toks).ok
  {
    hide Run, Rest, Reading, ConfigOf, G.Stream, Fits, NodeOf, AnchorsOf, WellFormed;
    document, d := None, [];
    var b;
    ok, b := NewBuilder(toks);
    if !ok { return; }
    ok, document, d := b.Document();
    if ok && d == [] { StreamIsOver(b); }
  }
}
