/**
 The YAML events passed between parser, node builder and emitter, and the language
 they are meant to follow:

   stream   ::= STREAM-START document* STREAM-END
   document ::= DOCUMENT-START node DOCUMENT-END
   node     ::= ALIAS | SCALAR | SEQUENCE-START node* SEQUENCE-END
              | MAPPING-START (node node)* MAPPING-END

 The language is given twice: as the flattening of trees, and as a small pushdown
 automaton. `StreamLanguage` shows that the two agree, and `PrefixLanguage` that the
 automaton runs on exactly the prefixes of complete streams.
 */
module YamlEvents {
  import opened Wrappers

  datatype TagDirective = TagDirective(handle: string, prefix: string)
  datatype Version = Version(major: int, minor: int)

  datatype ScalarStyle = AnyScalar | Plain | SingleQuoted | DoubleQuoted | Literal | Folded

  datatype Event =
    | StreamStart
    | StreamEnd
    | DocumentStart(version: Option<Version>, directives: seq<TagDirective>, implicit: bool)
    | DocumentEnd(implicit: bool)
    | Alias(name: string)
    | Scalar(anchor: Option<string>, tag: string, text: string,
             implicit: bool, quotedImplicit: bool, style: ScalarStyle)
    | SequenceStart(anchor: Option<string>, tag: string, implicit: bool, flow: bool)
    | SequenceEnd
    | MappingStart(anchor: Option<string>, tag: string, implicit: bool, flow: bool)
    | MappingEnd

  // ---------------------------------------------------------------- data of one event

  predicate IsAlpha(c: char) {
    '0' <= c <= '9' || 'A' <= c <= 'Z' || 'a' <= c <= 'z' || c == '_' || c == '-'
  }

  predicate AnchorOk(name: string) {
    name != "" && forall i | 0 <= i < |name| :: IsAlpha(name[i])
  }

  predicate DirectiveOk(d: TagDirective) {
    && d.handle != "" && d.handle[0] == '!' && d.handle[|d.handle| - 1] == '!'
    && (forall i | 1 <= i < |d.handle| - 1 :: IsAlpha(d.handle[i]))
    && d.prefix != ""
  }

  predicate Distinct(ds: seq<TagDirective>) {
    forall i, j | 0 <= i < j < |ds| :: ds[i].handle != ds[j].handle
  }

  /** An event that can be written down, apart from its place in the stream. */
  predicate EventOk(e: Event) {
    match e
    case DocumentStart(version, directives, _) =>
      && version in {None, Some(Version(1, 1))}
      && Distinct(directives)
      && forall i | 0 <= i < |directives| :: DirectiveOk(directives[i])
    case Alias(name) => AnchorOk(name)
    case Scalar(anchor, tag, _, implicit, quotedImplicit, _) =>
      OptionalAnchorOk(anchor) && (tag != "" || implicit || quotedImplicit)
    case SequenceStart(anchor, _, _, _) => OptionalAnchorOk(anchor)
    case MappingStart(anchor, _, _, _) => OptionalAnchorOk(anchor)
    case _ => true
  }

  predicate OptionalAnchorOk(anchor: Option<string>) {
    anchor.None? || anchor.value == "" || AnchorOk(anchor.value)
  }

  // ---------------------------------------------------------------- trees

  /** A node of a document; the children of a mapping are its keys and values in turn. */
  datatype Tree = Leaf(event: Event) | Collection(start: Event, children: seq<Tree>)

  datatype Document = Document(start: Event, root: Tree, end: Event)

  ghost predicate WellFormed(t: Tree) {
    match t
    case Leaf(e) => e.Alias? || e.Scalar?
    case Collection(s, children) =>
      && (s.SequenceStart? || s.MappingStart?)
      && (s.MappingStart? ==> |children| % 2 == 0)
      && forall i | 0 <= i < |children| :: WellFormed(children[i])
  }

  ghost predicate WellFormedDocument(d: Document) {
    d.start.DocumentStart? && WellFormed(d.root) && d.end.DocumentEnd?
  }

  ghost function EndOf(start: Event): Event {
    if start.SequenceStart? then SequenceEnd else MappingEnd
  }

  ghost function Flatten(t: Tree): seq<Event> {
    match t
    case Leaf(e) => [e]
    case Collection(s, children) => [s] + FlattenAll(children) + [EndOf(s)]
  }

  ghost function FlattenAll(ts: seq<Tree>): seq<Event> {
    if ts == [] then [] else Flatten(ts[0]) + FlattenAll(ts[1..])
  }

  ghost function FlattenDocuments(ds: seq<Document>): seq<Event> {
    if ds == [] then [] else [ds[0].start] + Flatten(ds[0].root) + [ds[0].end] + FlattenDocuments(ds[1..])
  }

  ghost function FlattenStream(ds: seq<Document>): seq<Event> {
    [StreamStart] + FlattenDocuments(ds) + [StreamEnd]
  }

  // ---------------------------------------------------------------- automaton

  /** Where an open collection stands: in a sequence, before a key, or before a value. */
  datatype Place = InSequence | AtKey | AtValue

  /** `InDocument(open)` lists the open collections, outermost first. */
  datatype Config = BeforeStream | BetweenDocuments | InDocument(open: seq<Place>) | AfterRoot | Ended

  function Advance(p: Place): Place {
    match p
    case InSequence => InSequence
    case AtKey => AtValue
    case AtValue => AtKey
  }

  /** The configuration after a whole node has been seen. */
  function Complete(open: seq<Place>): Config {
    if open == [] then AfterRoot
    else InDocument(open[..|open| - 1] + [Advance(open[|open| - 1])])
  }

  predicate StartsNode(e: Event) {
    e.Alias? || e.Scalar? || e.SequenceStart? || e.MappingStart?
  }

  function Step(c: Config, e: Event): Option<Config> {
    match c
    case BeforeStream => if e.StreamStart? then Some(BetweenDocuments) else None
    case BetweenDocuments =>
      if e.DocumentStart? then Some(InDocument([]))
      else if e.StreamEnd? then Some(Ended)
      else None
    case InDocument(open) =>
      if e.Alias? || e.Scalar? then Some(Complete(open))
      else if e.SequenceStart? then Some(InDocument(open + [InSequence]))
      else if e.MappingStart? then Some(InDocument(open + [AtKey]))
      else if e.SequenceEnd? && open != [] && open[|open| - 1] == InSequence then Some(Complete(open[..|open| - 1]))
      else if e.MappingEnd? && open != [] && open[|open| - 1] == AtKey then Some(Complete(open[..|open| - 1]))
      else None
    case AfterRoot => if e.DocumentEnd? then Some(BetweenDocuments) else None
    case Ended => None
  }

  function Run(c: Config, es: seq<Event>): Option<Config>
    decreases es
  {
    if es == [] then Some(c)
    else
      match Step(c, es[0])
      case None => None
      case Some(d) => Run(d, es[1..])
  }

  lemma {:induction false} RunAppend(c: Config, a: seq<Event>, b: seq<Event>)
    ensures Run(c, a + b) == (match Run(c, a) case None => None case Some(d) => Run(d, b))
    decreases a
  {
    if a == [] {
      assert a + b == b;
    } else {
      assert (a + b)[0] == a[0] && (a + b)[1..] == a[1..] + b;
      if Step(c, a[0]).Some? {
        RunAppend(Step(c, a[0]).value, a[1..], b);
      }
    }
  }

  lemma RunCons(c: Config, e: Event, es: seq<Event>)
    ensures Run(c, [e] + es) == (match Step(c, e) case None => None case Some(d) => Run(d, es))
  {
  }

  /** A run can be cut short anywhere. */
  lemma RunPrefix(c: Config, es: seq<Event>, k: nat)
    requires k <= |es| && Run(c, es).Some?
    ensures Run(c, es[..k]).Some?
    ensures Run(Run(c, es[..k]).value, es[k..]) == Run(c, es)
  {
    assert es == es[..k] + es[k..];
    RunAppend(c, es[..k], es[k..]);
  }

  // ---------------------------------------------------------------- trees run

  lemma {:induction false} TreeRuns(t: Tree, open: seq<Place>)
    requires WellFormed(t)
    ensures Run(InDocument(open), Flatten(t)) == Some(Complete(open))
    decreases t
  {
    match t
    case Leaf(e) =>
      assert Run(Complete(open), [e][1..]) == Some(Complete(open));
    case Collection(s, children) =>
      var inner := open + [if s.SequenceStart? then InSequence else AtKey];
      TreesRun(children, inner);
      var body := FlattenAll(children) + [EndOf(s)];
      RunAppend(InDocument(inner), FlattenAll(children), [EndOf(s)]);
      assert [EndOf(s)][1..] == [];
      assert inner[..|inner| - 1] == open;
      assert Run(InDocument(inner), body) == Some(Complete(open));
      assert Flatten(t) == [s] + body && ([s] + body)[1..] == body;
  }

  lemma {:induction false} TreesRun(ts: seq<Tree>, open: seq<Place>)
    requires open != []
    requires forall i | 0 <= i < |ts| :: WellFormed(ts[i])
    ensures open[|open| - 1] == InSequence ==> Run(InDocument(open), FlattenAll(ts)) == Some(InDocument(open))
    ensures open[|open| - 1] != InSequence && |ts| % 2 == 0 ==>
              Run(InDocument(open), FlattenAll(ts)) == Some(InDocument(open))
    ensures open[|open| - 1] != InSequence && |ts| % 2 == 1 ==>
              Run(InDocument(open), FlattenAll(ts)) == Some(Complete(open))
    decreases ts
  {
    if ts != [] {
      TreeRuns(ts[0], open);
      RunAppend(InDocument(open), Flatten(ts[0]), FlattenAll(ts[1..]));
      var next := open[..|open| - 1] + [Advance(open[|open| - 1])];
      assert next[..|next| - 1] == open[..|open| - 1];
      TreesRun(ts[1..], next);
      assert open == open[..|open| - 1] + [open[|open| - 1]];
    }
  }

  lemma {:induction false} DocumentsRun(ds: seq<Document>)
    requires forall i | 0 <= i < |ds| :: WellFormedDocument(ds[i])
    ensures Run(BetweenDocuments, FlattenDocuments(ds)) == Some(BetweenDocuments)
  {
    if ds != [] {
      DocumentsRun(ds[1..]);
      DocumentRuns(ds[0], FlattenDocuments(ds[1..]));
    }
  }

  lemma DocumentRuns(d: Document, rest: seq<Event>)
    requires WellFormedDocument(d)
    ensures Run(BetweenDocuments, [d.start] + Flatten(d.root) + [d.end] + rest) == Run(BetweenDocuments, rest)
  {
    TreeRuns(d.root, []);
    RunCons(AfterRoot, d.end, rest);
    RunAppend(InDocument([]), Flatten(d.root), [d.end] + rest);
    RunCons(BetweenDocuments, d.start, Flatten(d.root) + ([d.end] + rest));
    assert [d.start] + Flatten(d.root) + [d.end] + rest == [d.start] + (Flatten(d.root) + ([d.end] + rest));
  }

  // ---------------------------------------------------------------- runs are trees

  /** A run that reaches the end starts with the events of one node, if it starts with a node at all. */
  lemma {:induction false} SplitNode(open: seq<Place>, es: seq<Event>) returns (t: Tree, k: nat)
    requires Run(InDocument(open), es) == Some(Ended)
    requires StartsNode(es[0])
    ensures 0 < k <= |es| && WellFormed(t) && Flatten(t) == es[..k]
    ensures Run(Complete(open), es[k..]) == Some(Ended)
    decreases |es|, 0
  {
    hide Run, Step, Complete;
    NotEnded(open, es);
    AfterFirst(open, es);
    if es[0].Alias? || es[0].Scalar? {
      t, k := Leaf(es[0]), 1;
    } else {
      var place := if es[0].SequenceStart? then InSequence else AtKey;
      var children, n := SplitChildren(open, place, es[1..]);
      t, k := Collection(es[0], children), n + 1;
      assert es[..k] == [es[0]] + es[1..][..n];
      assert es[k..] == es[1..][n..];
    }
  }

  /** ... and inside a collection with the remaining children and the end of that collection. */
  lemma {:induction false} SplitChildren(outer: seq<Place>, place: Place, es: seq<Event>)
    returns (ts: seq<Tree>, k: nat)
    requires Run(InDocument(outer + [place]), es) == Some(Ended)
    ensures 0 < k <= |es|
    ensures forall i | 0 <= i < |ts| :: WellFormed(ts[i])
    ensures es[..k] == FlattenAll(ts) + [if place == InSequence then SequenceEnd else MappingEnd]
    ensures place == AtKey ==> |ts| % 2 == 0
    ensures place == AtValue ==> |ts| % 2 == 1
    ensures Run(Complete(outer), es[k..]) == Some(Ended)
    decreases |es|, 1
  {
    hide Run, Step, Complete, Flatten;
    NotEnded(outer + [place], es);
    if !StartsNode(es[0]) {
      EndsCollection(outer, place, es);
      ts, k := [], 1;
    } else {
      var t, n := SplitNode(outer + [place], es);
      NextPlace(outer, place);
      var rest, m := SplitChildren(outer, Advance(place), es[n..]);
      ts, k := [t] + rest, n + m;
      JoinChildren(t, rest, es, n, m);
    }
  }

  /** Behind the first event of a node. */
  lemma AfterFirst(open: seq<Place>, es: seq<Event>)
    requires es != [] && Run(InDocument(open), es) == Some(Ended)
    ensures es[0].Alias? || es[0].Scalar? ==> Run(Complete(open), es[1..]) == Some(Ended)
    ensures es[0].SequenceStart? ==> Run(InDocument(open + [InSequence]), es[1..]) == Some(Ended)
    ensures es[0].MappingStart? ==> Run(InDocument(open + [AtKey]), es[1..]) == Some(Ended)
  {
  }

  lemma NotEnded(open: seq<Place>, es: seq<Event>)
    requires Run(InDocument(open), es) == Some(Ended)
    ensures es != []
  {
  }

  lemma NextPlace(outer: seq<Place>, place: Place)
    ensures Complete(outer + [place]) == InDocument(outer + [Advance(place)])
  {
  }

  lemma EndsCollection(outer: seq<Place>, place: Place, es: seq<Event>)
    requires Run(InDocument(outer + [place]), es) == Some(Ended) && !StartsNode(es[0])
    ensures es[..1] == [if place == InSequence then SequenceEnd else MappingEnd]
    ensures place != AtValue && Run(Complete(outer), es[1..]) == Some(Ended)
  {
  }

  lemma JoinChildren(t: Tree, rest: seq<Tree>, es: seq<Event>, n: nat, m: nat)
    requires n + m <= |es| && Flatten(t) == es[..n]
    ensures FlattenAll([t] + rest) == es[..n] + FlattenAll(rest)
    ensures es[..n + m] == es[..n] + es[n..][..m] && es[n + m..] == es[n..][m..]
  {
  }

  lemma {:induction false} SplitDocuments(es: seq<Event>) returns (ds: seq<Document>)
    requires Run(BetweenDocuments, es) == Some(Ended)
    ensures forall i | 0 <= i < |ds| :: WellFormedDocument(ds[i])
    ensures es == FlattenDocuments(ds) + [StreamEnd]
    decreases |es|
  {
    if es[0].StreamEnd? {
      NothingAfterEnd(es[1..]);
      ds := [];
    } else {
      hide Flatten, WellFormed, Complete;
      AtDocumentStart(es);
      var t, k := SplitNode([], es[1..]);
      var behind := es[1..][k..];
      AfterDocument(behind);
      var rest := SplitDocuments(behind[1..]);
      var d := Document(es[0], t, behind[0]);
      ds := [d] + rest;
      assert ds[1..] == rest;
      assert es == [es[0]] + es[1..][..k] + [behind[0]] + behind[1..];
    }
  }

  lemma AtDocumentStart(es: seq<Event>)
    requires Run(BetweenDocuments, es) == Some(Ended) && es != [] && !es[0].StreamEnd?
    ensures es[0].DocumentStart? && |es| > 1 && Run(InDocument([]), es[1..]) == Some(Ended) && StartsNode(es[1])
  {
  }

  lemma AfterDocument(es: seq<Event>)
    requires Run(Complete([]), es) == Some(Ended)
    ensures es != [] && es[0].DocumentEnd? && Run(BetweenDocuments, es[1..]) == Some(Ended)
  {
  }

  lemma NothingAfterEnd(es: seq<Event>)
    requires Run(Ended, es).Some?
    ensures es == []
  {
  }

  /** The automaton accepts exactly the flattenings of lists of documents. */
  lemma StreamLanguage(es: seq<Event>)
    ensures Run(BeforeStream, es) == Some(Ended)
       <==> exists ds :: (forall i | 0 <= i < |ds| :: WellFormedDocument(ds[i])) && es == FlattenStream(ds)
  {
    if Run(BeforeStream, es) == Some(Ended) {
      var ds := SplitDocuments(es[1..]);
      assert es == [es[0]] + es[1..];
      assert es == FlattenStream(ds);
    }
    forall ds | (forall i | 0 <= i < |ds| :: WellFormedDocument(ds[i])) && es == FlattenStream(ds)
      ensures Run(BeforeStream, es) == Some(Ended)
    {
      DocumentsRun(ds);
      var body := FlattenDocuments(ds);
      RunAppend(BetweenDocuments, body, [StreamEnd]);
      assert es == [StreamStart] + (body + [StreamEnd]);
      assert es[1..] == body + [StreamEnd] && [StreamEnd][1..] == [];
    }
  }

  // ---------------------------------------------------------------- prefixes

  const EMPTY_SCALAR := Scalar(None, "", "", true, false, Plain)

  /** How far a configuration is from the end of its stream. */
  function Pending(c: Config): nat {
    match c
    case BeforeStream => 3
    case BetweenDocuments => 1
    case InDocument(open) => 3 + 2 * |open|
    case AfterRoot => 2
    case Ended => 0
  }

  /** Events that finish a stream from the given configuration. */
  ghost function Closing(c: Config): seq<Event>
    decreases Pending(c)
  {
    match c
    case BeforeStream => [StreamStart] + Closing(BetweenDocuments)
    case BetweenDocuments => [StreamEnd]
    case InDocument(open) =>
      if open == [] then [EMPTY_SCALAR] + Closing(AfterRoot)
      else ClosePlace(open[|open| - 1]) + ClosingAfter(open[..|open| - 1])
    case AfterRoot => [DocumentEnd(true)] + Closing(BetweenDocuments)
    case Ended => []
  }

  ghost function ClosePlace(p: Place): seq<Event> {
    match p
    case InSequence => [SequenceEnd]
    case AtKey => [MappingEnd]
    case AtValue => [EMPTY_SCALAR, MappingEnd]
  }

  ghost function ClosingAfter(open: seq<Place>): seq<Event>
    decreases 4 + 2 * |open|
  {
    Closing(Complete(open))
  }

  lemma {:induction false} ClosingEnds(c: Config)
    ensures Run(c, Closing(c)) == Some(Ended)
    decreases Pending(c)
  {
    match c
    case BeforeStream => ClosingEnds(BetweenDocuments);
    case BetweenDocuments =>
      assert [StreamEnd][1..] == [];
    case InDocument(open) =>
      if open == [] {
        ClosingEnds(AfterRoot);
      } else {
        var outer := open[..|open| - 1];
        ClosingEnds(Complete(outer));
        RunAppend(c, ClosePlace(open[|open| - 1]), ClosingAfter(outer));
        PlaceCloses(open);
      }
    case AfterRoot => ClosingEnds(BetweenDocuments);
    case Ended =>
  }

  lemma PlaceCloses(open: seq<Place>)
    requires open != []
    ensures Run(InDocument(open), ClosePlace(open[|open| - 1])) == Some(Complete(open[..|open| - 1]))
  {
    var es := ClosePlace(open[|open| - 1]);
    if open[|open| - 1] == AtValue {
      var mid := open[..|open| - 1] + [AtKey];
      assert mid[..|mid| - 1] == open[..|open| - 1];
      RunCons(InDocument(open), EMPTY_SCALAR, [MappingEnd]);
      RunCons(InDocument(mid), MappingEnd, []);
      assert es == [EMPTY_SCALAR] + [MappingEnd] && [MappingEnd] == [MappingEnd] + [];
    } else {
      assert es[1..] == [];
    }
  }

  /** The automaton can run on a list of events exactly when that list is a prefix of a complete stream. */
  lemma PrefixLanguage(es: seq<Event>)
    ensures Run(BeforeStream, es).Some?
       <==> exists ds :: (forall i | 0 <= i < |ds| :: WellFormedDocument(ds[i])) && es <= FlattenStream(ds)
  {
    if Run(BeforeStream, es).Some? {
      var c := Run(BeforeStream, es).value;
      ClosingEnds(c);
      RunAppend(BeforeStream, es, Closing(c));
      StreamLanguage(es + Closing(c));
    }
    forall ds | (forall i | 0 <= i < |ds| :: WellFormedDocument(ds[i])) && es <= FlattenStream(ds)
      ensures Run(BeforeStream, es).Some?
    {
      StreamLanguage(FlattenStream(ds));
      RunPrefix(BeforeStream, FlattenStream(ds), |es|);
      assert FlattenStream(ds)[..|es|] == es;
    }
  }
}
