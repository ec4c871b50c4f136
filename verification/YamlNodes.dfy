/**
 What the node builder builds, read off the events: a node spells out the events that it was
 built from, and the node of an anchor spells out the events from its anchor on.
 */
module YamlNodes {
  import opened Wrappers
  import opened YamlEvents
  import opened YamlBuilder

  /** What a node has of an event: kind, text, tag and whether the tag is implicit. */
  datatype Mark =
    | ScalarMark(tag: string, text: string, implicit: bool)
    | AliasMark(name: string)
    | OpenSequence
    | OpenMapping
    | CloseSequence
    | CloseMapping

  function MarkOf(e: Event): seq<Mark> {
    match e
    case Scalar(_, tag, text, implicit, _, _) => [ScalarMark(tag, text, implicit)]
    case Alias(name) => [AliasMark(name)]
    case SequenceStart(_, _, _, _) => [OpenSequence]
    case MappingStart(_, _, _, _) => [OpenMapping]
    case SequenceEnd => [CloseSequence]
    case MappingEnd => [CloseMapping]
    case _ => []
  }

  function Marks(es: seq<Event>): seq<Mark> {
    if es == [] then [] else MarkOf(es[0]) + Marks(es[1..])
  }

  function Spell(n: Node): seq<Mark>
    decreases n, 0
  {
    match n
    case AliasNode(name) => [AliasMark(name)]
    case ScalarNode(tag, text, implicit) => [ScalarMark(tag, text, implicit)]
    case SequenceNode(children) => [OpenSequence] + SpellAll(children) + [CloseSequence]
    case MappingNode(children) => [OpenMapping] + SpellAll(children) + [CloseMapping]
  }

  function SpellAll(ns: seq<Node>): seq<Mark>
    decreases ns, 0
  {
    if ns == [] then [] else Spell(ns[0]) + SpellAll(ns[1..])
  }

  lemma {:induction false} MarksAppend(a: seq<Event>, b: seq<Event>)
    ensures Marks(a + b) == Marks(a) + Marks(b)
    decreases |a|
  {
    hide MarkOf;
    if a == [] {
      assert a + b == b;
    } else {
      MarksAppend(a[1..], b);
      assert (a + b)[0] == a[0] && (a + b)[1..] == a[1..] + b;
      assert MarkOf(a[0]) + (Marks(a[1..]) + Marks(b)) == MarkOf(a[0]) + Marks(a[1..]) + Marks(b);
    }
  }

  lemma MarksOne(e: Event)
    ensures Marks([e]) == MarkOf(e)
  {
    assert [e][1..] == [];
    assert MarkOf(e) + [] == MarkOf(e);
  }

  /** A node spells out the events of its tree. */
  lemma {:induction false} NodeSpells(t: Tree)
    requires WellFormed(t)
    ensures Spell(NodeOf(t)) == Marks(Flatten(t))
    decreases t, 0
  {
    match t {
      case Leaf(e) => MarksOne(e);
      case Collection(s, children) =>
        NodesSpell(children);
        MarksOne(s);
        MarksOne(EndOf(s));
        MarksAppend([s] + FlattenAll(children), [EndOf(s)]);
        MarksAppend([s], FlattenAll(children));
    }
  }

  lemma {:induction false} NodesSpell(ts: seq<Tree>)
    requires forall i | 0 <= i < |ts| :: WellFormed(ts[i])
    ensures SpellAll(NodesOf(ts)) == Marks(FlattenAll(ts))
    decreases ts, 0
  {
    hide Flatten, NodeOf, WellFormed;
    if ts != [] {
      NodeSpells(ts[0]);
      NodesSpell(ts[1..]);
      MarksAppend(Flatten(ts[0]), FlattenAll(ts[1..]));
      assert NodesOf(ts)[1..] == NodesOf(ts[1..]);
    }
  }

  // ---------------------------------------------------------------- a spelling tells its node

  /** Where a spelling stops is seen from the spelling, so what follows does not matter. */
  lemma {:induction false} SpellOnce(a: Node, x: seq<Mark>, b: Node, y: seq<Mark>)
    requires Spell(a) + x == Spell(b) + y
    ensures a == b && x == y
    decreases a, 0
  {
    assert (Spell(a) + x)[0] == Spell(a)[0] && (Spell(b) + y)[0] == Spell(b)[0];
    if a.SequenceNode? || a.MappingNode? {
      var close := if a.SequenceNode? then CloseSequence else CloseMapping;
      var p, q := SpellAll(a.children), SpellAll(b.children);
      assert Spell(a) + x == [Spell(a)[0]] + (p + ([close] + x));
      assert Spell(b) + y == [Spell(b)[0]] + (q + ([close] + y));
      assert p + ([close] + x) == (Spell(a) + x)[1..] == (Spell(b) + y)[1..] == q + ([close] + y);
      AllOnce(a.children, x, b.children, y, close);
    } else {
      assert x == (Spell(a) + x)[1..] && y == (Spell(b) + y)[1..];
    }
  }

  lemma {:induction false} AllOnce(a: seq<Node>, x: seq<Mark>, b: seq<Node>, y: seq<Mark>, close: Mark)
    requires close.CloseSequence? || close.CloseMapping?
    requires SpellAll(a) + ([close] + x) == SpellAll(b) + ([close] + y)
    ensures a == b && x == y
    decreases a, 0
  {
    hide Spell;
    var p, q := SpellAll(a) + ([close] + x), SpellAll(b) + ([close] + y);
    FirstMark(a, close, x);
    FirstMark(b, close, y);
    if a != [] && b != [] {
      var more, others := SpellAll(a[1..]) + ([close] + x), SpellAll(b[1..]) + ([close] + y);
      assert p == Spell(a[0]) + more && q == Spell(b[0]) + others;
      SpellOnce(a[0], more, b[0], others);
      AllOnce(a[1..], x, b[1..], y, close);
      assert a == [a[0]] + a[1..] && b == [b[0]] + b[1..];
    } else {
      assert x == p[1..] && y == q[1..];
    }
  }

  lemma FirstMark(ns: seq<Node>, close: Mark, x: seq<Mark>)
    requires close.CloseSequence? || close.CloseMapping?
    ensures var m := SpellAll(ns) + ([close] + x); (m[0] == close <==> ns == []) && (ns == [] ==> m == [close] + x)
  {
  }

  // ---------------------------------------------------------------- anchors

  /** An anchor, and all that is spelled out from its event on. */
  datatype Place = Place(name: string, ahead: seq<Mark>)

  predicate HasAnchor(e: Event) {
    (e.Scalar? || e.SequenceStart? || e.MappingStart?) && e.anchor.Some?
  }

  /** The anchor of an event, if it has one, with the events behind it. */
  function FirstPlace(e: Event, behind: seq<Event>): seq<Place> {
    if HasAnchor(e) then [Place(e.anchor.value, Marks([e] + behind))] else []
  }

  /** The anchors of a list of events, in order, with `after` behind the list. */
  function Anchored(es: seq<Event>, after: seq<Event>): seq<Place> {
    if es == [] then [] else FirstPlace(es[0], es[1..] + after) + Anchored(es[1..], after)
  }

  lemma {:induction false} AnchoredAppend(a: seq<Event>, b: seq<Event>, after: seq<Event>)
    ensures Anchored(a + b, after) == Anchored(a, b + after) + Anchored(b, after)
    decreases |a|
  {
    hide FirstPlace;
    if a == [] {
      assert a + b == b;
    } else {
      var more := a[1..];
      AnchoredAppend(more, b, after);
      assert (a + b)[0] == a[0] && (a + b)[1..] == more + b && more + b + after == more + (b + after);
      var own := FirstPlace(a[0], more + (b + after));
      assert own + (Anchored(more, b + after) + Anchored(b, after)) ==
             own + Anchored(more, b + after) + Anchored(b, after);
    }
  }

  /** Every anchor has the node that is spelled out from its event on. */
  ghost predicate Anchors(anchors: seq<Anchor>, places: seq<Place>) {
    && |anchors| == |places|
    && forall i | 0 <= i < |anchors| ::
         anchors[i].name == places[i].name && Spell(anchors[i].node) <= places[i].ahead
  }

  lemma AnchorsAppend(a: seq<Anchor>, p: seq<Place>, b: seq<Anchor>, q: seq<Place>)
    requires Anchors(a, p) && Anchors(b, q)
    ensures Anchors(a + b, p + q)
  {
    hide Spell;
  }

  lemma OwnAnchor(t: Tree, e: Event, after: seq<Event>)
    requires WellFormed(t) && Flatten(t) != [] && Flatten(t)[0] == e
    ensures Anchors(AnchorOf(e, NodeOf(t)), FirstPlace(e, Flatten(t)[1..] + after))
  {
    hide Spell, Marks, Flatten, NodeOf;
    NodeSpells(t);
    MarksAppend(Flatten(t), after);
    assert [e] + (Flatten(t)[1..] + after) == Flatten(t) + after;
  }

  /** The anchors of a node are those of its events, in order, each with its node. */
  lemma {:induction false} AnchorsSpell(t: Tree, after: seq<Event>)
    requires WellFormed(t)
    ensures Anchors(AnchorsOf(t), Anchored(Flatten(t), after))
    decreases t, 0
  {
    match t {
      case Leaf(e) =>
        OwnAnchor(t, e, after);
        assert Flatten(t)[1..] == [];
        assert Anchored([], after) == [];
      case Collection(s, children) => CollectionAnchors(t, after);
    }
  }

  lemma {:induction false} CollectionAnchors(t: Tree, after: seq<Event>)
    requires WellFormed(t) && t.Collection?
    ensures Anchors(AnchorsOf(t), Anchored(Flatten(t), after))
    decreases t, 0, 0
  {
    var s, all, end := t.start, FlattenAll(t.children), EndOf(t.start);
    hide NodeOf, Anchors, Marks, FlattenAll, AllAnchors;
    AllAnchorsSpell(t.children, [end] + after);
    OwnAnchor(t, s, after);
    assert Flatten(t)[0] == s && Flatten(t)[1..] == all + [end];
    AnchoredAppend(all, [end], after);
    assert Anchored([end], after) == [];
    assert Anchored(all, [end] + after) + [] == Anchored(all, [end] + after);
    var own := FirstPlace(s, Flatten(t)[1..] + after);
    assert Anchored(Flatten(t), after) == own + Anchored(all, [end] + after);
    AnchorsAppend(AnchorOf(s, NodeOf(t)), own, AllAnchors(t.children), Anchored(all, [end] + after));
  }

  lemma {:induction false} AllAnchorsSpell(ts: seq<Tree>, after: seq<Event>)
    requires forall i | 0 <= i < |ts| :: WellFormed(ts[i])
    ensures Anchors(AllAnchors(ts), Anchored(FlattenAll(ts), after))
    decreases ts, 0
  {
    hide Flatten, Anchored, AnchorsOf, WellFormed, Spell;
    if ts == [] {
      NoneAnchored(after);
    } else {
      var rest := FlattenAll(ts[1..]);
      AnchorsSpell(ts[0], rest + after);
      AllAnchorsSpell(ts[1..], after);
      AnchoredAppend(Flatten(ts[0]), rest, after);
      AnchorsAppend(AnchorsOf(ts[0]), Anchored(Flatten(ts[0]), rest + after), AllAnchors(ts[1..]),
                    Anchored(rest, after));
    }
  }

  lemma NoneAnchored(after: seq<Event>)
    ensures Anchored([], after) == []
  {
  }

  // ---------------------------------------------------------------- whole streams

  function SpellDocuments(documents: seq<DocumentNode>): seq<Mark> {
    if documents == [] then [] else Spell(documents[0].root) + SpellDocuments(documents[1..])
  }

  lemma {:induction false} DocumentsSpell(documents: seq<DocumentNode>, ds: seq<Document>)
    requires Built(documents, ds)
    ensures Marks(FlattenDocuments(ds)) == SpellDocuments(documents)
    decreases |ds|
  {
    hide Spell, Flatten, WellFormed, NodeOf, AnchorsOf;
    if ds != [] {
      var d, rest := ds[0], FlattenDocuments(ds[1..]);
      var own := [d.start] + Flatten(d.root);
      BuiltTail(documents, ds);
      DocumentsSpell(documents[1..], ds[1..]);
      NodeSpells(d.root);
      MarksAppend(own + [d.end], rest);
      MarksAppend(own, [d.end]);
      MarksAppend([d.start], Flatten(d.root));
      MarksOne(d.start);
      MarksOne(d.end);
    }
  }

  lemma BuiltTail(documents: seq<DocumentNode>, ds: seq<Document>)
    requires Built(documents, ds) && ds != []
    ensures Built(documents[1..], ds[1..])
  {
    hide NodeOf, AnchorsOf, WellFormed;
  }

  /** The roots of the documents of a stream spell out its events, one after the other. */
  lemma StreamSpells(documents: seq<DocumentNode>, ds: seq<Document>)
    requires Built(documents, ds)
    ensures Marks(FlattenStream(ds)) == SpellDocuments(documents)
  {
    hide Marks, Built, SpellDocuments, FlattenDocuments;
    DocumentsSpell(documents, ds);
    MarksAppend([StreamStart] + FlattenDocuments(ds), [StreamEnd]);
    MarksAppend([StreamStart], FlattenDocuments(ds));
    MarksOne(StreamStart);
    MarksOne(StreamEnd);
  }
}
