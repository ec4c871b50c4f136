/** The decoder as it runs: the set of active aliases is a field, set and cleared around each alias. */
module AliasDecoder {
  import opened Wrappers
  import opened YamlBuilder
  import opened AliasExpansion
  import opened AliasMeaning

  class Decoder {
    const anchors: Anchors
    var aliases: set<string>

    constructor (anchors: Anchors)
      ensures this.anchors == anchors && aliases == {}
    {
      this.anchors, aliases := anchors, {};
    }

    /** Decode a node. The active aliases are the same again afterwards, unless it fails. */
    method Unmarshal(n: Node) returns (r: Option<Value>)
      modifies this
      ensures r == Eval(anchors, Active(old(aliases)), n) && (r.Some? ==> aliases == old(aliases))
      ensures old(aliases) == {} ==> forall v :: r == Some(v) <==> Means(anchors, n, v)
      decreases |anchors.Keys - aliases|, n, 1
    {
      hide Means;
      forall v ensures Eval(anchors, Active({}), n) == Some(v) <==> Means(anchors, n, v) {
        DecodesMeaning(anchors, n, v);
      }
      match n {
        case AliasNode(name) =>
          r := Alias(n);
        case ScalarNode(tag, text, implicit) =>
          r := Some(ScalarValue(tag, text, implicit));
        case SequenceNode(children) =>
          r := Sequence(n);
        case MappingNode(children) =>
          r := Mapping(n);
      }
    }

    method Alias(n: Node) returns (r: Option<Value>)
      requires n.AliasNode?
      modifies this
      ensures r == Eval(anchors, Active(old(aliases)), n) && (r.Some? ==> aliases == old(aliases))
      decreases |anchors.Keys - aliases|, n, 0
    {
      hide Eval;
      var name := n.value;
      FollowedEval(anchors, Active(aliases), name);
      if name !in anchors {
        return None;
      }
      if name in aliases {
        return None;
      }
      Shrinks(anchors.Keys, aliases, name);
      aliases := aliases + {name};
      r := Unmarshal(anchors[name]);
      aliases := aliases - {name};
    }

    method Sequence(n: Node) returns (r: Option<Value>)
      requires n.SequenceNode?
      modifies this
      ensures r == Eval(anchors, Active(old(aliases)), n) && (r.Some? ==> aliases == old(aliases))
      decreases |anchors.Keys - aliases|, n, 0
    {
      ghost var p := Active(aliases);
      var out: seq<Value> := [];
      var i := 0;
      assert n.children[0..] == n.children;
      BeforeNothing(EvalAll(anchors, p, n.children));
      while i < |n.children|
        invariant i <= |n.children| && aliases == old(aliases)
        invariant Before(out, EvalAll(anchors, p, n.children[i..])) == EvalAll(anchors, p, n.children)
      {
        AllStep(anchors, p, n.children, i);
        var v := Unmarshal(n.children[i]);
        if v.None? { return None; }
        BeforeTwice(out, [v.value], EvalAll(anchors, p, n.children[i + 1..]));
        out, i := out + [v.value], i + 1;
      }
      assert out + [] == out;
      r := Some(ListValue(out));
    }

    method Mapping(n: Node) returns (r: Option<Value>)
      requires n.MappingNode?
      modifies this
      ensures r == Eval(anchors, Active(old(aliases)), n) && (r.Some? ==> aliases == old(aliases))
      ensures old(aliases) == {} ==> forall v :: r == Some(v) <==> Means(anchors, n, v)
      decreases |anchors.Keys - aliases|, n, 0
    {
      hide Means;
      forall v ensures Eval(anchors, Active({}), n) == Some(v) <==> Means(anchors, n, v) {
        DecodesMeaning(anchors, n, v);
      }
      ghost var p := Active(aliases);
      var out: seq<Pair> := [];
      var i := 0;
      assert n.children[0..] == n.children;
      BeforeNothing(Entries(anchors, p, n.children));
      while i < |n.children|
        invariant i <= |n.children| && aliases == old(aliases)
        invariant Before(out, Entries(anchors, p, n.children[i..])) == Entries(anchors, p, n.children)
      {
        EntriesStep(anchors, p, n.children, i);
        if i + 1 == |n.children| { return None; }
        var es := None;
        if IsMerge(n.children[i]) {
          es := Merge(n.children[i + 1]);
        } else {
          var k := Unmarshal(n.children[i]);
          if k.None? || !k.value.ScalarValue? { return None; }
          var v := Unmarshal(n.children[i + 1]);
          es := Combine(k, v);
        }
        if es.None? { return None; }
        BeforeTwice(out, es.value, Entries(anchors, p, n.children[i + 2..]));
        out, i := out + es.value, i + 2;
      }
      assert out + [] == out;
      r := Some(MapValue(out));
    }

    /** The value of a merge key. Of several mappings the last is taken first, since earlier ones take precedence. */
    method Merge(n: Node) returns (r: Option<seq<Pair>>)
      modifies this
      ensures r == Merged(anchors, Active(old(aliases)), n) && (r.Some? ==> aliases == old(aliases))
      decreases |anchors.Keys - aliases|, n, 2
    {
      hide Eval;
      if !n.SequenceNode? {
        if !Mergeable(anchors, n) { return None; }
        var v := Unmarshal(n);
        return EntriesOf(v);
      }
      ghost var p := Active(aliases);
      var out: seq<Pair> := [];
      var i := |n.children|;
      assert n.children[..i] == n.children;
      BeforeNothing(MergedAll(anchors, p, n.children));
      while i > 0
        invariant i <= |n.children| && aliases == old(aliases)
        invariant Before(out, MergedAll(anchors, p, n.children[..i])) == MergedAll(anchors, p, n.children)
      {
        MergedStep(anchors, p, n.children, i);
        if !Mergeable(anchors, n.children[i - 1]) { return None; }
        var v := Unmarshal(n.children[i - 1]);
        var es := EntriesOf(v);
        if es.None? { return None; }
        BeforeTwice(out, es.value, MergedAll(anchors, p, n.children[..i - 1]));
        out, i := out + es.value, i - 1;
      }
      assert out + [] == out;
      r := Some(out);
    }
  }
}
