/**
 What a node stands for, said by places and apart from the walk of the decoder: item `i` of a list
 stands for child `i`, entry `i` of a mapping has the values of the children `2 * i` and `2 * i + 1`, and
 an alias stands for what its anchor stands for. The walk gives exactly this, and where mappings are merged the
 earlier one in the list supplies a key.
 */
module AliasMeaning {
  import opened Wrappers
  import opened YamlBuilder
  import opened AliasExpansion

  function Flat(parts: seq<seq<Pair>>): seq<Pair> {
    if parts == [] then [] else parts[0] + Flat(parts[1..])
  }

  // ---------------------------------------------------------------- what stands for what

  /** `n` stands for `v`, with at most `depth` aliases inside one another. */
  ghost predicate Stands(anchors: Anchors, n: Node, v: Value, depth: nat)
    decreases depth, n, 3
  {
    match n
    case AliasNode(name) => depth > 0 && name in anchors && Stands(anchors, anchors[name], v, depth - 1)
    case ScalarNode(tag, text, implicit) => v == ScalarValue(tag, text, implicit)
    case SequenceNode(children) =>
      && v.ListValue? && |v.items| == |children|
      && forall i | 0 <= i < |children| :: Stands(anchors, children[i], v.items[i], depth)
    case MappingNode(children) =>
      v.MapValue? && exists parts :: AllSet(anchors, n, 0, parts, depth) && Flat(parts) == v.entries
  }

  /** From pair `j` on, the keys and values of a mapping set these lists of entries. */
  ghost predicate AllSet(anchors: Anchors, n: Node, j: nat, parts: seq<seq<Pair>>, depth: nat)
    requires n.MappingNode?
    decreases depth, n, 2
  {
    && 2 * (j + |parts|) == |n.children|
    && forall i | 0 <= i < |parts| :: Sets(anchors, n, j + i, parts[i], depth)
  }

  /** Pair `i` sets one entry, of the key and the value; or, with a merge key, what is merged. */
  ghost predicate Sets(anchors: Anchors, n: Node, i: nat, part: seq<Pair>, depth: nat)
    requires n.MappingNode? && 2 * i + 1 < |n.children|
    decreases depth, n, 1
  {
    var key, value := n.children[2 * i], n.children[2 * i + 1];
    if IsMerge(key) then Merges(anchors, value, part, depth)
    else
      && |part| == 1 && part[0].key.ScalarValue?
      && Stands(anchors, key, part[0].key, depth) && Stands(anchors, value, part[0].value, depth)
  }

  /** A mapping is merged as it is; of a list the mappings are set from the last to the first. */
  ghost predicate Merges(anchors: Anchors, m: Node, part: seq<Pair>, depth: nat)
    decreases depth, m, 5
  {
    if m.SequenceNode? then exists parts :: AllMerged(anchors, m, |m.children|, parts, depth) && Flat(parts) == part
    else Mergeable(anchors, m) && Stands(anchors, m, MapValue(part), depth)
  }

  ghost predicate AllMerged(anchors: Anchors, m: Node, j: nat, parts: seq<seq<Pair>>, depth: nat)
    requires m.SequenceNode? && j <= |m.children|
    decreases depth, m, 4
  {
    && |parts| == j
    && forall i | 0 <= i < j ::
         Mergeable(anchors, m.children[i]) && Stands(anchors, m.children[i], MapValue(parts[j - 1 - i]), depth)
  }

  /** `n` stands for `v`, with some number of aliases inside one another. */
  ghost predicate Means(anchors: Anchors, n: Node, v: Value) {
    exists depth: nat :: Stands(anchors, n, v, depth)
  }

  // ---------------------------------------------------------------- the walk gives what a node stands for

  lemma {:induction false} StandsExact(anchors: Anchors, n: Node, v: Value, depth: nat)
    ensures Eval(anchors, Fuel(depth), n) == Some(v) <==> Stands(anchors, n, v, depth)
    decreases depth, n, 3
  {
    match n {
      case AliasNode(name) =>
        if depth > 0 && name in anchors { StandsExact(anchors, anchors[name], v, depth - 1); }
      case ScalarNode(_, _, _) =>
      case SequenceNode(children) =>
        if v.ListValue? { ItemsExact(anchors, children, v.items, depth); }
      case MappingNode(children) =>
        if v.MapValue? {
          MappingExact(anchors, n, v.entries, depth);
        }
    }
  }

  lemma {:induction false} MappingExact(anchors: Anchors, n: Node, es: seq<Pair>, depth: nat)
    requires n.MappingNode?
    ensures Eval(anchors, Fuel(depth), n) == Some(MapValue(es)) <==> Stands(anchors, n, MapValue(es), depth)
    decreases depth, n, 2, |n.children| + 1
  {
    assert n.children[2 * 0..] == n.children;
    if Entries(anchors, Fuel(depth), n.children) == Some(es) {
      var parts := PartsOf(anchors, n, 0, es, depth);
    }
    if parts :| AllSet(anchors, n, 0, parts, depth) && Flat(parts) == es {
      EntriesOfParts(anchors, n, 0, parts, depth);
    }
  }

  lemma {:induction false} ItemsExact(anchors: Anchors, ns: seq<Node>, vs: seq<Value>, depth: nat)
    ensures EvalAll(anchors, Fuel(depth), ns) == Some(vs) <==>
            |vs| == |ns| && forall i | 0 <= i < |ns| :: Stands(anchors, ns[i], vs[i], depth)
    decreases depth, ns, 0
  {
    hide Eval, Stands;
    if ns != [] {
      if vs != [] {
        StandsExact(anchors, ns[0], vs[0], depth);
        ItemsExact(anchors, ns[1..], vs[1..], depth);
        assert vs == [vs[0]] + vs[1..];
        assert forall i | 0 <= i < |ns[1..]| :: ns[1..][i] == ns[i + 1];
        if |vs| == |ns| && forall i | 0 <= i < |ns| :: Stands(anchors, ns[i], vs[i], depth) {
          assert Stands(anchors, ns[0], vs[0], depth);
          assert forall i | 0 <= i < |ns[1..]| :: Stands(anchors, ns[1..][i], vs[1..][i], depth);
        }
        if Stands(anchors, ns[0], vs[0], depth) && |vs| == |ns| &&
           forall i | 0 <= i < |ns[1..]| :: Stands(anchors, ns[1..][i], vs[1..][i], depth)
        {
          forall i | 0 <= i < |ns| ensures Stands(anchors, ns[i], vs[i], depth) {
            if i > 0 { assert Stands(anchors, ns[1..][i - 1], vs[1..][i - 1], depth); }
          }
        }
      }
    }
  }

  /** The first pair and the pairs behind it. */
  lemma AllSetCons(anchors: Anchors, n: Node, j: nat, part: seq<Pair>, parts: seq<seq<Pair>>, depth: nat)
    requires n.MappingNode? && 2 * j + 1 < |n.children|
    ensures AllSet(anchors, n, j, [part] + parts, depth) <==>
            Sets(anchors, n, j, part, depth) && AllSet(anchors, n, j + 1, parts, depth)
  {
    hide Sets;
    var all := [part] + parts;
    if AllSet(anchors, n, j, all, depth) {
      assert Sets(anchors, n, j + 0, all[0], depth);
      forall i | 0 <= i < |parts| ensures Sets(anchors, n, j + 1 + i, parts[i], depth) {
        assert Sets(anchors, n, j + (i + 1), all[i + 1], depth);
      }
    }
    if Sets(anchors, n, j, part, depth) && AllSet(anchors, n, j + 1, parts, depth) {
      forall i | 0 <= i < |all| ensures Sets(anchors, n, j + i, all[i], depth) {
        if i > 0 { assert Sets(anchors, n, j + 1 + (i - 1), parts[i - 1], depth); }
      }
    }
  }

  lemma FlatCons(part: seq<Pair>, parts: seq<seq<Pair>>)
    ensures Flat([part] + parts) == part + Flat(parts)
  {
    assert ([part] + parts)[1..] == parts;
  }

  /** The entries of the pairs from `j` on, pair by pair. */
  lemma {:induction false} PartsOf(anchors: Anchors, n: Node, j: nat, es: seq<Pair>, depth: nat)
    returns (parts: seq<seq<Pair>>)
    requires n.MappingNode? && 2 * j <= |n.children|
    requires Entries(anchors, Fuel(depth), n.children[2 * j..]) == Some(es)
    ensures AllSet(anchors, n, j, parts, depth) && Flat(parts) == es
    decreases depth, n, 2, |n.children| - 2 * j
  {
    hide FirstEntries, Sets;
    if 2 * j == |n.children| {
      parts := [];
    } else {
      var p := Fuel(depth);
      EntriesStep(anchors, p, n.children, 2 * j);
      var first := FirstEntries(anchors, p, n.children[2 * j], n.children[2 * j + 1]).value;
      SetsExact(anchors, n, j, first, depth);
      var others := PartsOf(anchors, n, j + 1, Entries(anchors, p, n.children[2 * (j + 1)..]).value, depth);
      AllSetCons(anchors, n, j, first, others, depth);
      FlatCons(first, others);
      parts := [first] + others;
    }
  }

  lemma {:induction false} EntriesOfParts(anchors: Anchors, n: Node, j: nat, parts: seq<seq<Pair>>, depth: nat)
    requires n.MappingNode? && AllSet(anchors, n, j, parts, depth)
    ensures Entries(anchors, Fuel(depth), n.children[2 * j..]) == Some(Flat(parts))
    decreases depth, n, 2, |n.children| - 2 * j
  {
    hide FirstEntries, Sets;
    if parts != [] {
      EntriesStep(anchors, Fuel(depth), n.children, 2 * j);
      assert parts == [parts[0]] + parts[1..];
      AllSetCons(anchors, n, j, parts[0], parts[1..], depth);
      SetsExact(anchors, n, j, parts[0], depth);
      EntriesOfParts(anchors, n, j + 1, parts[1..], depth);
    }
  }

  lemma {:induction false} SetsExact(anchors: Anchors, n: Node, i: nat, part: seq<Pair>, depth: nat)
    requires n.MappingNode? && 2 * i + 1 < |n.children|
    ensures FirstEntries(anchors, Fuel(depth), n.children[2 * i], n.children[2 * i + 1]) == Some(part) <==>
            Sets(anchors, n, i, part, depth)
    decreases depth, n, 1
  {
    hide Eval, Stands, Merged, Merges;
    var key, value := n.children[2 * i], n.children[2 * i + 1];
    if IsMerge(key) {
      MergesExact(anchors, value, part, depth);
    } else {
      if |part| == 1 {
        StandsExact(anchors, key, part[0].key, depth);
        StandsExact(anchors, value, part[0].value, depth);
        assert part == [Pair(part[0].key, part[0].value)];
      }
    }
  }

  lemma {:induction false} MergesExact(anchors: Anchors, m: Node, part: seq<Pair>, depth: nat)
    ensures Merged(anchors, Fuel(depth), m) == Some(part) <==> Merges(anchors, m, part, depth)
    decreases depth, m, 5
  {
    hide Eval, Stands, Mergeable, Flat;
    if m.SequenceNode? {
      assert m.children[..|m.children|] == m.children;
      if Merged(anchors, Fuel(depth), m) == Some(part) {
        var parts := PartsMerged(anchors, m, |m.children|, part, depth);
      }
      if parts :| AllMerged(anchors, m, |m.children|, parts, depth) && Flat(parts) == part {
        MergedOfParts(anchors, m, |m.children|, parts, depth);
      }
    } else {
      StandsExact(anchors, m, MapValue(part), depth);
    }
  }

  lemma AllMergedCons(anchors: Anchors, m: Node, j: nat, part: seq<Pair>, parts: seq<seq<Pair>>, depth: nat)
    requires m.SequenceNode? && 0 < j <= |m.children|
    ensures AllMerged(anchors, m, j, [part] + parts, depth) <==>
            Mergeable(anchors, m.children[j - 1]) && Stands(anchors, m.children[j - 1], MapValue(part), depth) &&
            AllMerged(anchors, m, j - 1, parts, depth)
  {
    hide Stands, Mergeable;
    var all := [part] + parts;
    assert forall k | 0 <= k < |parts| :: all[k + 1] == parts[k];
    if AllMerged(anchors, m, j, all, depth) {
      assert all[j - 1 - (j - 1)] == part;
      forall i | 0 <= i < j - 1
        ensures Mergeable(anchors, m.children[i]) && Stands(anchors, m.children[i], MapValue(parts[j - 2 - i]), depth)
      {
        assert all[j - 1 - i] == parts[j - 2 - i];
      }
    }
  }

  /** The entries of the first `j` mappings of a list to be merged, from the last to the first. */
  lemma {:induction false} PartsMerged(anchors: Anchors, m: Node, j: nat, es: seq<Pair>, depth: nat)
    returns (parts: seq<seq<Pair>>)
    requires m.SequenceNode? && j <= |m.children|
    requires MergedAll(anchors, Fuel(depth), m.children[..j]) == Some(es)
    ensures AllMerged(anchors, m, j, parts, depth) && Flat(parts) == es
    decreases depth, m, 4, j
  {
    hide Eval, Stands, Mergeable;
    if j == 0 {
      parts := [];
    } else {
      var p, last := Fuel(depth), m.children[j - 1];
      MergedStep(anchors, p, m.children, j);
      var first := EntriesOf(Eval(anchors, p, last)).value;
      StandsExact(anchors, last, MapValue(first), depth);
      var others := PartsMerged(anchors, m, j - 1, MergedAll(anchors, p, m.children[..j - 1]).value, depth);
      AllMergedCons(anchors, m, j, first, others, depth);
      FlatCons(first, others);
      parts := [first] + others;
    }
  }

  lemma {:induction false} MergedOfParts(anchors: Anchors, m: Node, j: nat, parts: seq<seq<Pair>>, depth: nat)
    requires m.SequenceNode? && j <= |m.children| && AllMerged(anchors, m, j, parts, depth)
    ensures MergedAll(anchors, Fuel(depth), m.children[..j]) == Some(Flat(parts))
    decreases depth, m, 4, j
  {
    hide Eval, Stands, Mergeable;
    if j > 0 {
      MergedStep(anchors, Fuel(depth), m.children, j);
      assert parts == [parts[0]] + parts[1..];
      AllMergedCons(anchors, m, j, parts[0], parts[1..], depth);
      StandsExact(anchors, m.children[j - 1], MapValue(parts[0]), depth);
      MergedOfParts(anchors, m, j - 1, parts[1..], depth);
    }
  }

  /** The decoder succeeds with a value exactly if the node stands for it. */
  lemma DecodesMeaning(anchors: Anchors, n: Node, v: Value)
    ensures Eval(anchors, Active({}), n) == Some(v) <==> Means(anchors, n, v)
  {
    hide Eval, Stands;
    ExpansionExact(anchors, n, v);
    if k: nat :| Eval(anchors, Fuel(k), n) == Some(v) { StandsExact(anchors, n, v, k); }
    if k: nat :| Stands(anchors, n, v, k) { StandsExact(anchors, n, v, k); }
  }

  // ---------------------------------------------------------------- mappings without merge keys

  lemma {:induction false} FlatSingles(parts: seq<seq<Pair>>)
    requires forall i | 0 <= i < |parts| :: |parts[i]| == 1
    ensures |Flat(parts)| == |parts| && forall i | 0 <= i < |parts| :: Flat(parts)[i] == parts[i][0]
    decreases |parts|
  {
    if parts != [] { FlatSingles(parts[1..]); }
  }

  /** Entry `i` of a mapping without merge keys is child `2 * i` as the key and child `2 * i + 1` as the value. */
  lemma PlainMapping(anchors: Anchors, n: Node, v: Value, depth: nat)
    requires n.MappingNode? && forall i: nat | 2 * i < |n.children| :: !IsMerge(n.children[2 * i])
    ensures Stands(anchors, n, v, depth) <==>
            && v.MapValue? && 2 * |v.entries| == |n.children|
            && forall i | 0 <= i < |v.entries| ::
                 && v.entries[i].key.ScalarValue?
                 && Stands(anchors, n.children[2 * i], v.entries[i].key, depth)
                 && Stands(anchors, n.children[2 * i + 1], v.entries[i].value, depth)
  {
    if v.MapValue? {
      if parts :| AllSet(anchors, n, 0, parts, depth) && Flat(parts) == v.entries {
        SinglesSet(anchors, n, parts, depth);
        FlatSingles(parts);
      }
      if EachEntry(anchors, n, v.entries, depth) { EachSets(anchors, n, v.entries, depth); }
    }
  }

  lemma EachSets(anchors: Anchors, n: Node, es: seq<Pair>, depth: nat)
    requires n.MappingNode? && EachEntry(anchors, n, es, depth)
    requires forall i: nat | 2 * i < |n.children| :: !IsMerge(n.children[2 * i])
    ensures exists parts :: AllSet(anchors, n, 0, parts, depth) && Flat(parts) == es
  {
    hide Stands;
    var parts := seq(|es|, i requires 0 <= i < |es| => [es[i]]);
    FlatSingles(parts);
    assert Flat(parts) == es;
    forall i | 0 <= i < |parts| ensures Sets(anchors, n, 0 + i, parts[i], depth) {
      assert parts[i][0] == es[i];
    }
    assert AllSet(anchors, n, 0, parts, depth);
  }

  ghost predicate EachEntry(anchors: Anchors, n: Node, es: seq<Pair>, depth: nat)
    requires n.MappingNode?
  {
    && 2 * |es| == |n.children|
    && forall i | 0 <= i < |es| ::
         && es[i].key.ScalarValue?
         && Stands(anchors, n.children[2 * i], es[i].key, depth)
         && Stands(anchors, n.children[2 * i + 1], es[i].value, depth)
  }

  lemma SinglesSet(anchors: Anchors, n: Node, parts: seq<seq<Pair>>, depth: nat)
    requires n.MappingNode? && AllSet(anchors, n, 0, parts, depth)
    requires forall i: nat | 2 * i < |n.children| :: !IsMerge(n.children[2 * i])
    ensures forall i | 0 <= i < |parts| ::
              && |parts[i]| == 1 && parts[i][0].key.ScalarValue?
              && Stands(anchors, n.children[2 * i], parts[i][0].key, depth)
              && Stands(anchors, n.children[2 * i + 1], parts[i][0].value, depth)
  {
    forall i | 0 <= i < |parts|
      ensures && |parts[i]| == 1 && parts[i][0].key.ScalarValue?
              && Stands(anchors, n.children[2 * i], parts[i][0].key, depth)
              && Stands(anchors, n.children[2 * i + 1], parts[i][0].value, depth)
    {
      assert Sets(anchors, n, 0 + i, parts[i], depth);
    }
  }

  // ---------------------------------------------------------------- which entry supplies a key

  predicate HasKey(es: seq<Pair>, key: Value) {
    exists i | 0 <= i < |es| :: es[i].key == key
  }

  /** A key has the value that was set for it last. */
  function Lookup(es: seq<Pair>, key: Value): (r: Option<Value>)
    ensures r.None? <==> !HasKey(es, key)
    ensures r.Some? ==> exists i | 0 <= i < |es| ::
                          es[i] == Pair(key, r.value) && forall j | i < j < |es| :: es[j].key != key
  {
    if es == [] then None
    else
      var last := es[|es| - 1];
      if last.key == key then Some(last.value) else Lookup(es[..|es| - 1], key)
  }

  lemma {:induction false} LookupAppend(a: seq<Pair>, b: seq<Pair>, key: Value)
    ensures Lookup(a + b, key) == if HasKey(b, key) then Lookup(b, key) else Lookup(a, key)
    decreases |b|
  {
    if b == [] {
      assert a + b == a;
    } else {
      var front := b[..|b| - 1];
      assert (a + b)[..|a + b| - 1] == a + front && b == front + [b[|b| - 1]];
      LookupAppend(a, front, key);
      assert HasKey(b, key) <==> b[|b| - 1].key == key || HasKey(front, key);
    }
  }

  /** The last list that has the key supplies it. */
  lemma {:induction false} FlatLookup(parts: seq<seq<Pair>>, key: Value, j: nat)
    requires j < |parts| && forall i | j < i < |parts| :: !HasKey(parts[i], key)
    requires HasKey(parts[j], key)
    ensures Lookup(Flat(parts), key) == Lookup(parts[j], key)
    decreases |parts|
  {
    LookupAppend(parts[0], Flat(parts[1..]), key);
    if j > 0 {
      FlatLookup(parts[1..], key, j - 1);
    } else {
      FlatLacks(parts[1..], key);
    }
  }

  lemma {:induction false} FlatLacks(parts: seq<seq<Pair>>, key: Value)
    requires forall i | 0 <= i < |parts| :: !HasKey(parts[i], key)
    ensures !HasKey(Flat(parts), key)
    decreases |parts|
  {
    if parts != [] {
      FlatLacks(parts[1..], key);
      LookupAppend(parts[0], Flat(parts[1..]), key);
    }
  }

  lemma StandsOnce(anchors: Anchors, n: Node, v: Value, w: Value, depth: nat)
    requires Stands(anchors, n, v, depth) && Stands(anchors, n, w, depth)
    ensures v == w
  {
    StandsExact(anchors, n, v, depth);
    StandsExact(anchors, n, w, depth);
  }

  /** No mapping of a list to be merged that stands before place `j` has the key. */
  ghost predicate LackBefore(anchors: Anchors, m: Node, j: nat, key: Value, depth: nat)
    requires m.SequenceNode? && j <= |m.children|
  {
    forall i, es | 0 <= i < j && Stands(anchors, m.children[i], MapValue(es), depth) :: !HasKey(es, key)
  }

  /** Of a list of merged mappings, the earliest one that has a key supplies it. */
  lemma EarliestMerged(anchors: Anchors, m: Node, part: seq<Pair>, depth: nat, j: nat, es: seq<Pair>, key: Value)
    requires m.SequenceNode? && Merges(anchors, m, part, depth) && j < |m.children|
    requires Stands(anchors, m.children[j], MapValue(es), depth) && HasKey(es, key)
    requires LackBefore(anchors, m, j, key, depth)
    ensures Lookup(part, key) == Lookup(es, key)
  {
    hide Stands, HasKey, Mergeable;
    var count := |m.children|;
    var parts :| AllMerged(anchors, m, count, parts, depth) && Flat(parts) == part;
    var place := count - 1 - j;
    assert parts[count - 1 - j] == parts[place];
    StandsOnce(anchors, m.children[j], MapValue(es), MapValue(parts[place]), depth);
    forall i | place < i < count ensures !HasKey(parts[i], key) {
      var k := count - 1 - i;
      assert parts[count - 1 - k] == parts[i];
      assert Stands(anchors, m.children[k], MapValue(parts[i]), depth);
    }
    FlatLookup(parts, key, place);
  }

  /** And if none of them has it, it is not set. */
  lemma NoneMerged(anchors: Anchors, m: Node, part: seq<Pair>, depth: nat, key: Value)
    requires m.SequenceNode? && Merges(anchors, m, part, depth) && LackBefore(anchors, m, |m.children|, key, depth)
    ensures Lookup(part, key) == None
  {
    hide Stands, HasKey, Mergeable;
    var count := |m.children|;
    var parts :| AllMerged(anchors, m, count, parts, depth) && Flat(parts) == part;
    forall i | 0 <= i < count ensures !HasKey(parts[i], key) {
      var k := count - 1 - i;
      assert parts[count - 1 - k] == parts[i];
      assert Stands(anchors, m.children[k], MapValue(parts[i]), depth);
    }
    FlatLacks(parts, key);
  }

  /** In a mapping the last pair that sets a key supplies it, be it the key itself or a merge key. */
  lemma LastPairSupplies(anchors: Anchors, n: Node, es: seq<Pair>, depth: nat, j: nat, part: seq<Pair>, key: Value)
    requires n.MappingNode? && Stands(anchors, n, MapValue(es), depth) && 2 * j + 1 < |n.children|
    requires Sets(anchors, n, j, part, depth) && HasKey(part, key)
    requires forall i, other | j < i && 2 * i + 1 < |n.children| && Sets(anchors, n, i, other, depth) ::
               !HasKey(other, key)
    ensures Lookup(es, key) == Lookup(part, key)
  {
    var parts :| AllSet(anchors, n, 0, parts, depth) && Flat(parts) == es;
    hide Stands, HasKey, Sets;
    assert Sets(anchors, n, 0 + j, parts[j], depth);
    SetsExact(anchors, n, j, part, depth);
    SetsExact(anchors, n, j, parts[j], depth);
    forall i | j < i < |parts| ensures !HasKey(parts[i], key) {
      assert Sets(anchors, n, 0 + i, parts[i], depth);
    }
    FlatLookup(parts, key, j);
  }

  ghost predicate Supplies(anchors: Anchors, n: Node, depth: nat, i: nat, part: seq<Pair>, key: Value)
    requires n.MappingNode?
  {
    2 * i + 1 < |n.children| && Sets(anchors, n, i, part, depth) && HasKey(part, key)
  }

  ghost predicate SuppliesLast(anchors: Anchors, n: Node, depth: nat, i: nat, part: seq<Pair>, key: Value)
    requires n.MappingNode?
  {
    && Supplies(anchors, n, depth, i, part, key)
    && forall k: nat, other | i < k :: !Supplies(anchors, n, depth, k, other, key)
  }

  /** From pair `j` on, which supplies the key, there is a last one that does. */
  lemma {:induction false} LastSupplier(anchors: Anchors, n: Node, depth: nat, j: nat, part: seq<Pair>, key: Value)
    returns (i: nat, last: seq<Pair>)
    requires n.MappingNode? && Supplies(anchors, n, depth, j, part, key)
    ensures j <= i && SuppliesLast(anchors, n, depth, i, last, key)
    decreases |n.children| - j
  {
    hide Sets, HasKey;
    if k: nat, other :| j < k && Supplies(anchors, n, depth, k, other, key) {
      i, last := LastSupplier(anchors, n, depth, k, other, key);
    } else {
      i, last := j, part;
    }
  }

  /**
   So a key prevails over what comes behind it exactly if the last pair behind it that supplies the key, if there is
   one, supplies the same value: an own key may well lose to a merge key behind it.
   */
  lemma KeyPrevails(anchors: Anchors, n: Node, es: seq<Pair>, depth: nat, j: nat, part: seq<Pair>, key: Value)
    requires n.MappingNode? && Stands(anchors, n, MapValue(es), depth) && Supplies(anchors, n, depth, j, part, key)
    ensures Lookup(es, key) == Lookup(part, key) <==>
            forall i: nat, other | j < i && SuppliesLast(anchors, n, depth, i, other, key) ::
              Lookup(other, key) == Lookup(part, key)
  {
    hide Stands, Sets, Lookup, HasKey;
    forall i: nat, other | SuppliesLast(anchors, n, depth, i, other, key)
      ensures Lookup(es, key) == Lookup(other, key)
    {
      forall k: nat, later | i < k && 2 * k + 1 < |n.children| && Sets(anchors, n, k, later, depth)
        ensures !HasKey(later, key)
      {
        assert !Supplies(anchors, n, depth, k, later, key);
      }
      LastPairSupplies(anchors, n, es, depth, i, other, key);
    }
    var i, last := LastSupplier(anchors, n, depth, j, part, key);
    if i == j {
      SetsExact(anchors, n, j, part, depth);
      SetsExact(anchors, n, j, last, depth);
    }
  }

  function Word(text: string): Node {
    ScalarNode("", text, true)
  }

  function WordValue(text: string): Value {
    ScalarValue("", text, true)
  }

  function OneEntry(key: string, value: string): seq<Pair> {
    [Pair(WordValue(key), WordValue(value))]
  }

  lemma OneStands(key: string, value: string)
    requires key != "<<"
    ensures Stands(map[], MappingNode([Word(key), Word(value)]), MapValue(OneEntry(key, value)), 0)
  {
    PlainMapping(map[], MappingNode([Word(key), Word(value)]), MapValue(OneEntry(key, value)), 0);
  }

  const MERGED_BEHIND := MappingNode([Word("a"), Word("b"), Word("<<"), MappingNode([Word("a"), Word("c")])])

  lemma MergedBehindStands()
    ensures Stands(map[], MERGED_BEHIND, MapValue(Flat([OneEntry("a", "b"), OneEntry("a", "c")])), 0)
  {
    var parts: seq<seq<Pair>> := [OneEntry("a", "b"), OneEntry("a", "c")];
    OneStands("a", "c");
    assert Sets(map[], MERGED_BEHIND, 0 + 0, parts[0], 0);
    assert Sets(map[], MERGED_BEHIND, 0 + 1, parts[1], 0) by { hide Stands; }
    assert AllSet(map[], MERGED_BEHIND, 0, parts, 0) by { hide Sets; }
  }

  /** `{a: b, <<: {a: c}}` gives c for a: a merge key behind an own key prevails over it. */
  lemma MergeBehindKey()
    ensures exists es ::
              Means(map[], MERGED_BEHIND, MapValue(es)) && Lookup(es, WordValue("a")) == Some(WordValue("c"))
  {
    hide Stands;
    var parts: seq<seq<Pair>> := [OneEntry("a", "b"), OneEntry("a", "c")];
    MergedBehindStands();
    assert parts[1][0].key == WordValue("a");
    FlatLookup(parts, WordValue("a"), 1);
    assert Means(map[], MERGED_BEHIND, MapValue(Flat(parts)));
  }

  // ---------------------------------------------------------------- the anchors of a document

  predicate Named(anchors: seq<Anchor>, name: string) {
    exists i | 0 <= i < |anchors| :: anchors[i].name == name
  }

  /** The anchors of a document are kept by name, each as it was set last. */
  function Table(anchors: seq<Anchor>): (m: Anchors)
    ensures forall name :: name in m <==> Named(anchors, name)
  {
    if anchors == [] then map[]
    else
      var last := anchors[|anchors| - 1];
      Table(anchors[..|anchors| - 1])[last.name := last.node]
  }

  /**
   Aliases are looked up when the document is complete: wherever an alias stands, it stands for the last anchor of its
   name.
   */
  lemma {:induction false} LastAnchor(anchors: seq<Anchor>, i: nat)
    requires i < |anchors| && forall j | i < j < |anchors| :: anchors[j].name != anchors[i].name
    ensures anchors[i].name in Table(anchors) && Table(anchors)[anchors[i].name] == anchors[i].node
    decreases |anchors|
  {
    var front := anchors[..|anchors| - 1];
    if i < |front| {
      assert front[i] == anchors[i];
      LastAnchor(front, i);
    }
  }

  predicate LastNamed(anchors: seq<Anchor>, i: nat, name: string) {
    i < |anchors| && anchors[i].name == name && forall j | i < j < |anchors| :: anchors[j].name != name
  }

  lemma {:induction false} LastOfName(anchors: seq<Anchor>, name: string) returns (i: nat)
    requires Named(anchors, name)
    ensures LastNamed(anchors, i, name)
    decreases |anchors|
  {
    var front := anchors[..|anchors| - 1];
    if anchors[|anchors| - 1].name == name {
      i := |anchors| - 1;
    } else {
      var k :| 0 <= k < |anchors| && anchors[k].name == name;
      assert front[k].name == name;
      i := LastOfName(front, name);
      assert anchors[i] == front[i] && forall j | i < j < |front| :: anchors[j] == front[j];
    }
  }

  /**
   An alias behind the first `k` anchors stands for the node of the nearest anchor in front of it exactly if the last
   anchor of its name behind it, if there is one, has the same node.
   */
  lemma AnchorInFront(anchors: seq<Anchor>, k: nat, name: string)
    requires k <= |anchors| && Named(anchors[..k], name)
    ensures name in Table(anchors) && name in Table(anchors[..k])
    ensures Table(anchors)[name] == Table(anchors[..k])[name] <==>
            forall i | k <= i && LastNamed(anchors, i, name) :: anchors[i].node == Table(anchors[..k])[name]
  {
    hide Table;
    var before := anchors[..k];
    var near := LastOfName(before, name);
    LastAnchor(before, near);
    assert anchors[near].name == name;
    var last := LastOfName(anchors, name);
    LastAnchor(anchors, last);
    assert forall i: nat | LastNamed(anchors, i, name) :: i == last;
    if last < k {
      assert before[last] == anchors[last] && last == near;
    }
  }

  /** `[&x a, *x, &x b]` gives [a, b, b]: the alias stands for the anchor behind it, not for the one in front of it. */
  lemma AnchorBehindAlias()
    ensures var anchors := Table([Anchor("x", Word("a")), Anchor("x", Word("b"))]);
            var n := SequenceNode([Word("a"), AliasNode("x"), Word("b")]);
            Means(anchors, n, ListValue([WordValue("a"), WordValue("b"), WordValue("b")]))
  {
    var list := [Anchor("x", Word("a")), Anchor("x", Word("b"))];
    LastAnchor(list, 1);
    assert Stands(Table(list), AliasNode("x"), WordValue("b"), 1);
    assert Stands(Table(list), SequenceNode([Word("a"), AliasNode("x"), Word("b")]),
                  ListValue([WordValue("a"), WordValue("b"), WordValue("b")]), 1);
  }
}
