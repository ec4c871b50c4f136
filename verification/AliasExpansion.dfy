/**
 The decoder's walk over a node tree with anchors and aliases. An alias stands for the node
 of its anchor, which may contain it in turn; the walk keeps the set of aliases it is
 inside of, and fails when it meets one of them again. It succeeds exactly on the trees that have
 a finite expansion, and gives that expansion.
 */
module AliasExpansion {
  import opened Wrappers
  import opened YamlBuilder

  type Anchors = map<string, Node>

  const MERGE_TAG := "tag:yaml.org,2002:merge"

  /** A decoded value. A mapping is the list of the entries set in it, in order. */
  datatype Value =
    | ScalarValue(tag: string, text: string, implicit: bool)
    | ListValue(items: seq<Value>)
    | MapValue(entries: seq<Pair>)

  datatype Pair = Pair(key: Value, value: Value)

  /** How often aliases may be followed: not if inside themselves, or a number of times along each branch. */
  datatype Policy = Active(inside: set<string>) | Fuel(fuel: nat)

  function Rank(anchors: Anchors, p: Policy): nat {
    match p
    case Active(inside) => |anchors.Keys - inside|
    case Fuel(k) => k
  }

  predicate MayFollow(p: Policy, name: string) {
    match p
    case Active(inside) => name !in inside
    case Fuel(k) => k > 0
  }

  /** The policy for the node behind an alias. */
  function Followed(anchors: Anchors, p: Policy, name: string): (q: Policy)
    requires name in anchors && MayFollow(p, name)
    ensures Rank(anchors, q) < Rank(anchors, p)
  {
    match p
    case Active(inside) =>
      Shrinks(anchors.Keys, inside, name);
      Active(inside + {name})
    case Fuel(k) => Fuel(k - 1)
  }

  lemma Shrinks(keys: set<string>, inside: set<string>, name: string)
    requires name in keys && name !in inside
    ensures |keys - (inside + {name})| < |keys - inside|
  {
    assert keys - (inside + {name}) == (keys - inside) - {name};
  }

  predicate IsMerge(n: Node) {
    n.ScalarNode? && n.value == "<<" && (n.implicit || n.tag == MERGE_TAG)
  }

  /** A mapping, or an alias of one, or of nothing. */
  predicate Mergeable(anchors: Anchors, n: Node) {
    n.MappingNode? || (n.AliasNode? && (n.value in anchors ==> anchors[n.value].MappingNode?))
  }

  function Eval(anchors: Anchors, p: Policy, n: Node): (r: Option<Value>)
    ensures r.Some? && n.MappingNode? ==> r.value.MapValue?
    decreases Rank(anchors, p), n, 0
  {
    match n
    case AliasNode(name) =>
      if name in anchors && MayFollow(p, name) then Eval(anchors, Followed(anchors, p, name), anchors[name]) else None
    case ScalarNode(tag, text, implicit) => Some(ScalarValue(tag, text, implicit))
    case SequenceNode(children) =>
      (match EvalAll(anchors, p, children) case None => None case Some(vs) => Some(ListValue(vs)))
    case MappingNode(children) =>
      (match Entries(anchors, p, children) case None => None case Some(es) => Some(MapValue(es)))
  }

  function EvalAll(anchors: Anchors, p: Policy, ns: seq<Node>): Option<seq<Value>>
    decreases Rank(anchors, p), ns, 0
  {
    if ns == [] then Some([])
    else
      match Eval(anchors, p, ns[0])
      case None => None
      case Some(v) => match EvalAll(anchors, p, ns[1..]) case None => None case Some(vs) => Some([v] + vs)
  }

  /** The entries set by a list of keys and values; a merge key sets those of the merged mappings. */
  function Entries(anchors: Anchors, p: Policy, ns: seq<Node>): Option<seq<Pair>>
    decreases Rank(anchors, p), ns, 0
  {
    if ns == [] then Some([])
    else if |ns| == 1 then None
    else
      var first :=
        if IsMerge(ns[0]) then Merged(anchors, p, ns[1])
        else Combine(Eval(anchors, p, ns[0]), Eval(anchors, p, ns[1]));
      match first
      case None => None
      case Some(es) => match Entries(anchors, p, ns[2..]) case None => None case Some(rest) => Some(es + rest)
  }

  /** An entry; a collection cannot be a key. */
  function Combine(key: Option<Value>, value: Option<Value>): Option<seq<Pair>> {
    match (key, value)
    case (Some(k), Some(v)) => if k.ScalarValue? then Some([Pair(k, v)]) else None
    case _ => None
  }

  function EntriesOf(v: Option<Value>): Option<seq<Pair>> {
    match v case Some(MapValue(es)) => Some(es) case _ => None
  }

  /** What the value of a merge key stands for: a mapping, or mappings from the last to the first. */
  function Merged(anchors: Anchors, p: Policy, n: Node): Option<seq<Pair>>
    decreases Rank(anchors, p), n, 2
  {
    if n.SequenceNode? then MergedAll(anchors, p, n.children)
    else if Mergeable(anchors, n) then EntriesOf(Eval(anchors, p, n))
    else None
  }

  function MergedAll(anchors: Anchors, p: Policy, ns: seq<Node>): Option<seq<Pair>>
    decreases Rank(anchors, p), ns, 1
  {
    if ns == [] then Some([])
    else
      var last := ns[|ns| - 1];
      if !Mergeable(anchors, last) then None
      else
        match EntriesOf(Eval(anchors, p, last))
        case None => None
        case Some(es) =>
          match MergedAll(anchors, p, ns[..|ns| - 1])
          case None => None
          case Some(rest) => Some(es + rest)
  }

  // ---------------------------------------------------------------- one node at a time

  function Before<T>(done: seq<T>, rest: Option<seq<T>>): Option<seq<T>> {
    match rest case None => None case Some(r) => Some(done + r)
  }

  lemma BeforeTwice<T>(a: seq<T>, b: seq<T>, rest: Option<seq<T>>)
    ensures Before(a, Before(b, rest)) == Before(a + b, rest)
  {
    if rest.Some? { assert a + (b + rest.value) == (a + b) + rest.value; }
  }

  lemma BeforeNothing<T>(rest: Option<seq<T>>)
    ensures Before([], rest) == rest
  {
    if rest.Some? { assert [] + rest.value == rest.value; }
  }

  lemma AllStep(anchors: Anchors, p: Policy, ns: seq<Node>, i: nat)
    requires i < |ns|
    ensures EvalAll(anchors, p, ns[i..]) ==
            match Eval(anchors, p, ns[i])
            case None => None
            case Some(v) => Before([v], EvalAll(anchors, p, ns[i + 1..]))
  {
  }

  /** The entries of the first key and value of a list. */
  function FirstEntries(anchors: Anchors, p: Policy, key: Node, value: Node): Option<seq<Pair>> {
    if IsMerge(key) then Merged(anchors, p, value) else Combine(Eval(anchors, p, key), Eval(anchors, p, value))
  }

  lemma EntriesStep(anchors: Anchors, p: Policy, ns: seq<Node>, i: nat)
    requires i < |ns|
    ensures Entries(anchors, p, ns[i..]) ==
            if i + 1 == |ns| then None
            else
              match FirstEntries(anchors, p, ns[i], ns[i + 1])
              case None => None
              case Some(es) => Before(es, Entries(anchors, p, ns[i + 2..]))
  {
  }

  lemma MergedStep(anchors: Anchors, p: Policy, ns: seq<Node>, i: nat)
    requires 0 < i <= |ns|
    ensures MergedAll(anchors, p, ns[..i]) ==
            if !Mergeable(anchors, ns[i - 1]) then None
            else
              match EntriesOf(Eval(anchors, p, ns[i - 1]))
              case None => None
              case Some(es) => Before(es, MergedAll(anchors, p, ns[..i - 1]))
  {
    hide Eval, EntriesOf;
    assert ns[..i][i - 1] == ns[i - 1] && ns[..i][..i - 1] == ns[..i - 1];
  }

  // ---------------------------------------------------------------- one policy covers another

  /** Every alias that `p` expands, `q` expands to the same value. */
  ghost predicate Covers(anchors: Anchors, p: Policy, q: Policy) {
    forall a :: Eval(anchors, p, AliasNode(a)).Some? ==>
                  Eval(anchors, q, AliasNode(a)) == Eval(anchors, p, AliasNode(a))
  }

  /** Then so it is with every node. */
  lemma {:induction false} EvalCovered(anchors: Anchors, p: Policy, q: Policy, n: Node)
    requires Covers(anchors, p, q) && Eval(anchors, p, n).Some?
    ensures Eval(anchors, q, n) == Eval(anchors, p, n)
    decreases n, 0
  {
    match n {
      case AliasNode(a) =>
      case ScalarNode(_, _, _) =>
      case SequenceNode(children) => AllCovered(anchors, p, q, children);
      case MappingNode(children) => EntriesCovered(anchors, p, q, children);
    }
  }

  lemma {:induction false} AllCovered(anchors: Anchors, p: Policy, q: Policy, ns: seq<Node>)
    requires Covers(anchors, p, q) && EvalAll(anchors, p, ns).Some?
    ensures EvalAll(anchors, q, ns) == EvalAll(anchors, p, ns)
    decreases ns, 0
  {
    hide Eval, Covers;
    if ns != [] {
      EvalCovered(anchors, p, q, ns[0]);
      AllCovered(anchors, p, q, ns[1..]);
    }
  }

  lemma {:induction false} EntriesCovered(anchors: Anchors, p: Policy, q: Policy, ns: seq<Node>)
    requires Covers(anchors, p, q) && Entries(anchors, p, ns).Some?
    ensures Entries(anchors, q, ns) == Entries(anchors, p, ns)
    decreases ns, 0
  {
    hide Eval, Covers;
    if |ns| > 1 {
      if IsMerge(ns[0]) {
        MergedCovered(anchors, p, q, ns[1]);
      } else {
        EvalCovered(anchors, p, q, ns[0]);
        EvalCovered(anchors, p, q, ns[1]);
      }
      EntriesCovered(anchors, p, q, ns[2..]);
    }
  }

  lemma {:induction false} MergedCovered(anchors: Anchors, p: Policy, q: Policy, n: Node)
    requires Covers(anchors, p, q) && Merged(anchors, p, n).Some?
    ensures Merged(anchors, q, n) == Merged(anchors, p, n)
    decreases n, 1
  {
    hide Eval, Covers;
    if n.SequenceNode? {
      MergedAllCovered(anchors, p, q, n.children);
    } else {
      EvalCovered(anchors, p, q, n);
    }
  }

  lemma {:induction false} MergedAllCovered(anchors: Anchors, p: Policy, q: Policy, ns: seq<Node>)
    requires Covers(anchors, p, q) && MergedAll(anchors, p, ns).Some?
    ensures MergedAll(anchors, q, ns) == MergedAll(anchors, p, ns)
    decreases ns, 1
  {
    hide Eval, Covers;
    if ns != [] {
      EvalCovered(anchors, p, q, ns[|ns| - 1]);
      MergedAllCovered(anchors, p, q, ns[..|ns| - 1]);
    }
  }

  // ---------------------------------------------------------------- the active set and finite expansions

  lemma FollowedEval(anchors: Anchors, p: Policy, a: string)
    ensures Eval(anchors, p, AliasNode(a)) ==
            if a in anchors && MayFollow(p, a) then Eval(anchors, Followed(anchors, p, a), anchors[a]) else None
  {
  }

  lemma {:induction false} MoreFuel(anchors: Anchors, k: nat)
    ensures Covers(anchors, Fuel(k), Fuel(k + 1))
    decreases k
  {
    hide Eval;
    forall a | Eval(anchors, Fuel(k), AliasNode(a)).Some?
      ensures Eval(anchors, Fuel(k + 1), AliasNode(a)) == Eval(anchors, Fuel(k), AliasNode(a))
    {
      FollowedEval(anchors, Fuel(k), a);
      FollowedEval(anchors, Fuel(k + 1), a);
      MoreFuel(anchors, k - 1);
      EvalCovered(anchors, Fuel(k - 1), Fuel(k), anchors[a]);
    }
  }

  lemma {:induction false} MuchFuel(anchors: Anchors, j: nat, k: nat, n: Node)
    requires j <= k && Eval(anchors, Fuel(j), n).Some?
    ensures Eval(anchors, Fuel(k), n) == Eval(anchors, Fuel(j), n)
    decreases k - j
  {
    hide Eval;
    if j < k {
      MoreFuel(anchors, j);
      EvalCovered(anchors, Fuel(j), Fuel(j + 1), n);
      MuchFuel(anchors, j + 1, k, n);
    }
  }

  /** Along a branch no alias is followed twice, so as many steps as there are anchors are enough. */
  lemma {:induction false} ActiveCovered(anchors: Anchors, inside: set<string>, k: nat)
    requires |anchors.Keys - inside| <= k
    ensures Covers(anchors, Active(inside), Fuel(k))
    decreases k
  {
    hide Eval;
    forall a | Eval(anchors, Active(inside), AliasNode(a)).Some?
      ensures Eval(anchors, Fuel(k), AliasNode(a)) == Eval(anchors, Active(inside), AliasNode(a))
    {
      FollowedEval(anchors, Active(inside), a);
      FollowedEval(anchors, Fuel(k), a);
      Shrinks(anchors.Keys, inside, a);
      ActiveCovered(anchors, inside + {a}, k - 1);
      EvalCovered(anchors, Active(inside + {a}), Fuel(k - 1), anchors[a]);
    }
  }

  /** The aliases that the walk is inside of need more steps than are left. */
  ghost predicate Guarded(anchors: Anchors, inside: set<string>, k: nat) {
    forall b | b in inside :: Eval(anchors, Fuel(k), AliasNode(b)).None?
  }

  /** The least number of steps with which a node has an expansion. */
  lemma {:induction false} LeastFuel(anchors: Anchors, n: Node, k: nat) returns (m: nat)
    requires Eval(anchors, Fuel(k), n).Some?
    ensures m <= k && Eval(anchors, Fuel(m), n) == Eval(anchors, Fuel(k), n)
    ensures m > 0 ==> Eval(anchors, Fuel(m - 1), n).None?
    decreases k
  {
    hide Eval;
    if k == 0 || Eval(anchors, Fuel(k - 1), n).None? {
      m := k;
    } else {
      MuchFuel(anchors, k - 1, k, n);
      m := LeastFuel(anchors, n, k - 1);
    }
  }

  /** A node with a finite expansion cannot lie inside itself, so the walk does not fail on it. */
  lemma {:induction false} FuelCovered(anchors: Anchors, k: nat, inside: set<string>)
    requires Guarded(anchors, inside, k)
    ensures Covers(anchors, Fuel(k), Active(inside))
    decreases k
  {
    hide Eval;
    forall a | Eval(anchors, Fuel(k), AliasNode(a)).Some?
      ensures Eval(anchors, Active(inside), AliasNode(a)) == Eval(anchors, Fuel(k), AliasNode(a))
    {
      FollowedEval(anchors, Fuel(k), a);
      FollowedEval(anchors, Active(inside), a);
      var m := LeastFuel(anchors, anchors[a], k - 1);
      StillGuarded(anchors, inside, k, a, m);
      FuelCovered(anchors, m, inside + {a});
      EvalCovered(anchors, Fuel(m), Active(inside + {a}), anchors[a]);
    }
  }

  lemma StillGuarded(anchors: Anchors, inside: set<string>, k: nat, a: string, m: nat)
    requires Guarded(anchors, inside, k) && a in anchors && m < k
    requires m > 0 ==> Eval(anchors, Fuel(m - 1), anchors[a]).None?
    ensures Guarded(anchors, inside + {a}, m)
  {
    hide Eval;
    forall b | b in inside + {a} ensures Eval(anchors, Fuel(m), AliasNode(b)).None? {
      FollowedEval(anchors, Fuel(m), b);
      if b in inside && Eval(anchors, Fuel(m), AliasNode(b)).Some? {
        MuchFuel(anchors, m, k, AliasNode(b));
      }
    }
  }

  /** The walk succeeds exactly when there is a finite expansion, and the value is that expansion. */
  lemma ExpansionExact(anchors: Anchors, n: Node, v: Value)
    ensures Eval(anchors, Active({}), n) == Some(v) <==> exists k: nat :: Eval(anchors, Fuel(k), n) == Some(v)
  {
    hide Eval;
    if Eval(anchors, Active({}), n) == Some(v) {
      ActiveCovered(anchors, {}, |anchors.Keys - {}|);
      EvalCovered(anchors, Active({}), Fuel(|anchors.Keys - {}|), n);
    }
    if k: nat :| Eval(anchors, Fuel(k), n) == Some(v) {
      FuelCovered(anchors, k, {});
      EvalCovered(anchors, Fuel(k), Active({}), n);
    }
  }
}
