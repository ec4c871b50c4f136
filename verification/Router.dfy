/**
 The router: one tree, routes registered one after the other, and lookups. Whatever was
 registered, in whatever order, a lookup gives what a scan of the list of routes gives.
 */
module Router {
  import opened Wrappers
  import opened RoutePatterns
  import opened RouteTree
  import opened RouteInsert
  import opened RouteContents
  import opened RouteCounts
  import opened RouteStars
  import opened RouteConflicts

  datatype Route = Route(pattern: string, handlers: Handlers)

  /** The first registered route whose pattern matches. */
  function Scan(routes: seq<Route>, path: string): Option<Found> {
    if routes == [] then None
    else
      match Match(routes[0].pattern, path)
      case Some(ps) => Some(Found(routes[0].pattern, routes[0].handlers, ps))
      case None => Scan(routes[1..], path)
  }

  /** Patterns the tree is made for: rooted, with fewer than 255 wildcards. */
  predicate Registrable(pattern: string) {
    pattern != "" && pattern[0] == '/' && Wilds(pattern) < 255
  }

  /** The pattern goes on behind a registered catch-all. */
  ghost predicate ExtendsSome(routes: seq<Route>, pattern: string) {
    exists r :: r in routes && Extends(r.pattern, pattern)
  }

  /** The tree holds exactly these routes, with all its counts right. */
  ghost predicate Holds(root: Node, routes: seq<Route>) {
    if routes == [] then root == EMPTY_TREE
    else
      && IsStatic(root) && root.kind.Root? && Opens(root, '/') && Accounted(root) && Routes(root) == |routes|
      && forall p, h :: Has(root, p, h) <==> Route(p, h) in routes
  }

  lemma FirstRoute(path: string, h: Handlers)
    requires Registrable(path) && AddRoute(EMPTY_TREE, path, h).Success?
    ensures Holds(AddRoute(EMPTY_TREE, path, h).value, [Route(path, h)])
  {
    hide IsStatic, IsParam, IsIndexed, Accounted;
    var n := EMPTY_TREE.(priority := 1);
    var r := InsertChild(n, Wilds(path), path, h).value;
    var root := AddRoute(EMPTY_TREE, path, h).value;
    assert root == r.(kind := Root);
    InsertStars(n, path, h);
    InsertShape(n, path, h);
    InsertAccounts(n, path, h);
    AsRoot(r);
    forall p, g ensures Has(root, p, g) <==> Route(p, g) in [Route(path, h)] {
      InsertHas(n, path, h, p, g);
      HasNode(r, p, g);
      HasNode(root, p, g);
    }
  }

  lemma AsRoot(n: Node)
    requires IsStatic(n) && CountsBelow(n) && n.priority == Routes(n) >= 1
    ensures var r := n.(kind := Root);
            IsStatic(r) && Accounted(r) && Routes(r) == Routes(n) && (Opens(n, '/') ==> Opens(r, '/'))
  {
  }

  /** An accepted pattern has its star last, unless it goes on behind a registered catch-all. */
  lemma AcceptedStars(root: Node, routes: seq<Route>, path: string, h: Handlers)
    requires Holds(root, routes) && Registrable(path) && AddRoute(root, path, h).Success?
    ensures StarLast(path) <==> !ExtendsSome(routes, path)
  {
    hide IsStatic, IsParam, IsIndexed, Accounted, Walk, Routes;
    if ExtendsSome(routes, path) {
      var r :| r in routes && Extends(r.pattern, path);
      ExtendsNotLast(r.pattern, path);
    } else if routes == [] {
      InsertStars(EMPTY_TREE.(priority := 1), path, h);
    } else {
      NotEmpty(root);
      WalkStars(root, path, h);
      forall p, g | Has(root, p, g) ensures !Extends(p, path) {
        assert Route(p, g) in routes;
      }
    }
  }

  lemma NextRoute(root: Node, routes: seq<Route>, path: string, h: Handlers)
    requires Holds(root, routes) && routes != [] && Registrable(path) && AddRoute(root, path, h).Success?
    requires !ExtendsSome(routes, path)
    ensures Holds(AddRoute(root, path, h).value, routes + [Route(path, h)])
    ensures forall r | r in routes :: r.pattern != path
  {
    hide IsParam, IsIndexed, Accounted, Walk, Routes;
    var r := AddRoute(root, path, h).value;
    NotEmpty(root);
    AcceptedStars(root, routes, path, h);
    assert AddRoute(root, path, h) == Walk(root, Wilds(path), path, h);
    WalkShape(root, path, h);
    WalkAccounts(root, path, h);
    forall p, g ensures Has(r, p, g) <==> Route(p, g) in routes + [Route(path, h)] {
      WalkHas(root, path, h, p, g);
    }
    forall s | s in routes ensures s.pattern != path {
      assert Has(root, s.pattern, s.handlers);
      WalkFresh(root, path, h, s.handlers);
    }
  }

  /**
   A pattern is accepted exactly if it is well formed and conflicts with none of the registered ones. What the tree
   looks like does not matter.
   */
  lemma Accepted(root: Node, routes: seq<Route>, path: string, h: Handlers)
    requires Holds(root, routes) && Registrable(path) && !ExtendsSome(routes, path)
    ensures AddRoute(root, path, h).Success? <==>
              Sound(path) && forall r | r in routes :: !Conflicts(r.pattern, path)
  {
    hide IsStatic, IsParam, IsIndexed, Accounted, Walk, Routes, Sound, Conflicts, InsertChild;
    if Sound(path) { SoundStarLast(path); }
    if routes == [] {
      InsertSound(EMPTY_TREE.(priority := 1), path, h);
    } else {
      NotEmpty(root);
      if StarLast(path) {
        WalkAccepts(root, path, h);
        if Clash(root, path) {
          var p, g :| Has(root, p, g) && Conflicts(p, path);
          assert Route(p, g) in routes;
        }
        forall r | r in routes && Conflicts(r.pattern, path) ensures Clash(root, path) {
          assert Has(root, r.pattern, r.handlers);
        }
      } else if AddRoute(root, path, h).Success? {
        AcceptedStars(root, routes, path, h);
      }
    }
  }

  lemma NotEmpty(root: Node)
    requires IsStatic(root)
    ensures root.path != "" || root.children != []
  {
  }

  // ---------------------------------------------------------------- a lookup is a scan

  lemma {:induction false} ScanFinds(routes: seq<Route>, path: string, p: string, h: Handlers)
    requires Route(p, h) in routes && Match(p, path).Some?
    ensures Scan(routes, path).Some?
  {
    if Match(routes[0].pattern, path).None? {
      ScanFinds(routes[1..], path, p, h);
    }
  }

  lemma {:induction false} ScanIsMatch(routes: seq<Route>, path: string)
    ensures var f := Scan(routes, path);
            f.Some? ==>
              Route(f.value.pattern, f.value.handlers) in routes && Match(f.value.pattern, path) == Some(f.value.params)
  {
    if routes != [] {
      ScanIsMatch(routes[1..], path);
    }
  }

  /** For every path, the walk down the tree and the scan of the list agree. */
  lemma LookupIsScan(root: Node, routes: seq<Route>, path: string)
    requires Holds(root, routes) && routes != []
    ensures Lookup(root, path) == Scan(routes, path)
  {
    hide IsStatic, IsParam, IsIndexed, Accounted, Match, Scan, Lookup, Routes;
    ScanIsMatch(routes, path);
    NotCatchAll(root);
    LookupSound(root, path);
    var f, s := Lookup(root, path), Scan(routes, path);
    if s.Some? {
      LookupComplete(root, path, s.value.pattern, s.value.handlers);
    } else if f.Some? {
      ScanFinds(routes, path, f.value.pattern, f.value.handlers);
    }
  }

  lemma NotCatchAll(root: Node)
    requires IsStatic(root)
    ensures !IsCatchAll(root) && IsWalkable(root)
  {
  }

  /** No path belongs to two registered routes. */
  lemma RoutesDisjoint(root: Node, routes: seq<Route>, path: string, a: Route, b: Route)
    requires Holds(root, routes) && a in routes && b in routes
    requires Match(a.pattern, path).Some? && Match(b.pattern, path).Some?
    ensures a == b
  {
    AtMostOneMatch(root, path, a.pattern, a.handlers, b.pattern, b.handlers);
  }

  // ---------------------------------------------------------------- the router object

  class Tree {
    var root: Node
    /** What has been registered, in order. */
    ghost var routes: seq<Route>

    constructor ()
      ensures Valid() && routes == []
    {
      root, routes := EMPTY_TREE, [];
    }

    ghost predicate Valid()
      reads this
    {
      Holds(root, routes)
    }

    /** Register a route. A refusal is a panic in the source; the tree is then not used any more. */
    method Add(path: string, h: Handlers) returns (ok: bool)
      requires Valid() && Registrable(path) && !ExtendsSome(routes, path)
      modifies this
      ensures Valid() && (ok <==> Sound(path) && forall r | r in old(routes) :: !Conflicts(r.pattern, path))
      ensures routes == if ok then old(routes) + [Route(path, h)] else old(routes)
      ensures ok ==> forall r | r in old(routes) :: r.pattern != path
    {
      hide IsStatic, IsParam, IsIndexed, Accounted, AddRoute, Walk, Sound, Conflicts;
      var r := AddRoute(root, path, h);
      ok := r.Success?;
      Accepted(root, routes, path, h);
      if ok {
        if routes == [] {
          FirstRoute(path, h);
          assert [] + [Route(path, h)] == [Route(path, h)];
        } else {
          NextRoute(root, routes, path, h);
        }
        root, routes := r.value, routes + [Route(path, h)];
      }
    }

    /**
     The handlers and parameters for a path. The parameters go into a slice of the given capacity,
     which is replaced by a larger, empty one if it is too small for the wildcards ahead.
     */
    method GetValue(path: string, capacity: nat) returns (handlers: Option<Handlers>, params: seq<Binding>)
      requires Valid() && routes != []
      ensures match Scan(routes, path)
              case None => handlers == None
              case Some(f) => handlers == Some(f.handlers) && params == f.params
    {
      hide IsStatic, IsParam, IsIndexed, Accounted, Routes, Wildest, Scan, Match;
      LookupIsScan(root, routes, path);
      NotCatchAll(root);
      handlers, params := Descent(root, path, capacity);
      assert forall ps: seq<Binding> :: [] + ps == ps;
    }
  }

  // ---------------------------------------------------------------- many routes

  /** All patterns are well formed, and no two of them conflict. */
  ghost predicate Free(routes: seq<Route>) {
    && (forall r | r in routes :: Sound(r.pattern))
    && forall i, j | 0 <= i < j < |routes| :: !Conflicts(routes[i].pattern, routes[j].pattern)
  }

  /** Patterns the tree is made for, and none goes on behind a catch-all that comes before it. */
  ghost predicate Orderly(routes: seq<Route>) {
    && (forall r | r in routes :: Registrable(r.pattern))
    && forall i, j | 0 <= i < j < |routes| :: !Extends(routes[i].pattern, routes[j].pattern)
  }

  /** A whole list of routes is accepted exactly if it is free of conflicts. */
  method RegisterAll(routes: seq<Route>) returns (tree: Tree, ok: bool)
    requires Orderly(routes)
    ensures ok <==> Free(routes)
    ensures fresh(tree) && tree.Valid() && (ok ==> tree.routes == routes)
  {
    hide Sound, Conflicts, Extends, Holds;
    tree := new Tree();
    var i := 0;
    while i < |routes|
      invariant i <= |routes| && fresh(tree) && tree.Valid() && tree.routes == routes[..i] && Free(routes[..i])
    {
      assert !ExtendsSome(routes[..i], routes[i].pattern);
      ok := tree.Add(routes[i].pattern, routes[i].handlers);
      OneMoreFree(routes, i);
      if !ok { return; }
      i := i + 1;
    }
    assert routes[..|routes|] == routes;
    ok := true;
  }

  lemma OneMoreFree(routes: seq<Route>, i: nat)
    requires i < |routes| && Free(routes[..i])
    ensures var path := routes[i].pattern;
            Free(routes[..i + 1]) <==> Sound(path) && forall r | r in routes[..i] :: !Conflicts(r.pattern, path)
    ensures routes[..i + 1] == routes[..i] + [routes[i]]
    ensures !Free(routes[..i + 1]) ==> !Free(routes)
  {
    hide Sound, Conflicts;
    var front, next := routes[..i], routes[..i + 1];
    assert next == front + [routes[i]];
    if Free(next) {
      forall r | r in front ensures !Conflicts(r.pattern, routes[i].pattern) {
        var k :| 0 <= k < i && front[k] == r;
        assert next[k] == r && next[i] == routes[i];
      }
    }
    if Sound(routes[i].pattern) && forall r | r in front :: !Conflicts(r.pattern, routes[i].pattern) {
      forall a, b | 0 <= a < b < |next| ensures !Conflicts(next[a].pattern, next[b].pattern) {
        assert next[a] == front[a];
        if b < i { assert next[b] == front[b]; } else { assert front[a] in front; }
      }
    }
    if Free(routes) {
      assert forall k | 0 <= k < |next| :: next[k] == routes[k];
    }
  }

  /** The order of registration does not matter. */
  lemma AnyOrder(a: seq<Route>, b: seq<Route>)
    requires multiset(a) == multiset(b) && Free(a)
    ensures Free(b)
  {
    hide Sound, Conflicts;
    forall r | r in b ensures Sound(r.pattern) {
      assert r in multiset(b);
    }
    forall i, j | 0 <= i < j < |b| ensures !Conflicts(b[i].pattern, b[j].pattern) {
      var k, l := TwoPlaces(a, b, i, j);
      if k > l { ConflictsSymmetric(a[l].pattern, a[k].pattern); }
    }
  }

  lemma Without(s: seq<Route>, k: nat)
    requires k < |s|
    ensures multiset(s[..k] + s[k + 1..]) == multiset(s) - multiset{s[k]}
  {
    assert s == s[..k] + [s[k]] + s[k + 1..];
  }

  lemma FindAgain(s: seq<Route>, r: Route) returns (k: nat)
    requires r in multiset(s)
    ensures k < |s| && s[k] == r
  {
    k :| 0 <= k < |s| && s[k] == r;
  }

  /** Two places of one list, found again in the other. */
  lemma TwoPlaces(a: seq<Route>, b: seq<Route>, i: nat, j: nat) returns (k: nat, l: nat)
    requires multiset(a) == multiset(b) && i < j < |b|
    ensures k < |a| && l < |a| && k != l && a[k] == b[i] && a[l] == b[j]
  {
    k := FindAgain(a, b[i]);
    Without(a, k);
    Without(b, i);
    var others, rest := a[..k] + a[k + 1..], b[..i] + b[i + 1..];
    assert rest[j - 1] == b[j];
    var m := FindAgain(others, b[j]);
    l := if m < k then m else m + 1;
  }

  /** Handlers and parameters of what is found, behind parameters saved before. */
  function Outcome(f: Option<Found>, before: seq<Binding>): Option<(Handlers, seq<Binding>)> {
    match f
    case None => None
    case Some(f) => Some((f.handlers, before + f.params))
  }

  function Answer(handlers: Option<Handlers>, params: seq<Binding>): Option<(Handlers, seq<Binding>)> {
    match handlers
    case None => None
    case Some(h) => Some((h, params))
  }

  lemma OutcomePrepend(path: string, f: Option<Found>, before: seq<Binding>)
    ensures Outcome(Prepend(path, f), before) == Outcome(f, before)
  {
  }

  lemma OutcomeBind(b: Binding, f: Option<Found>, before: seq<Binding>)
    ensures Outcome(Bind(b, f), before) == Outcome(f, before + [b])
  {
    if f.Some? { assert before + ([b] + f.value.params) == (before + [b]) + f.value.params; }
  }

  lemma OutcomeHere(n: Node, params: seq<Binding>, before: seq<Binding>)
    ensures Outcome(HandlersOf(n, params), before) == Answer(n.handlers, before + params)
  {
  }

  /** The parameter count at a wildcard is large enough, and no larger than the one above it. */
  lemma CountsOnTheWay(n: Node, k: nat)
    requires Accounted(n) && k < |n.children|
    ensures var c := n.children[k];
            && Accounted(c) && OwnWild(n) + Wildest(c) <= Wildest(n) && c.maxParams == Wildest(c)
            && (OwnWild(c) == 1 ==> c.maxParams >= 1)
  {
  }

  /** Append to the parameters, within the capacity; a larger slice starts empty. */
  method SaveParam(params: seq<Binding>, cap: int, maxParams: int, b: Binding)
    returns (params': seq<Binding>, cap': int)
    requires params != [] ==> |params| + maxParams <= cap
    requires maxParams >= 1
    ensures params' == params + [b] && |params'| + maxParams - 1 <= cap'
  {
    params', cap' := params, cap;
    if cap' < maxParams {
      params', cap' := [], maxParams;
    }
    assert |params'| < cap';
    params' := params' + [b];
  }

  method FindIndex(indices: string, c: char) returns (i: nat)
    ensures i <= |indices| && IndexOf(indices, c) == if i == |indices| then None else Some(i)
  {
    i := 0;
    while i < |indices| && indices[i] != c
      invariant i <= |indices| && forall k | 0 <= k < i :: indices[k] != c
    {
      i := i + 1;
    }
  }

  method SegmentEnd(path: string) returns (end: nat)
    ensures end == SegmentLength(path)
  {
    end := 0;
    while end < |path| && path[end] != '/'
      invariant end <= |path| && SegmentLength(path) == end + SegmentLength(path[end..])
    {
      end := end + 1;
    }
  }

  /** The loop of `getValue`: down the tree, along the path. */
  method Descent(root: Node, path: string, capacity: nat) returns (handlers: Option<Handlers>, params: seq<Binding>)
    requires IsWalkable(root) && Accounted(root)
    ensures Outcome(Lookup(root, path), []) == Answer(handlers, params)
  {
    hide IsStatic, IsParam, IsIndexed, Accounted, Routes, Wildest, LookupParam, SegmentLength, IndexOf;
    var n, rest, cap: int := root, path, capacity;
    handlers, params := None, [];
    while true
      invariant IsWalkable(n) && Accounted(n)
      invariant params != [] ==> |params| + Wildest(n) <= cap
      invariant Outcome(Lookup(root, path), []) == Outcome(Lookup(n, rest), params)
      decreases n
    {
      Below(n);
      if |rest| <= |n.path| || !(n.path <= rest) {
        OutcomeHere(n, [], params);
        assert params + [] == params;
        if rest == n.path { return n.handlers, params; }
        return None, params;
      }
      var tail := rest[|n.path|..];
      if !n.wildChild {
        var i := FindIndex(n.indices, tail[0]);
        if i == |n.indices| { return None, params; }
        OutcomePrepend(n.path, Lookup(n.children[i], tail), params);
        CountsOnTheWay(n, i);
        n, rest := n.children[i], tail;
      } else {
        var c := n.children[0];
        CountsOnTheWay(n, 0);
        if c.kind.CatchAll? {
          ghost var b := Binding(c.path[2..], tail);
          OutcomePrepend(n.path, HandlersOf(c, [b]), params);
          OutcomeHere(c, [b], params);
          params, cap := SaveParam(params, cap, c.maxParams, Binding(c.path[2..], tail));
          return c.handlers, params;
        }
        OutcomePrepend(n.path, LookupParam(c, tail), params);
        var end := SegmentEnd(tail);
        ParamStep(c, tail, end, params);
        var b := Binding(c.path[1..], tail[..end]);
        params, cap := SaveParam(params, cap, c.maxParams, b);
        if end == |tail| { return c.handlers, params; }
        if |c.children| == 0 { return None, params; }
        CountsOnTheWay(c, 0);
        n, rest := c.children[0], tail[end..];
      }
    }
  }

  lemma ParamStep(c: Node, path: string, end: nat, before: seq<Binding>)
    requires IsParam(c) && end == SegmentLength(path)
    ensures OwnWild(c) == 1 && |c.path| >= 1
    ensures c.children != [] ==> IsWalkable(c.children[0])
    ensures var b := Binding(c.path[1..], path[..end]);
            Outcome(LookupParam(c, path), before) ==
              if end == |path| then Answer(c.handlers, before + [b])
              else if c.children == [] then None
              else Outcome(Lookup(c.children[0], path[end..]), before + [b])
  {
    BelowParam(c);
    var b := Binding(c.path[1..], path[..end]);
    OutcomeHere(c, [b], before);
    if end < |path| && c.children != [] {
      var f := Lookup(c.children[0], path[end..]);
      OutcomePrepend(c.path, f, before + [b]);
      OutcomeBind(b, Prepend(c.path, f), before);
    }
  }

  /** Moving an element up by one more place is a swap with its neighbour. */
  lemma MoveUpStep<T>(s: seq<T>, from: nat, to: nat)
    requires 0 < to <= from < |s|
    ensures var r := MoveUp(s, from, to);
            r[to - 1] == s[to - 1] && r[to] == s[from] && r[to - 1 := r[to]][to := r[to - 1]] == MoveUp(s, from, to - 1)
  {
  }

  lemma FrontStep(cs: seq<Node>, pos: nat, priority: int)
    requires pos <= |cs|
    ensures FrontPosition(cs, pos, priority) ==
            if pos > 0 && cs[pos - 1].priority < priority then FrontPosition(cs, pos - 1, priority) else pos
  {
  }

  lemma MoveUpNone<T>(s: seq<T>, from: nat)
    requires from < |s|
    ensures MoveUp(s, from, from) == s
  {
  }

  /**
   Count one more route at a child and move it in front of the siblings with fewer, in place;
   the index string is rebuilt to match.
   */
  method IncrementChildPrio(children: array<Node>, indices: string, pos: nat) returns (newIndices: string, newPos: nat)
    requires pos < children.Length && |indices| == children.Length
    modifies children
    ensures var cs := old(children[..]);
            var c := cs[pos].(priority := cs[pos].priority + 1);
            newPos == FrontPosition(cs, pos, c.priority) && children[..] == MoveUp(cs[pos := c], pos, newPos)
    ensures newIndices == MoveUp(indices, pos, newPos)
  {
    hide MoveUp, FrontPosition, Source;
    ghost var cs := children[..];
    children[pos] := children[pos].(priority := children[pos].priority + 1);
    var prio := children[pos].priority;
    ghost var bumped := children[..];
    newPos := pos;
    MoveUpNone(bumped, pos);
    while newPos > 0 && children[newPos - 1].priority < prio
      invariant newPos <= pos && FrontPosition(cs, newPos, prio) == FrontPosition(cs, pos, prio)
      invariant children[..] == MoveUp(bumped, pos, newPos)
    {
      MoveUpStep(bumped, pos, newPos);
      FrontStep(cs, newPos, prio);
      assert children[newPos - 1] == children[..][newPos - 1] == cs[newPos - 1];
      SwapArray(children, newPos);
      newPos := newPos - 1;
    }
    FrontStep(cs, newPos, prio);
    if newPos > 0 {
      MoveUpStep(bumped, pos, newPos);
      assert children[newPos - 1] == children[..][newPos - 1] == cs[newPos - 1];
    }
    newIndices := RebuildIndices(indices, pos, newPos);
  }

  method RebuildIndices(indices: string, pos: nat, newPos: nat) returns (r: string)
    requires newPos <= pos < |indices|
    ensures r == MoveUp(indices, pos, newPos)
  {
    r := indices;
    if newPos != pos {
      r := indices[..newPos] + indices[pos..pos + 1] + indices[newPos..pos] + indices[pos + 1..];
    }
  }

  method SwapArray(children: array<Node>, i: nat)
    requires 0 < i < children.Length
    modifies children
    ensures var s := old(children[..]); children[..] == s[i - 1 := s[i]][i := s[i - 1]]
  {
    children[i - 1], children[i] := children[i], children[i - 1];
  }
}
