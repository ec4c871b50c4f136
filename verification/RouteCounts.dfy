/**
 The two numbers kept at every node. The priority is the number of routes registered at or below
 the node, and siblings stand in the order of their priorities. The parameter count is exactly
 the largest number of wildcards on any way down, so a buffer of that size is never too small.
 */
module RouteCounts {
  import opened Wrappers
  import opened RoutePatterns
  import opened RouteTree
  import opened RouteInsert
  import opened RouteContents

  function Routes(n: Node): nat {
    (if n.handlers.Some? then 1 else 0) + RoutesOf(n.children)
  }

  function RoutesOf(cs: seq<Node>): nat {
    if cs == [] then 0 else Routes(cs[0]) + RoutesOf(cs[1..])
  }

  function OwnWild(n: Node): nat {
    if n.kind.Param? || (n.kind.CatchAll? && !n.wildChild) then 1 else 0
  }

  function Wildest(n: Node): nat {
    OwnWild(n) + WildestOf(n.children)
  }

  function WildestOf(cs: seq<Node>): (w: nat)
    ensures forall i | 0 <= i < |cs| :: Wildest(cs[i]) <= w
  {
    if cs == [] then 0 else Max(Wildest(cs[0]), WildestOf(cs[1..]))
  }

  predicate Ordered(cs: seq<Node>) {
    forall i, j | 0 <= i < j < |cs| :: cs[i].priority >= cs[j].priority
  }

  /** All counts below `n` are right, and children stand in order. */
  predicate CountsBelow(n: Node)
    decreases n, 0
  {
    && (forall i | 0 <= i < |n.children| :: Accounted(n.children[i]) && !n.children[i].kind.Root?)
    && (!n.wildChild ==> Ordered(n.children))
  }

  /** ... and so are those of `n` itself, which has some route; the root's parameter count is not used. */
  predicate Accounted(n: Node)
    decreases n, 1
  {
    n.priority == Routes(n) >= 1 && (n.kind.Root? || n.maxParams == Wildest(n)) && CountsBelow(n)
  }

  // ---------------------------------------------------------------- lists of children

  lemma {:induction false} ListAppend(a: seq<Node>, b: seq<Node>)
    ensures RoutesOf(a + b) == RoutesOf(a) + RoutesOf(b)
    ensures WildestOf(a + b) == Max(WildestOf(a), WildestOf(b))
  {
    if a == [] {
      assert a + b == b;
    } else {
      ListAppend(a[1..], b);
      assert (a + b)[0] == a[0] && (a + b)[1..] == a[1..] + b;
    }
  }

  lemma ListOne(c: Node)
    ensures RoutesOf([c]) == Routes(c) && WildestOf([c]) == Wildest(c)
  {
  }

  lemma ListNone()
    ensures RoutesOf([]) == 0 && WildestOf([]) == 0
  {
  }

  lemma ListMoveUp(cs: seq<Node>, k: nat, to: nat)
    requires to <= k < |cs|
    ensures RoutesOf(MoveUp(cs, k, to)) == RoutesOf(cs) && WildestOf(MoveUp(cs, k, to)) == WildestOf(cs)
  {
    hide RoutesOf, WildestOf;
    var a, b, c, d := cs[..to], cs[to..k], [cs[k]], cs[k + 1..];
    MoveUpParts(cs, k, to);
    ListAppend(a, b + (c + d));
    ListAppend(b, c + d);
    ListAppend(c, d);
    ListAppend(a, c + (b + d));
    ListAppend(c, b + d);
    ListAppend(b, d);
  }

  lemma ListReplace(cs: seq<Node>, k: nat, d: Node)
    requires k < |cs| && Routes(d) == Routes(cs[k]) + 1 && Wildest(d) >= Wildest(cs[k])
    ensures RoutesOf(cs[k := d]) == RoutesOf(cs) + 1 && WildestOf(cs[k := d]) == Max(WildestOf(cs), Wildest(d))
  {
    hide RoutesOf, WildestOf;
    var a, b := cs[..k], cs[k + 1..];
    assert cs == a + ([cs[k]] + b) && cs[k := d] == a + ([d] + b);
    ListAppend(a, [cs[k]] + b);
    ListAppend([cs[k]], b);
    ListAppend(a, [d] + b);
    ListAppend([d], b);
    ListOne(cs[k]);
    ListOne(d);
  }

  lemma {:induction false} MaxOverIsWildest(cs: seq<Node>)
    requires forall i | 0 <= i < |cs| :: Accounted(cs[i]) && !cs[i].kind.Root?
    ensures MaxOver(cs) == WildestOf(cs)
  {
    if cs != [] { MaxOverIsWildest(cs[1..]); }
  }

  // ---------------------------------------------------------------- new nodes

  lemma {:induction false} InsertAccounts(n: Node, path: string, h: Handlers)
    requires n.children == [] && n.handlers.None? && n.priority == 1 && !n.wildChild && (n.kind.Static? || n.kind.Root?)
    requires path != "" && !IsWild(path[0])
    ensures var r := InsertChild(n, Wilds(path), path, h);
            r.Success? ==>
              && Routes(r.value) == 1 && Wildest(r.value) == Wilds(path) && CountsBelow(r.value)
              && r.value.priority == 1 && r.value.maxParams == n.maxParams && r.value.kind == n.kind
    decreases |path|, 1
  {
    hide ParamChild;
    var r := InsertChild(n, Wilds(path), path, h);
    if r.Success? && Wilds(path) > 0 {
      var i := FirstWild(path);
      WildsAfterStatic(path, i);
      var c := r.value.children[0];
      ListOne(c);
      assert r.value.children == [c];
      if path[i] == ':' {
        ParamAccounts(path[i..], h);
        assert path[i..][1..SegmentLength(path[i..])] == path[i + 1..i + SegmentLength(path[i..])];
      } else {
        assert path[i..][1..] == path[i + 1..i + SegmentLength(path[i..])];
        WildsOne(path[i..]);
        CatchAllAccounts(c);
      }
    }
  }

  lemma CatchAllAccounts(c: Node)
    requires c.kind.CatchAll? && c.wildChild && c.maxParams == 1 && c.priority == 1 && c.handlers.None?
    requires |c.children| == 1
    requires var d := c.children[0];
             && d.kind.CatchAll? && !d.wildChild && d.maxParams == 1 && d.priority == 1
             && d.handlers.Some? && d.children == []
    ensures Accounted(c) && Routes(c) == 1 && Wildest(c) == 1
  {
    var d := c.children[0];
    ListOne(d);
    assert c.children == [d] && Accounted(d);
  }

  lemma WildsOne(path: string)
    requires path != "" && IsWild(path[0]) && NoWild(path[1..])
    ensures Wilds(path) == 1
  {
    WildsNone(path[1..]);
  }

  lemma {:induction false} ParamAccounts(path: string, h: Handlers)
    requires path != "" && path[0] == ':'
    ensures var length := SegmentLength(path);
            var r := ParamChild(Wilds(path), path, length, h);
            r.Success? && NoWild(path[1..length]) ==>
              Accounted(r.value) && Routes(r.value) == 1 && Wildest(r.value) == Wilds(path) && r.value.kind.Param?
    decreases |path|, 0
  {
    var length := SegmentLength(path);
    var r := ParamChild(Wilds(path), path, length, h);
    if r.Success? && NoWild(path[1..length]) {
      WildsAfterParam(path, length);
      if length < |path| {
        InsertAccounts(NewNode(Wilds(path) - 1, 1), path[length..], h);
        var c := r.value.children[0];
        ListOne(c);
        assert r.value.children == [c] && Accounted(c);
      }
    }
  }

  // ---------------------------------------------------------------- the walk

  lemma OrderedPair(cs: seq<Node>, a: nat, b: nat)
    requires Ordered(cs) && a <= b < |cs|
    ensures cs[a].priority >= cs[b].priority
  {
  }

  lemma OrderedMoveUp(cs: seq<Node>, k: nat, d: Node)
    requires k < |cs| && Ordered(cs) && d.priority == cs[k].priority + 1
    ensures Ordered(MoveUp(cs[k := d], k, FrontPosition(cs, k, d.priority)))
  {
    var to := FrontPosition(cs, k, d.priority);
    var ds := MoveUp(cs[k := d], k, to);
    forall i, j | 0 <= i < j < |ds| ensures ds[i].priority >= ds[j].priority {
      MovedPair(cs, k, d, i, j);
    }
  }

  lemma MovedPair(cs: seq<Node>, k: nat, d: Node, i: nat, j: nat)
    requires k < |cs| && Ordered(cs) && d.priority == cs[k].priority + 1 && i < j < |cs|
    ensures var ds := MoveUp(cs[k := d], k, FrontPosition(cs, k, d.priority)); ds[i].priority >= ds[j].priority
  {
    hide Ordered, MoveUp, FrontPosition;
    var to := FrontPosition(cs, k, d.priority);
    var a, b := Source(i, k, to), Source(j, k, to);
    if i == to {
      OrderedPair(cs, if b < k then b else k, b);
    } else if j == to {
      OrderedPair(cs, i, to - 1);
    } else {
      OrderedPair(cs, a, b);
    }
  }

  lemma OrderedAppend(cs: seq<Node>, c: Node)
    requires Ordered(cs) && c.priority == 1
    ensures Ordered(MoveUp(cs + [c], |cs|, FrontPosition(cs, |cs|, 1)))
  {
    var to := FrontPosition(cs, |cs|, 1);
    var ds := MoveUp(cs + [c], |cs|, to);
    forall i, j | 0 <= i < j < |ds| ensures ds[i].priority >= ds[j].priority {
      AppendedPair(cs, c, i, j);
    }
  }

  lemma AppendedPair(cs: seq<Node>, c: Node, i: nat, j: nat)
    requires Ordered(cs) && c.priority == 1 && i < j <= |cs|
    ensures var ds := MoveUp(cs + [c], |cs|, FrontPosition(cs, |cs|, 1)); ds[i].priority >= ds[j].priority
  {
    hide Ordered, MoveUp, FrontPosition;
    var to := FrontPosition(cs, |cs|, 1);
    var a, b := Source(i, |cs|, to), Source(j, |cs|, to);
    if i == to {
    } else if j == to {
      OrderedPair(cs, i, to - 1);
    } else {
      OrderedPair(cs, a, b);
    }
  }

  /** A new child; `n` has been counted up already. */
  lemma AddChildAccounts(n: Node, path: string, h: Handlers)
    requires path != "" && !n.wildChild && !n.kind.CatchAll? && CountsBelow(n) && n.priority == Routes(n) + 1
    ensures var r := AddChild(n, Wilds(path), path, h);
            r.Success? ==>
              && CountsBelow(r.value) && r.value.priority == Routes(r.value) && Routes(r.value) == Routes(n) + 1
              && Wildest(r.value) == Max(Wildest(n), OwnWild(n) + Wilds(path))
              && r.value.maxParams == n.maxParams && r.value.kind == n.kind
  {
    hide Ordered, RoutesOf, WildestOf, ParamChild;
    ListNone();
    var r := AddChild(n, Wilds(path), path, h);
    if r.Success? {
      if IsWild(path[0]) {
        assert FirstWild(path) == 0 && path[0..] == path;
        assert path[1..SegmentLength(path)] == path[0 + 1..0 + SegmentLength(path)];
        ParamAccounts(path, h);
        ListOne(r.value.children[0]);
        assert r.value.children == [r.value.children[0]];
      } else {
        InsertAccounts(NewNode(Wilds(path), 1), path, h);
        var c := InsertChild(NewNode(Wilds(path), 1), Wilds(path), path, h).value;
        NewChildAccounts(n.children, c);
      }
    }
  }

  lemma NewChildAccounts(cs: seq<Node>, c: Node)
    requires Ordered(cs) && Accounted(c) && c.priority == 1 && !c.kind.Root?
    requires forall i | 0 <= i < |cs| :: Accounted(cs[i]) && !cs[i].kind.Root?
    ensures var ds := MoveUp(cs + [c], |cs|, FrontPosition(cs, |cs|, 1));
            && RoutesOf(ds) == RoutesOf(cs) + 1 && WildestOf(ds) == Max(WildestOf(cs), Wildest(c))
            && Ordered(ds) && forall i | 0 <= i < |ds| :: Accounted(ds[i]) && !ds[i].kind.Root?
  {
    hide Accounted;
    var to := FrontPosition(cs, |cs|, 1);
    var ds := MoveUp(cs + [c], |cs|, to);
    OrderedAppend(cs, c);
    ListMoveUp(cs + [c], |cs|, to);
    ListAppend(cs, [c]);
    ListOne(c);
    IsCounted(c);
    forall i | 0 <= i < |ds| ensures Accounted(ds[i]) && !ds[i].kind.Root? {
      assert ds[i] == (cs + [c])[Source(i, |cs|, to)];
    }
  }

  lemma IsCounted(n: Node)
    requires Accounted(n)
    ensures n.priority == Routes(n)
  {
  }

  lemma {:induction false} WalkAccounts(n: Node, path: string, h: Handlers)
    requires (IsStatic(n) || IsParam(n)) && Leads(n, path) && StarLast(path) && Accounted(n)
    ensures var r := Walk(n, Wilds(path), path, h);
            r.Success? ==>
              && Accounted(r.value) && Routes(r.value) == Routes(n) + 1
              && Wildest(r.value) == Max(Wildest(n), Wilds(path)) && r.value.kind == n.kind
    decreases n, 1
  {
    hide AddChild, Descend, CountsBelow, IsStatic, IsParam, Routes, Wildest;
    var r := Walk(n, Wilds(path), path, h);
    var m := n.(priority := n.priority + 1, maxParams := Max(n.maxParams, Wilds(path)));
    var i := CommonPrefix(path, n.path);
    StaticOrParam(n);
    if n.kind.Param? { CommonWhole(n.path, path); }
    if r.Failure? {
    } else if i < |n.path| {
      SplitAccounts(n, i);
      var top := Split(n, i).(priority := m.priority, maxParams := m.maxParams);
      Recounted(Split(n, i), top);
      if i < |path| {
        WildsAfterStatic(path, i);
        AddChildAccounts(top, path[i..], h);
      } else {
        assert path == n.path[..i] && NoWild(path);
        WildsNone(path);
        GainsHandlers(top, h);
      }
    } else if i < |path| {
      assert path == n.path + path[i..];
      StarLastTail(path, i);
      Recounted(n, m);
      DescendAccounts(n, m, path, path[i..], h);
    } else {
      assert path == n.path + "";
      BelowWilds(n, path, "");
      Recounted(n, m);
      GainsHandlers(m, h);
    }
  }

  lemma StaticOrParam(n: Node)
    requires IsStatic(n) || IsParam(n)
    ensures !n.kind.CatchAll? && (n.kind.Param? <==> IsParam(n)) && (!n.kind.Param? ==> IsStatic(n) && NoWild(n.path))
    ensures n.wildChild || n.kind.Param? ==> |n.children| <= 1
    ensures OwnWild(n) == if n.kind.Param? then 1 else 0
  {
  }

  /** Priority and parameter count of a node play no part in the counts below it. */
  lemma Recounted(n: Node, m: Node)
    requires m == n.(priority := m.priority, maxParams := m.maxParams)
    ensures Routes(m) == Routes(n) && Wildest(m) == Wildest(n) && (CountsBelow(m) <==> CountsBelow(n))
    ensures OwnWild(m) == OwnWild(n)
    ensures OwnWild(n) <= Wildest(n)
  {
  }

  lemma GainsHandlers(n: Node, h: Handlers)
    requires n.handlers.None?
    ensures var r := n.(handlers := Some(h));
            Routes(r) == Routes(n) + 1 && Wildest(r) == Wildest(n) && (CountsBelow(r) <==> CountsBelow(n))
  {
  }

  lemma {:induction false} DescendAccounts(n: Node, m: Node, path: string, rest: string, h: Handlers)
    requires (IsStatic(n) || IsParam(n)) && Leads(n, path) && StarLast(rest) && Accounted(n)
    requires path == n.path + rest && rest != ""
    requires m == n.(priority := n.priority + 1, maxParams := m.maxParams)
    ensures var r := Descend(n, m, Wilds(path), rest, h);
            r.Success? ==>
              && CountsBelow(r.value) && r.value.priority == Routes(r.value) == Routes(n) + 1
              && Wildest(r.value) == Max(Wildest(n), Wilds(path)) && r.value.kind == n.kind
              && r.value.maxParams == m.maxParams
    decreases n, 0
  {
    hide AddChild, Descend, Walk, CountsBelow, IsStatic, IsParam, Routes, Wildest, Target, Next, StarLast, Wilds;
    StaticOrParam(n);
    Recounted(n, m);
    DescendTo(n, m, path, rest, h);
    BelowWilds(n, path, rest);
    var k := Next(n, rest);
    if k.None? {
      AddChildAccounts(m, rest, h);
    } else if Descend(n, m, Wilds(path), rest, h).Success? {
      var c := n.children[k.value];
      ChildAccounted(n, k.value);
      WalkAccounts(c, rest, h);
      ReplaceAccounts(n, m, k.value, Walk(c, Wilds(rest), rest, h));
    }
  }

  lemma ChildAccounted(n: Node, k: nat)
    requires Accounted(n) && k < |n.children|
    ensures Accounted(n.children[k]) && !n.children[k].kind.Root? && OwnWild(n) + Wildest(n.children[k]) <= Wildest(n)
  {
  }

  lemma OrderedOne(cs: seq<Node>)
    requires |cs| == 1
    ensures Ordered(cs)
  {
  }

  lemma SplitAccounts(n: Node, i: nat)
    requires Accounted(n) && i < |n.path| && !n.kind.Param? && !n.kind.CatchAll?
    ensures var s := Split(n, i); CountsBelow(s) && Routes(s) == Routes(n) && Wildest(s) == Wildest(n)
  {
    var lower := LowerHalf(n, i);
    MaxOverIsWildest(n.children);
    ListOne(lower);
    assert Accounted(lower);
  }

  lemma ReplaceAccounts(n: Node, m: Node, k: nat, d: Result<Node>)
    requires Accounted(n) && m == n.(priority := m.priority, maxParams := m.maxParams) && k < |n.children|
    requires n.wildChild || n.kind.Param? ==> |n.children| == 1
    requires d.Success? ==> Accounted(d.value) && Routes(d.value) == Routes(n.children[k]) + 1
                            && Wildest(d.value) >= Wildest(n.children[k]) && !d.value.kind.Root?
    ensures var r := Replace(m, k, Target(n, k), d);
            r.Success? ==>
              && CountsBelow(r.value) && Routes(r.value) == Routes(n) + 1 && r.value.kind == n.kind
              && r.value.priority == m.priority && r.value.maxParams == m.maxParams
              && Wildest(r.value) == Max(Wildest(n), OwnWild(n) + Wildest(d.value))
  {
    hide Ordered, RoutesOf, WildestOf, Accounted, CountsBelow, Target;
    if d.Success? {
      ReplacedList(n, k, d.value);
      WithChildren(m, Replace(m, k, Target(n, k), d).value);
    }
  }

  lemma ReplacedList(n: Node, k: nat, d: Node)
    requires Accounted(n) && k < |n.children| && (n.wildChild || n.kind.Param? ==> |n.children| == 1)
    requires Accounted(d) && Routes(d) == Routes(n.children[k]) + 1 && Wildest(d) >= Wildest(n.children[k])
    requires !d.kind.Root?
    ensures var ds := MoveUp(n.children[k := d], k, Target(n, k));
            && RoutesOf(ds) == RoutesOf(n.children) + 1 && WildestOf(ds) == Max(WildestOf(n.children), Wildest(d))
            && Ordered(ds) && forall i | 0 <= i < |ds| :: Accounted(ds[i]) && !ds[i].kind.Root?
  {
    hide Ordered, RoutesOf, WildestOf, Accounted, Routes, Wildest;
    var to := Target(n, k);
    ChildAccounted(n, k);
    IsCounted(d);
    IsCounted(n.children[k]);
    ListReplace(n.children, k, d);
    ListMoveUp(n.children[k := d], k, to);
    ReplacedChildren(n, k, to, d);
    if !n.wildChild && !n.kind.Param? {
      OrderedMoveUp(n.children, k, d);
    } else {
      OrderedOne(MoveUp(n.children[k := d], k, to));
    }
  }

  lemma WithChildren(m: Node, r: Node)
    requires r == m.(children := r.children, indices := r.indices)
    requires (forall i | 0 <= i < |r.children| :: Accounted(r.children[i]) && !r.children[i].kind.Root?)
    requires Ordered(r.children)
    ensures CountsBelow(r)
  {
  }

  lemma ReplacedChildren(n: Node, k: nat, to: nat, d: Node)
    requires Accounted(n) && to <= k < |n.children| && Accounted(d) && !d.kind.Root?
    ensures var ds := MoveUp(n.children[k := d], k, to);
            forall i | 0 <= i < |ds| :: Accounted(ds[i]) && !ds[i].kind.Root?
    ensures !n.wildChild ==> Ordered(n.children)
  {
  }
}
