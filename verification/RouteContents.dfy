/**
 What registering a route does to the contents of the tree: it adds that route, which was not
 there before, and keeps all others, through every split edge and every reordering of children.
 */
module RouteContents {
  import opened Wrappers
  import opened RoutePatterns
  import opened RouteTree
  import opened RouteInsert

  ghost predicate AnyHas(cs: seq<Node>, p: string, g: Handlers) {
    exists i :: 0 <= i < |cs| && Has(cs[i], p, g)
  }

  lemma HasNode(n: Node, p: string, g: Handlers)
    ensures Has(n, p, g) <==>
              n.path <= p && ((p == n.path && n.handlers == Some(g)) || AnyHas(n.children, p[|n.path|..], g))
  {
  }

  lemma AnyMoveUp(cs: seq<Node>, k: nat, to: nat, p: string, g: Handlers)
    requires to <= k < |cs|
    ensures AnyHas(MoveUp(cs, k, to), p, g) <==> AnyHas(cs, p, g)
  {
    var ds := MoveUp(cs, k, to);
    if AnyHas(cs, p, g) {
      var j :| 0 <= j < |cs| && Has(cs[j], p, g);
      var i := if j < to || j > k then j else if j == k then to else j + 1;
      assert Source(i, k, to) == j && Has(ds[i], p, g);
    }
    if AnyHas(ds, p, g) {
      var i :| 0 <= i < |ds| && Has(ds[i], p, g);
      assert Has(cs[Source(i, k, to)], p, g);
    }
  }

  /** A child that gained one route. */
  lemma AnyReplace(cs: seq<Node>, k: nat, to: nat, d: Node, p: string, g: Handlers, gained: bool)
    requires to <= k < |cs| && (Has(d, p, g) <==> Has(cs[k], p, g) || gained)
    ensures AnyHas(MoveUp(cs[k := d], k, to), p, g) <==> AnyHas(cs, p, g) || gained
  {
    var ds := cs[k := d];
    AnyMoveUp(ds, k, to, p, g);
    if AnyHas(cs, p, g) {
      var i :| 0 <= i < |cs| && Has(cs[i], p, g);
      assert Has(ds[i], p, g);
    }
    if gained { assert Has(ds[k], p, g); }
    if AnyHas(ds, p, g) {
      var i :| 0 <= i < |ds| && Has(ds[i], p, g);
      assert i != k ==> Has(cs[i], p, g);
    }
  }

  lemma AnyAppend(cs: seq<Node>, to: nat, c: Node, p: string, g: Handlers)
    requires to <= |cs|
    ensures AnyHas(MoveUp(cs + [c], |cs|, to), p, g) <==> AnyHas(cs, p, g) || Has(c, p, g)
  {
    var ds := cs + [c];
    AnyMoveUp(ds, |cs|, to, p, g);
    if AnyHas(cs, p, g) {
      var i :| 0 <= i < |cs| && Has(cs[i], p, g);
      assert Has(ds[i], p, g);
    }
    if Has(c, p, g) { assert Has(ds[|cs|], p, g); }
    if AnyHas(ds, p, g) {
      var i :| 0 <= i < |ds| && Has(ds[i], p, g);
      assert i < |cs| ==> Has(cs[i], p, g);
    }
  }

  lemma AnyOne(c: Node, p: string, g: Handlers)
    ensures AnyHas([c], p, g) <==> Has(c, p, g)
  {
    if Has(c, p, g) { assert Has([c][0], p, g); }
  }

  // ---------------------------------------------------------------- new nodes hold one route

  lemma {:induction false} InsertHas(n: Node, path: string, h: Handlers, p: string, g: Handlers)
    requires n.path == "" && n.children == [] && n.handlers.None? && path != "" && !IsWild(path[0])
    ensures var r := InsertChild(n, Wilds(path), path, h); r.Success? ==> (Has(r.value, p, g) <==> p == path && g == h)
    decreases |path|, 1
  {
    hide ParamChild;
    var r := InsertChild(n, Wilds(path), path, h);
    if r.Success? {
      if Wilds(path) == 0 {
        HasNode(r.value, p, g);
      } else {
        var i := FirstWild(path);
        WildsAfterStatic(path, i);
        var c := r.value.children[0];
        if path[i] == ':' {
          var rest := if i <= |p| then p[i..] else "";
          ParamHas(path[i..], h, rest, g);
          assert path[i..][1..SegmentLength(path[i..])] == path[i + 1..i + SegmentLength(path[i..])];
          OnlyChildHas(r.value, path, i, h, p, g);
        } else {
          CatchAllHas(c, path[i - 1..], h, if i - 1 <= |p| then p[i - 1..] else "", g);
          OnlyChildHas(r.value, path, i - 1, h, p, g);
        }
      }
    }
  }

  /** A node whose only child holds only the rest of `path`. */
  lemma OnlyChildHas(n: Node, path: string, i: nat, h: Handlers, p: string, g: Handlers)
    requires i <= |path| && n.path == path[..i] && n.handlers.None? && |n.children| == 1
    requires i <= |p| ==> (Has(n.children[0], p[i..], g) <==> p[i..] == path[i..] && g == h)
    ensures Has(n, p, g) <==> p == path && g == h
  {
  }

  lemma CatchAllHas(c: Node, path: string, h: Handlers, p: string, g: Handlers)
    requires c.path == "" && c.handlers.None? && |c.children| == 1
    requires var leaf := c.children[0]; leaf.path == path && leaf.children == [] && leaf.handlers == Some(h)
    ensures Has(c, p, g) <==> p == path && g == h
  {
  }

  lemma Joined(path: string, i: nat, p: string)
    requires i <= |path|
    ensures path[..i] <= p ==> (p[i..] == path[i..] <==> p == path)
    ensures p == path ==> path[..i] <= p
  {
  }

  lemma {:induction false} ParamHas(path: string, h: Handlers, p: string, g: Handlers)
    requires path != "" && path[0] == ':'
    ensures var length := SegmentLength(path);
            var r := ParamChild(Wilds(path), path, length, h);
            r.Success? && NoWild(path[1..length]) ==> (Has(r.value, p, g) <==> p == path && g == h)
    decreases |path|, 0
  {
    var length := SegmentLength(path);
    var r := ParamChild(Wilds(path), path, length, h);
    if r.Success? && NoWild(path[1..length]) {
      HasNode(r.value, p, g);
      WildsAfterParam(path, length);
      Joined(path, length, p);
      if length < |path| {
        var rest := if length <= |p| then p[length..] else "";
        InsertHas(NewNode(Wilds(path) - 1, 1), path[length..], h, rest, g);
        AnyOne(r.value.children[0], rest, g);
      }
    }
  }

  // ---------------------------------------------------------------- the walk adds one route

  lemma SplitHas(n: Node, i: nat, p: string, g: Handlers)
    requires i < |n.path|
    ensures Has(Split(n, i), p, g) <==> Has(n, p, g)
  {
    var lower := LowerHalf(n, i);
    HasNode(n, p, g);
    HasNode(Split(n, i), p, g);
    if n.path[..i] <= p {
      AnyOne(lower, p[i..], g);
      HasNode(lower, p[i..], g);
      Joined(n.path, i, p);
      assert n.path[i..] <= p[i..] <==> n.path <= p by {
        if n.path[i..] <= p[i..] { assert p == p[..i] + p[i..]; assert n.path == n.path[..i] + n.path[i..]; }
      }
      if n.path <= p { assert p[i..][|n.path| - i..] == p[|n.path|..]; }
    }
  }

  lemma AddChildHas(n: Node, path: string, h: Handlers, p: string, g: Handlers)
    requires !n.wildChild && path != ""
    ensures var r := AddChild(n, Wilds(path), path, h);
            r.Success? ==> (Has(r.value, p, g) <==> Has(n, p, g) || (p == n.path + path && g == h))
  {
    var r := AddChild(n, Wilds(path), path, h);
    if r.Success? {
      HasNode(n, p, g);
      HasNode(r.value, p, g);
      var whole := n.path + path;
      assert whole[|n.path|..] == path && whole[..|n.path|] == n.path;
      Joined(whole, |n.path|, p);
      var rest := if |n.path| <= |p| then p[|n.path|..] else "";
      if IsWild(path[0]) {
        assert FirstWild(path) == 0 && path[0..] == path;
        assert path[1..SegmentLength(path)] == path[0 + 1..0 + SegmentLength(path)];
        ParamHas(path, h, rest, g);
        AnyOne(r.value.children[0], rest, g);
      } else {
        InsertHas(NewNode(Wilds(path), 1), path, h, rest, g);
        var c := InsertChild(NewNode(Wilds(path), 1), Wilds(path), path, h).value;
        AnyAppend(n.children, FrontPosition(n.children, |n.children|, 1), c, rest, g);
      }
    }
  }

  lemma {:induction false} WalkHas(n: Node, path: string, h: Handlers, p: string, g: Handlers)
    requires (IsStatic(n) || IsParam(n)) && Leads(n, path) && StarLast(path)
    ensures var r := Walk(n, Wilds(path), path, h);
            r.Success? ==> (Has(r.value, p, g) <==> Has(n, p, g) || (p == path && g == h))
    decreases n, 1
  {
    hide AddChild, InsertChild;
    var r := Walk(n, Wilds(path), path, h);
    var m := n.(priority := n.priority + 1, maxParams := Max(n.maxParams, Wilds(path)));
    var i := CommonPrefix(path, n.path);
    if n.kind.Param? { CommonWhole(n.path, path); }
    if r.Failure? {
    } else if i < |n.path| {
      SplitHas(n, i, p, g);
      var top := Split(n, i).(priority := m.priority, maxParams := m.maxParams);
      HasNode(top, p, g);
      HasNode(Split(n, i), p, g);
      if i < |path| {
        WildsAfterStatic(path, i);
        AddChildHas(top, path[i..], h, p, g);
        assert path[..i] + path[i..] == path;
      } else {
        HasNode(r.value, p, g);
      }
    } else if i < |path| {
      assert n.path + path[i..] == path;
      StarLastTail(path, i);
      DescendHas(n, m, path, path[i..], h, p, g);
    } else {
      HasNode(n, p, g);
      HasNode(r.value, p, g);
    }
  }

  lemma {:induction false} DescendHas(n: Node, m: Node, path: string, rest: string, h: Handlers, p: string, g: Handlers)
    requires (IsStatic(n) || IsParam(n)) && Leads(n, path) && StarLast(rest)
    requires path == n.path + rest && rest != ""
    requires m == n.(priority := m.priority, maxParams := m.maxParams)
    ensures var r := Descend(n, m, Wilds(path), rest, h);
            r.Success? ==> (Has(r.value, p, g) <==> Has(n, p, g) || (p == path && g == h))
    decreases n, 0
  {
    hide AddChild, Walk, Descend, IsStatic, IsIndexed, IsParam;
    DescendTo(n, m, path, rest, h);
    var r := Descend(n, m, Wilds(path), rest, h);
    var k := Next(n, rest);
    if r.Failure? {
    } else if k.None? {
      HasNode(n, p, g);
      HasNode(m, p, g);
      AddChildHas(m, rest, h, p, g);
    } else {
      var c := n.children[k.value];
      var q := if |n.path| <= |p| then p[|n.path|..] else "";
      WalkHas(c, rest, h, q, g);
      HasNode(n, p, g);
      HasNode(r.value, p, g);
      assert path[..|n.path|] == n.path && path[|n.path|..] == rest;
      Joined(path, |n.path|, p);
      AnyReplace(n.children, k.value, Target(n, k.value), Walk(c, Wilds(rest), rest, h).value, q, g,
                 q == rest && g == h);
    }
  }

  // ---------------------------------------------------------------- which way the walk turns

  /** That child is there and can be walked, unless the route is refused. */
  lemma Turn(n: Node, rest: string, h: Handlers)
    requires (IsStatic(n) || IsParam(n)) && rest != "" && StarLast(rest) && (n.kind.Param? ==> rest[0] == '/')
    ensures !n.kind.CatchAll?
    ensures Next(n, rest).Some? ==> Next(n, rest).value < |n.children|
    ensures Next(n, rest).Some? ==>
              var c := n.children[Next(n, rest).value];
              || IsCatchAll(c)
              || (n.wildChild && !Agrees(c, rest))
              || ((IsStatic(c) || IsParam(c)) && Leads(c, rest))
    ensures Next(n, rest).Some? && IsCatchAll(n.children[Next(n, rest).value]) ==>
              Walk(n.children[Next(n, rest).value], Wilds(rest), rest, h).Failure?
  {
    if IsParam(n) { BelowParam(n); } else { Below(n); }
    var k := Next(n, rest);
    if k.Some? {
      var c := n.children[k.value];
      if IsCatchAll(c) { CatchAllRefuses(c, rest, h); }
    }
  }

  /** A step down either adds a child here, or replaces one child by what the walk makes of it. */
  lemma DescendTo(n: Node, m: Node, path: string, rest: string, h: Handlers)
    requires (IsStatic(n) || IsParam(n)) && Leads(n, path) && StarLast(rest)
    requires path == n.path + rest && rest != ""
    requires m == n.(priority := m.priority, maxParams := m.maxParams)
    ensures Next(n, rest).None? ==> !n.wildChild
    ensures Next(n, rest).None? ==> Descend(n, m, Wilds(path), rest, h) == AddChild(m, Wilds(rest), rest, h)
    ensures Next(n, rest).Some? ==> Next(n, rest).value < |n.children|
    ensures var r := Descend(n, m, Wilds(path), rest, h);
            r.Success? && Next(n, rest).Some? ==>
              var k := Next(n, rest).value;
              var c := n.children[k];
              && (IsStatic(c) || IsParam(c)) && Leads(c, rest)
              && r == Replace(m, k, Target(n, k), Walk(c, Wilds(rest), rest, h))
  {
    hide AddChild, Walk, Replace, IsStatic, IsIndexed, IsParam;
    NodesBelow(n);
    BelowWilds(n, path, rest);
    Turn(n, rest, h);
    ReplaceFails(m);
  }

  lemma ReplaceFails(m: Node)
    ensures forall k: nat, to: nat, c: Result<Node> :: to <= k < |m.children| && c.Failure? ==>
              Replace(m, k, to, c).Failure?
  {
  }

  // ---------------------------------------------------------------- no route is added twice

  /** Only the child that the walk turns to can hold a route with this rest. */
  lemma OnlyNext(n: Node, rest: string, g: Handlers, i: nat)
    requires (IsStatic(n) || IsParam(n)) && i < |n.children| && Has(n.children[i], rest, g)
    ensures rest != "" && Next(n, rest) == Some(i)
  {
    if IsParam(n) {
      BelowParam(n);
      HasStart(n.children[i], '/', rest, g);
    } else if n.wildChild {
      Below(n);
      ParamStart(n.children[0], rest, g);
    } else {
      Below(n);
      HasStart(n.children[i], n.indices[i], rest, g);
    }
  }

  lemma {:induction false} WalkFresh(n: Node, path: string, h: Handlers, g: Handlers)
    requires (IsStatic(n) || IsParam(n)) && Leads(n, path) && StarLast(path)
    requires Walk(n, Wilds(path), path, h).Success?
    ensures !Has(n, path, g)
    decreases n
  {
    hide AddChild, InsertChild, Descend, IsStatic, IsParam;
    if Has(n, path, g) {
      HasNode(n, path, g);
      CommonWhole(n.path, path);
      var rest := path[|n.path|..];
      if n.handlers == Some(g) && rest == "" {
        assert false;
      }
      var i :| 0 <= i < |n.children| && Has(n.children[i], rest, g);
      OnlyNext(n, rest, g, i);
      var m := n.(priority := n.priority + 1, maxParams := Max(n.maxParams, Wilds(path)));
      assert path == n.path + rest;
      StarLastTail(path, |n.path|);
      DescendTo(n, m, path, rest, h);
      WalkFresh(n.children[i], rest, h, g);
    }
  }
}
