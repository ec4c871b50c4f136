/**
 Which routes are accepted, said on the patterns alone: a pattern must be well formed, and must
 not conflict with a registered one. The tree, its split edges and the order of its
 children play no part, and neither does the order of registration.
 */
module RouteConflicts {
  import opened Wrappers
  import opened RoutePatterns
  import opened RouteTree
  import opened RouteInsert
  import opened RouteCounts
  import opened RouteStars

  // ---------------------------------------------------------------- patterns

  /** Wildcards have names, one to a segment; a star comes behind a slash, in the last segment. */
  predicate Sound(p: string) {
    if p == "" then true
    else if p[0] == ':' then
      var n := SegmentLength(p);
      n > 1 && NoWild(p[1..n]) && Sound(p[n..])
    else if |p| > 1 && p[0] == '/' && p[1] == '*' then |p| > 2 && SegmentLength(p[1..]) == |p| - 1 && NoWild(p[2..])
    else p[0] != '*' && Sound(p[1..])
  }

  /**
   Side by side from the left: both end at once, one has a wildcard where the other has something else or a
   differently named one, or one has a star where the other ends.
   */
  predicate Conflicts(p: string, q: string)
    decreases |p|
  {
    if p == "" then q == "" || q[0] == '*'
    else if q == "" then p[0] == '*'
    else if IsWild(p[0]) || IsWild(q[0]) then
      var a, b := SegmentLength(p), SegmentLength(q);
      p[..a] != q[..b] || (a > 0 && Conflicts(p[a..], q[b..]))
    else p[0] == q[0] && Conflicts(p[1..], q[1..])
  }

  /** It does not matter which of the two is there first. */
  lemma {:induction false} ConflictsSymmetric(p: string, q: string)
    ensures Conflicts(p, q) == Conflicts(q, p)
    decreases |p|
  {
    if p != "" && q != "" {
      if IsWild(p[0]) || IsWild(q[0]) {
        var a, b := SegmentLength(p), SegmentLength(q);
        if p[..a] == q[..b] && a > 0 { ConflictsSymmetric(p[a..], q[b..]); }
      } else {
        ConflictsSymmetric(p[1..], q[1..]);
      }
    }
  }

  lemma SoundStep(p: string)
    requires p != "" && !IsWild(p[0]) && (|p| > 1 ==> p[1] != '*')
    ensures Sound(p) == Sound(p[1..])
  {
  }

  /** Static text in front makes no difference, but for the slash in front of a star. */
  lemma {:induction false} SoundStatic(s: string, rest: string)
    requires NoWild(s) && (rest == "" || rest[0] != '*')
    ensures Sound(s + rest) == Sound(rest)
    decreases |s|
  {
    hide Sound;
    if s == "" {
      assert s + rest == rest;
    } else {
      var p := s + rest;
      assert p[0] == s[0] && p[1..] == s[1..] + rest;
      assert |p| > 1 ==> p[1] != '*';
      SoundStep(p);
      SoundStatic(s[1..], rest);
    }
  }

  lemma SoundParam(name: string, rest: string)
    requires IsParamName(name) && (rest == "" || rest[0] == '/')
    ensures Sound(name + rest) == Sound(rest)
  {
    SegmentIs(name, rest);
    var p := name + rest;
    assert p[1..|name|] == name[1..] && p[|name|..] == rest;
  }

  /** A star that is not behind a slash. */
  lemma LooseStar(s: string, rest: string)
    requires s != "" && NoWild(s) && s[|s| - 1] != '/' && rest != "" && rest[0] == '*'
    ensures !Sound(s + rest)
  {
    var front, last := s[..|s| - 1], [s[|s| - 1]];
    assert s + rest == front + (last + rest);
    SoundStatic(front, last + rest);
    assert (last + rest)[1..] == rest;
  }

  lemma {:induction false} SoundStarLast(p: string)
    requires Sound(p)
    ensures StarLast(p)
  {
    if p != "" {
      if p[0] == ':' {
        var n := SegmentLength(p);
        SoundStarLast(p[n..]);
        ParamNoStar(p, n);
        StarLastFront(p, n);
      } else if |p| > 1 && p[0] == '/' && p[1] == '*' {
        assert forall i | 1 <= i < |p| :: p[i] == p[1..][i - 1];
      } else {
        SoundStarLast(p[1..]);
        StarLastFront(p, 1);
      }
    }
  }

  lemma ConflictsStep(p: string, q: string)
    requires p != "" && q != "" && !IsWild(p[0]) && !IsWild(q[0])
    ensures Conflicts(p, q) <==> p[0] == q[0] && Conflicts(p[1..], q[1..])
  {
  }

  lemma {:induction false} ConflictsStatic(s: string, p: string, q: string)
    requires NoWild(s)
    ensures Conflicts(s + p, s + q) == Conflicts(p, q)
    decreases |s|
  {
    hide Conflicts;
    if s == "" {
      assert s + p == p && s + q == q;
    } else {
      ConflictsStatic(s[1..], p, q);
      assert (s + p)[1..] == s[1..] + p && (s + q)[1..] == s[1..] + q;
      ConflictsStep(s + p, s + q);
    }
  }

  lemma ConflictsParam(name: string, p: string, q: string)
    requires IsParamName(name) && (p == "" || p[0] == '/') && (q == "" || q[0] == '/')
    ensures Conflicts(name + p, name + q) == Conflicts(p, q)
  {
    SegmentIs(name, p);
    SegmentIs(name, q);
    assert (name + p)[..|name|] == name == (name + q)[..|name|];
    assert (name + p)[|name|..] == p && (name + q)[|name|..] == q;
  }

  /** Different characters: a conflict exactly if one of them is a wildcard. */
  lemma ConflictsApart(p: string, q: string)
    requires p != "" && q != "" && p[0] != q[0]
    ensures Conflicts(p, q) <==> IsWild(p[0]) || IsWild(q[0])
  {
    var a, b := SegmentLength(p), SegmentLength(q);
    if IsWild(p[0]) || IsWild(q[0]) {
      assert a > 0 || b > 0;
      assert a > 0 ==> p[..a][0] == p[0];
      assert b > 0 ==> q[..b][0] == q[0];
    }
  }

  // ---------------------------------------------------------------- new nodes

  /** New nodes are made exactly for well-formed patterns. */
  lemma {:induction false} InsertSound(n: Node, path: string, h: Handlers)
    requires n.path == "" && n.children == [] && path != "" && !IsWild(path[0])
    ensures InsertChild(n, Wilds(path), path, h).Success? <==> Sound(path)
    decreases |path|, 1
  {
    hide ParamChild, Sound;
    assert path + "" == path;
    if Wilds(path) == 0 {
      NoneIsNoWild(path);
      SoundStatic(path, "");
      SoundNothing();
    } else {
      var i := FirstWild(path);
      if i == |path| { AllStatic(path); assert false; }
      WildsAfterStatic(path, i);
      var rest := path[i..];
      assert path == path[..i] + rest;
      assert rest[1..SegmentLength(rest)] == path[i + 1..i + SegmentLength(rest)];
      if path[i] == ':' {
        SoundStatic(path[..i], rest);
        ParamSound(rest, h);
      } else {
        StarSound(path, i);
      }
    }
  }

  lemma AllStatic(path: string)
    requires FirstWild(path) == |path|
    ensures Wilds(path) == 0
  {
    assert path[..|path|] == path;
    WildsNone(path);
  }

  lemma SoundNothing()
    ensures Sound("")
  {
  }

  lemma {:induction false} ParamSound(path: string, h: Handlers)
    requires path != "" && path[0] == ':'
    ensures var n := SegmentLength(path);
            n > 1 && NoWild(path[1..n]) && ParamChild(Wilds(path), path, n, h).Success? <==> Sound(path)
    decreases |path|, 0
  {
    var n := SegmentLength(path);
    if n > 1 && NoWild(path[1..n]) {
      WildsAfterParam(path, n);
      if n < |path| {
        InsertSound(NewNode(Wilds(path) - 1, 1), path[n..], h);
      } else {
        assert path[n..] == "";
      }
    }
  }

  /** The conditions on a star, in the form in which they are checked. */
  predicate StarOk(s: string)
    requires s != ""
  {
    var n := SegmentLength(s);
    n > 1 && NoWild(s[1..n]) && n == |s| && Wilds(s) == 1
  }

  lemma SoundCatchAll(s: string)
    requires s != "" && s[0] == '*'
    ensures Sound("/" + s) <==> StarOk(s)
  {
    var p := "/" + s;
    assert p[1..] == s && p[2..] == s[1..];
    if NoWild(s[1..]) { WildsNone(s[1..]); }
    if SegmentLength(s) == |s| { assert s[1..|s|] == s[1..]; }
  }

  /** A star at `i`, the first wildcard of the pattern. */
  lemma StarSound(path: string, i: nat)
    requires 0 < i < |path| && path[i] == '*' && NoWild(path[..i])
    ensures Sound(path) <==> StarOk(path[i..]) && path[i - 1] == '/'
  {
    hide Sound, StarOk;
    var s := path[i..];
    if path[i - 1] == '/' {
      assert path == path[..i - 1] + ("/" + s);
      assert NoWild(path[..i - 1]);
      SoundStatic(path[..i - 1], "/" + s);
      SoundCatchAll(s);
    } else {
      assert path == path[..i] + s;
      LooseStar(path[..i], s);
    }
  }

  /** A child is added exactly for a well-formed rest; a wildcard only where there are no children. */
  lemma AddChildSound(n: Node, path: string, h: Handlers)
    requires path != "" && |n.indices| == |n.children|
    ensures !IsWild(path[0]) ==> (AddChild(n, Wilds(path), path, h).Success? <==> Sound(path))
    ensures path[0] == ':' ==> (AddChild(n, Wilds(path), path, h).Success? <==> n.children == [] && Sound(path))
    ensures path[0] == '*' ==> AddChild(n, Wilds(path), path, h).Failure?
  {
    hide ParamChild, Sound;
    if IsWild(path[0]) {
      assert FirstWild(path) == 0 && path[0..] == path;
      assert path[1..SegmentLength(path)] == path[0 + 1..0 + SegmentLength(path)];
      SomeWild(path);
      if path[0] == ':' { ParamSound(path, h); }
    } else {
      InsertSound(NewNode(Wilds(path), 1), path, h);
    }
  }

  lemma SomeWild(path: string)
    requires path != "" && IsWild(path[0])
    ensures Wilds(path) > 0
  {
  }

  // ---------------------------------------------------------------- the walk

  /** Some route below `n` conflicts with the path. */
  ghost predicate Clash(n: Node, path: string) {
    exists p, g :: Has(n, p, g) && Conflicts(p, path)
  }

  lemma {:induction false} AnyRoute(n: Node) returns (p: string, g: Handlers)
    requires Accounted(n)
    ensures Has(n, p, g)
    decreases n
  {
    if n.handlers.Some? {
      p, g := n.path, n.handlers.value;
      assert p[|n.path|..] == "";
    } else {
      var q;
      assert n.children != [] by { ListNone(); }
      q, g := AnyRoute(n.children[0]);
      p := n.path + q;
      assert p[|n.path|..] == q;
    }
  }

  /** A path that goes on behind `n` clashes with what is at `n`, or below it. */
  lemma ClashBelow(n: Node, path: string, rest: string)
    requires path == n.path + rest
    requires NoWild(n.path) || (IsParam(n) && (rest == "" || rest[0] == '/'))
    ensures Clash(n, path) <==>
              || (n.handlers.Some? && Conflicts("", rest))
              || exists i :: 0 <= i < |n.children| && Clash(n.children[i], rest)
  {
    hide Conflicts, IsParam;
    if Clash(n, path) {
      var p, g :| Has(n, p, g) && Conflicts(p, path);
      var q := p[|n.path|..];
      assert p == n.path + q;
      SameFront(n, q, g, rest);
      if !(q == "" && n.handlers == Some(g)) {
        var i :| 0 <= i < |n.children| && Has(n.children[i], q, g);
        assert Clash(n.children[i], rest);
      }
    }
    if n.handlers.Some? && Conflicts("", rest) {
      HasBehind(n, "", n.handlers.value);
      SameFront(n, "", n.handlers.value, rest);
    }
    if exists i :: 0 <= i < |n.children| && Clash(n.children[i], rest) {
      var i :| 0 <= i < |n.children| && Clash(n.children[i], rest);
      var q, g :| Has(n.children[i], q, g) && Conflicts(q, rest);
      HasBehind(n, q, g);
      SameFront(n, q, g, rest);
    }
  }

  lemma HasBehind(n: Node, q: string, g: Handlers)
    ensures (q == "" && n.handlers == Some(g)) || (exists i :: 0 <= i < |n.children| && Has(n.children[i], q, g))
       <==> Has(n, n.path + q, g)
  {
    assert (n.path + q)[|n.path|..] == q;
  }

  lemma SameFront(n: Node, q: string, g: Handlers, rest: string)
    requires Has(n, n.path + q, g)
    requires NoWild(n.path) || (IsParam(n) && (rest == "" || rest[0] == '/'))
    ensures Conflicts(n.path + q, n.path + rest) == Conflicts(q, rest)
  {
    hide Conflicts;
    if NoWild(n.path) {
      ConflictsStatic(n.path, q, rest);
    } else {
      HasBehind(n, q, g);
      BelowParam(n);
      if q != "" { HasStart(n.children[0], '/', q, g); }
      ConflictsParam(n.path, q, rest);
    }
  }

  /** A child that begins with another character. */
  lemma ClashApart(c: Node, b: char, rest: string)
    requires IsIndexed(c) && Opens(c, b) && !IsWild(b) && Accounted(c)
    ensures rest == "" ==> !Clash(c, rest)
    ensures rest != "" && rest[0] != b ==> (Clash(c, rest) <==> IsWild(rest[0]))
  {
    hide IsIndexed, Accounted;
    forall p, g | Has(c, p, g)
      ensures rest == "" ==> !Conflicts(p, rest)
      ensures rest != "" && rest[0] != b ==> (Conflicts(p, rest) <==> IsWild(rest[0]))
    {
      HasStart(c, b, p, g);
      if rest != "" && rest[0] != b { ConflictsApart(p, rest); }
    }
    var p, g := AnyRoute(c);
    assert Has(c, p, g);
  }

  /** A parameter with another name, or none. */
  lemma ClashParam(c: Node, rest: string)
    requires IsParam(c) && Accounted(c)
    ensures rest == "" ==> !Clash(c, rest)
    ensures rest != "" && !Agrees(c, rest) ==> Clash(c, rest)
  {
    hide Accounted;
    forall p, g | Has(c, p, g)
      ensures rest == "" ==> !Conflicts(p, rest)
      ensures rest != "" && !Agrees(c, rest) ==> Conflicts(p, rest)
    {
      var q := p[|c.path|..];
      assert p == c.path + q;
      BelowParam(c);
      if q != "" { HasStart(c.children[0], '/', q, g); }
      SegmentIs(c.path, q);
      assert p[..|c.path|] == c.path;
      var b := SegmentLength(rest);
      if rest[..b] == c.path { assert c.path <= rest; }
    }
    var p, g := AnyRoute(c);
    assert Has(c, p, g);
  }

  /** Everything clashes with a catch-all in its place. */
  lemma ClashCatchAll(c: Node, rest: string)
    requires IsCatchAll(c) && rest != "" && rest[0] == '/' && StarLast(rest)
    ensures Clash(c, rest)
  {
    var leaf := c.children[0];
    var p, g := leaf.path, leaf.handlers.value;
    assert p[|leaf.path|..] == "" && p[0..] == p;
    assert Has(leaf, p, g) && Has(c, p, g);
    var star, tail := p[1..], rest[1..];
    assert p == p[..1] + star;
    assert '/' !in star;
    SegmentIs(star, "");
    assert star + "" == star;
    assert Conflicts(p, rest) == Conflicts(star, tail);
    if tail != "" {
      var b := SegmentLength(tail);
      if star == tail[..b] {
        assert tail[0] == star[0] == '*' == rest[1];
        assert star[|star|..] == "" && tail[b..] == "";
      }
    }
  }

  /**
   A pattern is accepted at `n` exactly if it is well formed and clashes with no route below `n`, whatever the tree
   looks like.
   */
  lemma {:induction false} WalkAccepts(n: Node, path: string, h: Handlers)
    requires (IsStatic(n) || IsParam(n)) && Leads(n, path) && StarLast(path) && Accounted(n)
    ensures Walk(n, Wilds(path), path, h).Success? <==> Sound(path) && !Clash(n, path)
    decreases n, 1
  {
    hide AddChild, InsertChild, Descend, Sound, Clash, IsStatic, IsParam, IsIndexed, Accounted, Conflicts;
    var m := n.(priority := n.priority + 1, maxParams := Max(n.maxParams, Wilds(path)));
    var i := CommonPrefix(path, n.path);
    StaticOrParam(n);
    if n.kind.Param? { CommonWhole(n.path, path); }
    if i < |n.path| {
      SplitAccepts(n, path, i, h);
    } else if i == |path| {
      assert path == path[..i] == n.path[..i] == n.path;
      EndAccepts(n);
    } else {
      assert n.path + path[i..] == path;
      StarLastTail(path, i);
      DescendAccepts(n, m, path, path[i..], h);
    }
  }

  /** The pattern leaves the path of a node in the middle. */
  lemma SplitAccepts(n: Node, path: string, i: nat, h: Handlers)
    requires IsStatic(n) && Accounted(n) && i < |n.path| && i <= |path| && path[..i] == n.path[..i]
    requires i < |path| ==> path[i] != n.path[i]
    ensures i == |path| ==> Sound(path) && !Clash(n, path)
    ensures i < |path| ==>
              forall top: Node | |top.indices| == |top.children| == 1 ::
                AddChild(top, Wilds(path), path[i..], h).Success? <==> Sound(path) && !Clash(n, path)
  {
    hide AddChild, Sound, Conflicts, Accounted;
    var rest, front := path[i..], n.path[..i];
    assert path == front + rest && n.path == front + n.path[i..] && NoWild(front);
    WildsAfterStatic(path, i);
    SplitClash(n, path, i);
    if rest == "" {
      SoundStatic(path, "");
      assert path + "" == path;
      SoundNothing();
    } else {
      forall top: Node | |top.indices| == |top.children| == 1
        ensures AddChild(top, Wilds(path), rest, h).Success? <==> Sound(path) && !Clash(n, path)
      {
        AddChildSound(top, rest, h);
        if !IsWild(rest[0]) { SoundStatic(front, rest); }
      }
    }
  }

  lemma SplitClash(n: Node, path: string, i: nat)
    requires NoWild(n.path) && Accounted(n) && i < |n.path| && i <= |path| && path[..i] == n.path[..i]
    requires i < |path| ==> path[i] != n.path[i]
    ensures Clash(n, path) <==> i < |path| && IsWild(path[i])
  {
    hide Conflicts, Accounted;
    var rest, front := path[i..], n.path[..i];
    assert path == front + rest && NoWild(front);
    forall p, g | Has(n, p, g)
      ensures Conflicts(p, path) <==> rest != "" && IsWild(rest[0])
    {
      var q := p[i..];
      assert p[..i] == front && p == front + q && q[0] == n.path[i];
      ConflictsStatic(front, q, rest);
      if rest == "" { NothingLeft(q); } else { ConflictsApart(q, rest); }
    }
    var p, g := AnyRoute(n);
    assert Has(n, p, g);
  }

  lemma NothingLeft(q: string)
    ensures q != "" ==> (Conflicts(q, "") <==> q[0] == '*') && (Conflicts("", q) <==> q[0] == '*')
    ensures Conflicts("", "")
  {
  }

  /** The pattern ends with the path of a node. */
  lemma EndAccepts(n: Node)
    requires (IsStatic(n) || IsParam(n)) && Accounted(n)
    ensures Sound(n.path) && (Clash(n, n.path) <==> n.handlers.Some?)
  {
    hide Sound, Conflicts, Accounted;
    var path := n.path;
    assert path + "" == path;
    SoundNothing();
    NothingLeft("");
    if IsParam(n) { SoundParam(path, ""); BelowParam(n); } else { SoundStatic(path, ""); Below(n); }
    ClashBelow(n, path, "");
    forall i | 0 <= i < |n.children| ensures !Clash(n.children[i], "") {
      ChildAccounted(n, i);
      if IsParam(n) {
        ClashApart(n.children[i], '/', "");
      } else if n.wildChild {
        ClashParam(n.children[i], "");
      } else {
        ClashApart(n.children[i], n.indices[i], "");
      }
    }
  }

  lemma {:induction false} DescendAccepts(n: Node, m: Node, path: string, rest: string, h: Handlers)
    requires (IsStatic(n) || IsParam(n)) && Leads(n, path) && StarLast(rest) && Accounted(n)
    requires path == n.path + rest && rest != ""
    requires m == n.(priority := m.priority, maxParams := m.maxParams)
    ensures Descend(n, m, Wilds(path), rest, h).Success? <==> Sound(path) && !Clash(n, path)
    decreases n, 0
  {
    hide AddChild, Walk, Sound, Clash, IsStatic, IsParam, IsIndexed, Accounted, Conflicts;
    StaticOrParam(n);
    NodesBelow(n);
    BelowWilds(n, path, rest);
    ReplaceKeeps(m);
    if n.kind.Param? {
      BelowParam(n);
      if n.children != [] {
        ParamChildIsStatic(n);
        ChildAccounted(n, 0);
        WalkAccepts(n.children[0], rest, h);
      }
      ParamAccepts(n, m, path, rest, h);
    } else if n.wildChild {
      Below(n);
      StaticWild(n);
      ChildAccounted(n, 0);
      if Agrees(n.children[0], rest) { WalkAccepts(n.children[0], rest, h); }
      WildAccepts(n, path, rest);
    } else {
      Below(n);
      var k := IndexOf(n.indices, rest[0]);
      if k.Some? {
        var c := n.children[k.value];
        ChildAccounted(n, k.value);
        if IsCatchAll(c) {
          CatchAllRefuses(c, rest, h);
          ClashCatchAll(c, rest);
        } else {
          IndexedIsStatic(c);
          WalkAccepts(c, rest, h);
        }
        IndexAccepts(n, path, rest, k.value);
      } else {
        NewAccepts(n, m, path, rest, h);
      }
    }
  }

  lemma ReplaceKeeps(m: Node)
    ensures forall k: nat, to: nat, c: Result<Node> | to <= k < |m.children| ::
              Replace(m, k, to, c).Success? <==> c.Success?
  {
  }

  lemma ParamChildIsStatic(n: Node)
    requires IsParam(n) && n.children != []
    ensures IsStatic(n.children[0]) && Opens(n.children[0], '/') && !n.children[0].kind.Param?
    ensures !n.children[0].kind.CatchAll?
  {
  }

  lemma StaticWild(n: Node)
    requires IsStatic(n) && n.wildChild
    ensures IsParam(n.children[0])
  {
  }

  lemma ParamAccepts(n: Node, m: Node, path: string, rest: string, h: Handlers)
    requires IsParam(n) && rest != "" && rest[0] == '/' && path == n.path + rest
    requires m == n.(priority := m.priority, maxParams := m.maxParams)
    ensures Sound(path) == Sound(rest) && !n.wildChild
    ensures n.children != [] ==> (Clash(n, path) <==> Clash(n.children[0], rest))
    ensures n.children == [] ==>
              (AddChild(m, Wilds(rest), rest, h).Success? <==> Sound(path) && !Clash(n, path)) && n.indices == ""
  {
    hide AddChild, Sound, Conflicts, Clash;
    SoundParam(n.path, rest);
    ClashBelow(n, path, rest);
    NothingLeft(rest);
    if n.children == [] { AddChildSound(m, rest, h); }
  }

  lemma WildAccepts(n: Node, path: string, rest: string)
    requires IsStatic(n) && n.wildChild && Accounted(n) && rest != "" && path == n.path + rest
    ensures !Agrees(n.children[0], rest) ==> Clash(n, path)
    ensures Agrees(n.children[0], rest) ==> Sound(path) == Sound(rest) && Clash(n, path) == Clash(n.children[0], rest)
  {
    hide Sound, Conflicts, Clash;
    ChildAccounted(n, 0);
    hide Accounted;
    var c := n.children[0];
    ClashBelow(n, path, rest);
    NothingLeft(rest);
    ClashParam(c, rest);
    if Agrees(c, rest) { SoundStatic(n.path, rest); }
  }

  lemma IndexAccepts(n: Node, path: string, rest: string, k: nat)
    requires IsStatic(n) && !n.wildChild && Accounted(n) && rest != "" && path == n.path + rest
    requires k < |n.children| && n.indices[k] == rest[0]
    ensures Sound(path) == Sound(rest) && Clash(n, path) == Clash(n.children[k], rest)
  {
    hide Sound, Conflicts, Clash, IsStatic, IsIndexed, Accounted;
    Below(n);
    ClashBelow(n, path, rest);
    NothingLeft(rest);
    SoundStatic(n.path, rest);
    forall i | 0 <= i < |n.children| && i != k ensures !Clash(n.children[i], rest) {
      ChildAccounted(n, i);
      ClashApart(n.children[i], n.indices[i], rest);
    }
  }

  /** No index leads on. */
  lemma NewAccepts(n: Node, m: Node, path: string, rest: string, h: Handlers)
    requires IsStatic(n) && !n.wildChild && Accounted(n) && rest != "" && path == n.path + rest
    requires rest[0] !in n.indices && (n.path == "" ==> rest[0] == '/')
    requires m == n.(priority := m.priority, maxParams := m.maxParams)
    ensures AddChild(m, Wilds(rest), rest, h).Success? <==> Sound(path) && !Clash(n, path)
  {
    hide AddChild, Sound, Conflicts, Clash, IsStatic, IsIndexed, Accounted;
    Below(n);
    AddChildSound(m, rest, h);
    NewClash(n, path, rest);
    if rest[0] != '*' {
      SoundStatic(n.path, rest);
    } else if n.handlers.None? && n.children == [] {
      SomethingThere(n);
    }
  }

  lemma SomethingThere(n: Node)
    requires Accounted(n)
    ensures n.handlers.Some? || n.children != []
  {
    ListNone();
  }

  lemma NewClash(n: Node, path: string, rest: string)
    requires IsStatic(n) && !n.wildChild && Accounted(n) && rest != "" && path == n.path + rest
    requires rest[0] !in n.indices
    ensures Clash(n, path) <==> (n.handlers.Some? && rest[0] == '*') || (n.children != [] && IsWild(rest[0]))
  {
    hide Conflicts, Clash, IsStatic, IsIndexed, Accounted;
    Below(n);
    ClashBelow(n, path, rest);
    NothingLeft(rest);
    forall i | 0 <= i < |n.children| ensures Clash(n.children[i], rest) <==> IsWild(rest[0]) {
      ChildAccounted(n, i);
      assert n.indices[i] in n.indices;
      ClashApart(n.children[i], n.indices[i], rest);
    }
    if n.children != [] && IsWild(rest[0]) { assert Clash(n.children[0], rest); }
  }
}
