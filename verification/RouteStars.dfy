/**
 Where a star may stand. A pattern with a star before its last segment is refused, with one
 exception: behind a registered catch-all the walk goes on, and hangs the rest of the pattern
 below the catch-all, where a lookup does not go.
 */
module RouteStars {
  import opened Wrappers
  import opened RoutePatterns
  import opened RouteTree
  import opened RouteInsert

  /** The path goes on with a slash behind a catch-all pattern. */
  predicate Extends(p: string, path: string) {
    '*' in p && p + "/" <= path
  }

  ghost predicate ExtendsBelow(n: Node, path: string) {
    exists p, h :: Has(n, p, h) && Extends(p, path)
  }

  lemma ExtendsNotLast(p: string, path: string)
    requires Extends(p, path)
    ensures !StarLast(path)
  {
    var i :| 0 <= i < |p| && p[i] == '*';
    assert path[..|p| + 1] == p + "/";
    assert path[i] == (p + "/")[i] && path[|p|] == '/';
  }

  lemma StarLastFront(path: string, i: nat)
    requires i <= |path| && '*' !in path[..i] && StarLast(path[i..])
    ensures StarLast(path)
  {
  }

  lemma NoWildNoStar(s: string)
    requires NoWild(s)
    ensures '*' !in s && StarLast(s)
  {
  }

  lemma ParamNoStar(s: string, length: nat)
    requires 0 < length <= |s| && s[0] == ':' && NoWild(s[1..length])
    ensures '*' !in s[..length]
  {
  }

  lemma {:induction false} InsertStars(n: Node, path: string, h: Handlers)
    requires InsertChild(n, Wilds(path), path, h).Success?
    ensures StarLast(path)
    decreases |path|
  {
    if Wilds(path) == 0 {
      NoneIsNoWild(path);
      NoWildNoStar(path);
    } else {
      var i := FirstWild(path);
      NoWildNoStar(path[..i]);
      WildsAfterStatic(path, i);
      var rest := path[i..];
      var length := SegmentLength(rest);
      assert rest[1..length] == path[i + 1..i + length];
      if path[i] == ':' {
        ParamNoStar(rest, length);
        WildsAfterParam(rest, length);
        if length < |rest| {
          InsertStars(NewNode(Wilds(rest) - 1, 1), rest[length..], h);
        }
        StarLastFront(rest, length);
      } else {
        assert forall b | 0 <= b < |rest| :: rest[b] != '/';
      }
      StarLastFront(path, i);
    }
  }

  lemma AddChildStars(n: Node, path: string, h: Handlers)
    requires path != "" && AddChild(n, Wilds(path), path, h).Success?
    ensures StarLast(path)
  {
    if IsWild(path[0]) {
      InsertStars(n, path, h);
    } else {
      InsertStars(NewNode(Wilds(path), 1), path, h);
    }
  }

  lemma Deeper(n: Node, k: nat, path: string, rest: string)
    requires k < |n.children| && path == n.path + rest && ExtendsBelow(n.children[k], rest)
    ensures ExtendsBelow(n, path)
  {
    var p, h :| Has(n.children[k], p, h) && Extends(p, rest);
    assert (n.path + p)[|n.path|..] == p;
    assert Has(n, n.path + p, h);
    assert n.path + p + "/" == n.path + (p + "/");
    assert '*' in n.path + p;
  }

  /** A pattern is accepted below a node only with its star last, or behind a catch-all. */
  lemma {:induction false} WalkStars(n: Node, path: string, h: Handlers)
    requires IsNode(n) && path != "" && (n.kind.Param? || IsCatchAllLeaf(n) ==> Agrees(n, path))
    requires Walk(n, Wilds(path), path, h).Success?
    ensures StarLast(path) || ExtendsBelow(n, path)
    decreases n, 1
  {
    hide AddChild, InsertChild, Descend, IsStatic, IsParam, IsIndexed;
    var i := CommonPrefix(path, n.path);
    OwnPath(n);
    if n.kind.Param? || IsCatchAllLeaf(n) {
      CommonWhole(n.path, path);
    }
    var rest := path[i..];
    assert path == path[..i] + rest;
    if i < |n.path| {
      assert NoWild(path[..i]);
      NoWildNoStar(path[..i]);
      WildsAfterStatic(path, i);
      if rest != "" {
        AddChildStars(Split(n, i).(priority := n.priority + 1, maxParams := Max(n.maxParams, Wilds(path))), rest, h);
      }
      StarLastFront(path, i);
    } else if rest == "" {
      assert path == n.path;
    } else {
      var m := n.(priority := n.priority + 1, maxParams := Max(n.maxParams, Wilds(path)));
      assert Walk(n, Wilds(path), path, h) == Descend(n, m, Wilds(path), rest, h);
      DescendStars(n, m, path, rest, h);
    }
  }

  /** What the path of a node may hold. */
  lemma OwnPath(n: Node)
    requires IsNode(n)
    ensures !n.kind.Param? && !IsCatchAllLeaf(n) ==> NoWild(n.path)
    ensures !IsCatchAllLeaf(n) ==> '*' !in n.path
    ensures StarLast(n.path)
  {
  }

  lemma {:induction false} DescendStars(n: Node, m: Node, path: string, rest: string, h: Handlers)
    requires IsNode(n) && rest != "" && path == n.path + rest
    requires n.kind.Param? || IsCatchAllLeaf(n) ==> Agrees(n, path)
    requires m == n.(priority := m.priority, maxParams := m.maxParams)
    requires Descend(n, m, Wilds(path), rest, h).Success?
    ensures StarLast(path) || ExtendsBelow(n, path)
    decreases n, 0
  {
    hide AddChild, Walk, IsStatic, IsParam, IsIndexed;
    if IsCatchAllLeaf(n) {
      LeafExtended(n, path);
    } else {
      OwnPath(n);
      NodesBelow(n);
      WildsBelow(n, path, rest);
      assert path[..|n.path|] == n.path && path[|n.path|..] == rest;
      match Next(n, rest) {
        case None =>
          AddChildStars(m, rest, h);
          StarLastFront(path, |n.path|);
        case Some(k) =>
          WalkStars(n.children[k], rest, h);
          if StarLast(rest) {
            StarLastFront(path, |n.path|);
          } else {
            Deeper(n, k, path, rest);
          }
      }
    }
  }

  lemma LeafExtended(n: Node, path: string)
    requires IsCatchAllLeaf(n) && Agrees(n, path) && |path| > |n.path|
    ensures ExtendsBelow(n, path)
  {
    assert n.path[|n.path|..] == "";
    assert Has(n, n.path, n.handlers.value);
    assert n.path[1] == '*';
    assert path[..|n.path| + 1] == n.path + "/";
  }

  lemma WildsBelow(n: Node, path: string, rest: string)
    requires IsNode(n) && !IsCatchAllLeaf(n) && path == n.path + rest
    ensures Wilds(rest) == if n.kind.Param? then Wilds(path) - 1 else Wilds(path)
  {
    if IsCatchAll(n) {
      assert rest == path;
    } else {
      BelowWilds(n, path, rest);
    }
  }

  const LEAF := Node("/*x", false, CatchAll, 1, "", [], Some(1), 1)
  const FRONT := Node("", true, CatchAll, 1, "", [LEAF], None, 1)
  const STARRED := Node("", false, Root, 0, "/", [FRONT], None, 1)

  lemma WildsOfStarred()
    ensures Wilds("/*x") == 1 && Wilds("/*x/y") == 1 && Wilds("/y") == 0 && FirstWild("/*x") == 1
    ensures SegmentLength("*x") == 2
  {
    assert "/*x" == ['/', '*', 'x'] && "/*x"[1..] == "*x" && "*x"[1..] == "x" && "x"[1..] == "";
    assert "/*x/y"[1..] == "*x/y" && "*x/y"[1..] == "x/y" && "x/y"[1..] == "/y" && "/y"[1..] == "y" && "y"[1..] == "";
  }

  lemma FirstIsStarred()
    ensures AddRoute(EMPTY_TREE, "/*x", 1) == Success(STARRED) && IsStatic(STARRED) && IsCatchAll(FRONT)
  {
    WildsOfStarred();
    assert "/*x"[1..] == "*x" && "/*x"[1 + 1..3] == "x" && "/*x"[0..] == "/*x" && "/*x"[..0] == "";
    assert IsCatchAllLeaf(LEAF);
    assert IsIndexed(FRONT);
  }

  lemma PlainIsInserted(n: Node)
    requires n.children == [] && n.indices == ""
    ensures AddChild(n, 0, "/y", 2).Success?
  {
  }

  lemma LeafIsExtended()
    ensures IsCatchAllLeaf(LEAF) && Walk(LEAF, 1, "/*x/y", 2).Success?
  {
    hide AddChild;
    var p := "/*x/y";
    var m := LEAF.(priority := 2, maxParams := Max(1, 1));
    assert "/*x" <= p && p[3] == '/';
    CommonWhole("/*x", p);
    assert p[3..] == "/y" && Next(LEAF, "/y") == None;
    assert Walk(LEAF, 1, p, 2) == Descend(LEAF, m, 1, "/y", 2);
    PlainIsInserted(m);
  }

  /** The exception: a catch-all, and a route accepted behind it. */
  lemma StarCounterexample()
    ensures var first := AddRoute(EMPTY_TREE, "/*x", 1);
            first == Success(STARRED) && IsStatic(STARRED) && AddRoute(STARRED, "/*x/y", 2).Success?
    ensures !StarLast("/*x/y")
  {
    hide AddChild, InsertChild, IsStatic, IsIndexed, IsParam;
    FirstIsStarred();
    LeafIsExtended();
    WildsOfStarred();
    var p := "/*x/y";
    assert p[1] == '*' && p[3] == '/' && p[0..] == p;
    var f := FRONT.(priority := 2, maxParams := Max(1, 1));
    assert Walk(FRONT, 1, p, 2) == Descend(FRONT, f, 1, p, 2);
    assert Agrees(LEAF, p) by { assert "/*x" <= p; }
    assert Next(STARRED, p) == Some(0);
    var r := STARRED.(priority := 2, maxParams := Max(0, 1));
    assert Walk(STARRED, 1, p, 2) == Descend(STARRED, r, 1, p, 2);
  }
}
