/**
 Registering a route: the walk to the place where the pattern leaves the tree, the splitting of
 an edge, and the new nodes. A panic is a failure. Pointers are left out: a node is a value, and
 a changed node is a new value in its parent.
 */
module RouteInsert {
  import opened Wrappers
  import opened RoutePatterns
  import opened RouteTree

  function Max(a: int, b: int): int {
    if a < b then b else a
  }

  function Wilds(path: string): nat {
    if path == "" then 0 else (if IsWild(path[0]) then 1 else 0) + Wilds(path[1..])
  }

  /** The position of the first wildcard, or the length if there is none. */
  function FirstWild(path: string): (i: nat)
    ensures i <= |path| && NoWild(path[..i])
    ensures i < |path| ==> IsWild(path[i])
  {
    if path == "" || IsWild(path[0]) then 0 else 1 + FirstWild(path[1..])
  }

  function CommonPrefix(a: string, b: string): (i: nat)
    ensures i <= |a| && i <= |b| && a[..i] == b[..i]
    ensures i < |a| && i < |b| ==> a[i] != b[i]
  {
    if a == "" || b == "" || a[0] != b[0] then 0 else 1 + CommonPrefix(a[1..], b[1..])
  }

  const PANIC: Result<Node> := Failure("panic")

  // ---------------------------------------------------------------- new nodes

  function NewNode(maxParams: int, priority: int): Node {
    Node("", false, Static, maxParams, "", [], None, priority)
  }

  /** Store `path`, which holds `numParams` wildcards, in `n` and new nodes below it. */
  function InsertChild(n: Node, numParams: int, path: string, h: Handlers): Result<Node>
    decreases |path|, 1
  {
    if numParams <= 0 then Success(n.(path := path, handlers := Some(h)))
    else
      var i := FirstWild(path);
      if i == |path| then PANIC
      else
        var end := i + SegmentLength(path[i..]);
        if !NoWild(path[i + 1..end]) then PANIC       // only one wildcard per segment
        else if n.children != [] then PANIC           // would hide existing children
        else if end - i < 2 then PANIC                // a wildcard needs a name
        else if path[i] == ':' then
          match ParamChild(numParams, path[i..], end - i, h)
          case Failure(e) => Failure(e)
          case Success(c) =>
            Success(n.(path := if i > 0 then path[..i] else n.path, children := [c], wildChild := true))
        else if end != |path| || numParams > 1 then PANIC                 // only at the end
        else if n.path != "" && n.path[|n.path| - 1] == '/' then PANIC    // the segment root is taken
        else if i == 0 || path[i - 1] != '/' then PANIC
        else
          var leaf := Node(path[i - 1..], false, CatchAll, 1, "", [], Some(h), 1);
          var front := Node("", true, CatchAll, 1, "", [leaf], None, 1);
          Success(n.(path := path[..i - 1], children := [front], indices := "/"))
  }

  /** The node for the parameter in front of `path`, which takes `length` characters. */
  function ParamChild(numParams: int, path: string, length: nat, h: Handlers): Result<Node>
    requires 0 < length <= |path|
    decreases |path|, 0
  {
    var c := Node(path[..length], false, Kind.Param, numParams, "", [], None, 1);
    if length == |path| then if numParams > 1 then PANIC else Success(c.(handlers := Some(h)))
    else
      match InsertChild(NewNode(numParams - 1, 1), numParams - 1, path[length..], h)
      case Failure(e) => Failure(e)
      case Success(g) => Success(c.(children := [g]))
  }

  // ---------------------------------------------------------------- order of children

  /** How far forward a child of the given priority moves from `pos`. */
  function FrontPosition(cs: seq<Node>, pos: nat, priority: int): (to: nat)
    requires pos <= |cs|
    ensures to <= pos
    ensures forall i | to <= i < pos :: cs[i].priority < priority
    ensures to > 0 ==> cs[to - 1].priority >= priority
  {
    if pos > 0 && cs[pos - 1].priority < priority then FrontPosition(cs, pos - 1, priority) else pos
  }

  /** Where the element now at `i` was before `from` moved up to `to`. */
  function Source(i: nat, from: nat, to: nat): nat {
    if i < to || i > from then i else if i == to then from else i - 1
  }

  function MoveUp<T>(s: seq<T>, from: nat, to: nat): (r: seq<T>)
    requires to <= from < |s|
    ensures |r| == |s| && forall i | 0 <= i < |s| :: r[i] == s[Source(i, from, to)]
  {
    s[..to] + [s[from]] + s[to..from] + s[from + 1..]
  }

  lemma MoveUpParts<T>(s: seq<T>, from: nat, to: nat)
    requires to <= from < |s|
    ensures s == s[..to] + (s[to..from] + ([s[from]] + s[from + 1..]))
    ensures MoveUp(s, from, to) == s[..to] + ([s[from]] + (s[to..from] + s[from + 1..]))
  {
  }

  // ---------------------------------------------------------------- the walk

  /** The lower half of a split edge keeps everything but the first `i` characters. */
  function LowerHalf(n: Node, i: nat): Node
    requires i < |n.path|
  {
    Node(n.path[i..], n.wildChild, Static, MaxOver(n.children), n.indices, n.children, n.handlers, n.priority)
  }

  function MaxOver(cs: seq<Node>): int {
    if cs == [] then 0 else Max(cs[0].maxParams, MaxOver(cs[1..]))
  }

  /** The upper half has the lower one as its only child. */
  function Split(n: Node, i: nat): Node
    requires i < |n.path|
  {
    n.(path := n.path[..i], wildChild := false, indices := [n.path[i]], children := [LowerHalf(n, i)], handlers := None)
  }

  /** No index leads on with `path`: a new child, or a wildcard below `n` itself. */
  function AddChild(n: Node, numParams: int, path: string, h: Handlers): Result<Node>
    requires path != ""
  {
    if IsWild(path[0]) then InsertChild(n, numParams, path, h)
    else
      match InsertChild(NewNode(numParams, 1), numParams, path, h)
      case Failure(e) => Failure(e)
      case Success(c) =>
        var k := |n.children|;
        if |n.indices| != k then PANIC
        else
          var to := FrontPosition(n.children, k, 1);
          Success(n.(children := MoveUp(n.children + [c], k, to), indices := MoveUp(n.indices + [path[0]], k, to)))
  }

  predicate IsNode(n: Node) {
    IsStatic(n) || IsParam(n) || IsCatchAll(n) || IsCatchAllLeaf(n)
  }

  /**
   Add `path` below `n`, where the wildcards in it, and the one `n` stands for, number `numParams`.
   Every node on the way counts one more route.
   */
  function Walk(n: Node, numParams: int, path: string, h: Handlers): Result<Node>
    requires IsNode(n) && (n.kind.Param? || IsCatchAllLeaf(n) ==> n.path <= path)
    decreases n
  {
    var m := n.(priority := n.priority + 1, maxParams := Max(n.maxParams, numParams));
    var i := CommonPrefix(path, n.path);
    if i < |n.path| then
      var top := Split(n, i).(priority := m.priority, maxParams := m.maxParams);
      if i == |path| then Success(top.(handlers := Some(h)))
      else AddChild(top, numParams, path[i..], h)
    else if i == |path| then
      if n.handlers.Some? then PANIC else Success(m.(handlers := Some(h)))
    else Descend(n, m, numParams, path[i..], h)
  }

  /** The child that the walk goes on to with `path`, if any: a wildcard, the slash after one, or by index. */
  function Next(n: Node, path: string): Option<nat>
    requires path != ""
  {
    if n.wildChild then Some(0)
    else if n.kind.Param? && path[0] == '/' && |n.children| == 1 then Some(0)
    else IndexOf(n.indices, path[0])
  }

  /** Where that child ends up among its siblings once it counts one more route. */
  function Target(n: Node, k: nat): (to: nat)
    requires k < |n.children|
    ensures to <= k
  {
    if n.wildChild || n.kind.Param? then 0 else FrontPosition(n.children, k, n.children[k].priority + 1)
  }

  /** A wildcard child takes a path with the same wildcard in front. */
  predicate Agrees(c: Node, path: string) {
    c.path <= path && (|c.path| == |path| || path[|c.path|] == '/')
  }

  /** Beyond the path of `n`: on to a child, or a new one. `m` is `n` with its counts raised. */
  function Descend(n: Node, m: Node, numParams: int, path: string, h: Handlers): Result<Node>
    requires IsNode(n) && path != "" && m.children == n.children && m.indices == n.indices
    decreases n, 0
  {
    var below := if n.kind.Param? || IsCatchAllLeaf(n) then numParams - 1 else numParams;
    NodesBelow(n);
    match Next(n, path)
    case None => AddChild(m, below, path, h)
    case Some(k) =>
      if n.wildChild && !Agrees(n.children[k], path) then PANIC       // conflicts with the existing wildcard
      else Replace(m, k, Target(n, k), Walk(n.children[k], below, path, h))
  }

  /** Put a changed child back, moved forward from `k` to `to` together with its index. */
  function Replace(m: Node, k: nat, to: nat, c: Result<Node>): Result<Node>
    requires to <= k < |m.children|
  {
    match c
    case Failure(e) => Failure(e)
    case Success(d) =>
      Success(m.(children := MoveUp(m.children[k := d], k, to),
                 indices := if k < |m.indices| then MoveUp(m.indices, k, to) else m.indices))
  }

  lemma NodesBelow(n: Node)
    requires IsNode(n)
    ensures n.wildChild ==> |n.children| == 1 && IsNode(n.children[0])
    ensures n.kind.Param? && |n.children| == 1 ==> IsNode(n.children[0]) && !n.children[0].kind.Param?
    ensures n.kind.Param? && |n.children| == 1 ==> !IsCatchAllLeaf(n.children[0])
    ensures |n.indices| <= |n.children|
    ensures forall k | 0 <= k < |n.indices| ::
              IsNode(n.children[k]) && !n.children[k].kind.Param? && !IsCatchAllLeaf(n.children[k])
  {
    if IsWalkable(n) {
      Below(n);
    } else if IsParam(n) {
      BelowParam(n);
    }
  }

  const EMPTY_TREE := Node("", false, Static, 0, "", [], None, 0)

  /** Register a route in the tree with the given root. */
  function AddRoute(root: Node, path: string, h: Handlers): Result<Node>
    requires root == EMPTY_TREE || IsStatic(root)
  {
    var numParams := if Wilds(path) >= 255 then 255 else Wilds(path);
    if root.path != "" || root.children != [] then Walk(root, numParams, path, h)
    else
      match InsertChild(root.(priority := root.priority + 1), numParams, path, h)
      case Failure(e) => Failure(e)
      case Success(r) => Success(r.(kind := Root))
  }

  // ---------------------------------------------------------------- shape is kept

  /** A star only in the last segment. */
  predicate StarLast(path: string) {
    forall i, j | 0 <= i < j < |path| && path[i] == '*' :: path[j] != '/'
  }

  lemma {:induction false} WildsAppend(a: string, b: string)
    ensures Wilds(a + b) == Wilds(a) + Wilds(b)
    decreases |a|
  {
    if a == "" {
      assert a + b == b;
    } else {
      WildsAppend(a[1..], b);
      assert (a + b)[0] == a[0] && (a + b)[1..] == a[1..] + b;
    }
  }

  lemma {:induction false} WildsNone(s: string)
    requires NoWild(s)
    ensures Wilds(s) == 0
  {
    if s != "" { WildsNone(s[1..]); }
  }

  /** A path with a parameter in front: the wildcards behind it are one fewer. */
  lemma WildsAfterParam(path: string, length: nat)
    requires 0 < length <= |path| && path[0] == ':' && NoWild(path[1..length])
    ensures Wilds(path) == 1 + Wilds(path[length..])
  {
    assert path == [path[0]] + (path[1..length] + path[length..]);
    WildsAppend([path[0]], path[1..length] + path[length..]);
    WildsAppend(path[1..length], path[length..]);
    WildsNone(path[1..length]);
    assert [path[0]][1..] == "";
  }

  lemma WildsAfterStatic(path: string, i: nat)
    requires i <= |path| && NoWild(path[..i])
    ensures Wilds(path) == Wilds(path[i..])
  {
    assert path == path[..i] + path[i..];
    WildsAppend(path[..i], path[i..]);
    WildsNone(path[..i]);
  }

  /** What the new nodes for a path look like. */
  lemma {:induction false} InsertShape(n: Node, path: string, h: Handlers)
    requires n.path == "" && n.children == [] && n.indices == "" && !n.wildChild && n.handlers.None?
    requires n.kind.Static? || n.kind.Root?
    requires path != "" && !IsWild(path[0])
    ensures var r := InsertChild(n, Wilds(path), path, h);
            r.Success? ==> IsStatic(r.value) && Opens(r.value, path[0]) && r.value.kind == n.kind
    decreases |path|, 1
  {
    hide IsStatic, IsParam, IsIndexed, ParamChild;
    var r := InsertChild(n, Wilds(path), path, h);
    if Wilds(path) == 0 {
      NoneIsNoWild(path);
      PlainShape(n, path, h);
    } else if r.Success? {
      var i := FirstWild(path);
      WildsAfterStatic(path, i);
      var length := SegmentLength(path[i..]);
      if path[i] == ':' {
        ParamShape(path[i..], h);
        assert path[i..][1..length] == path[i + 1..i + length];
        BeforeParam(n, path[..i], r.value.children[0]);
      } else {
        assert path[i + 1..i + length] == path[i + 1..];
        CatchAllShape(path, i, h);
        BeforeCatchAll(n, path[..i - 1], r.value.children[0]);
      }
    }
  }

  lemma PlainShape(n: Node, path: string, h: Handlers)
    requires n.children == [] && n.indices == "" && !n.wildChild && (n.kind.Static? || n.kind.Root?) && path != ""
    requires NoWild(path)
    ensures IsStatic(n.(path := path, handlers := Some(h)))
  {
  }

  lemma BeforeParam(n: Node, path: string, c: Node)
    requires n.indices == "" && (n.kind.Static? || n.kind.Root?) && path != "" && NoWild(path) && IsParam(c)
    ensures IsStatic(n.(path := path, children := [c], wildChild := true))
  {
  }

  lemma BeforeCatchAll(n: Node, path: string, c: Node)
    requires !n.wildChild && n.handlers.None? && (n.kind.Static? || n.kind.Root?) && NoWild(path) && IsCatchAll(c)
    ensures IsStatic(n.(path := path, children := [c], indices := "/"))
  {
    assert IsIndexed(c);
  }

  lemma CatchAllShape(path: string, i: nat, h: Handlers)
    requires 0 < i < |path| && path[i] == '*' && path[i - 1] == '/' && |path| > i + 1
    requires i + SegmentLength(path[i..]) == |path| && NoWild(path[i + 1..])
    ensures IsCatchAll(Node("", true, CatchAll, 1, "", [Node(path[i - 1..], false, CatchAll, 1, "", [], Some(h), 1)],
                            None, 1))
  {
  }

  lemma {:induction false} NoneIsNoWild(s: string)
    requires Wilds(s) == 0
    ensures NoWild(s)
  {
    if s != "" { NoneIsNoWild(s[1..]); }
  }

  lemma {:induction false} ParamShape(path: string, h: Handlers)
    requires path != "" && path[0] == ':'
    ensures var length := SegmentLength(path);
            var r := ParamChild(Wilds(path), path, length, h);
            r.Success? && length > 1 && NoWild(path[1..length]) ==> IsParam(r.value) && r.value.path == path[..length]
    decreases |path|, 0
  {
    var length := SegmentLength(path);
    if length > 1 && NoWild(path[1..length]) {
      WildsAfterParam(path, length);
      if length < |path| {
        InsertShape(NewNode(Wilds(path) - 1, 1), path[length..], h);
        var r := ParamChild(Wilds(path), path, length, h);
        assert r.Success? ==> IsStatic(r.value.children[0]) && IsIndexed(r.value.children[0]);
      }
      assert forall i | 1 <= i < length :: path[1..length][i - 1] == path[i];
    }
  }

  predicate IndexedList(cs: seq<Node>, indices: string) {
    && |indices| == |cs| && NoWild(indices) && DistinctChars(indices)
    && forall i | 0 <= i < |cs| :: IsIndexed(cs[i]) && Opens(cs[i], indices[i])
  }

  lemma MoveUpIndexed(cs: seq<Node>, indices: string, k: nat, to: nat)
    requires IndexedList(cs, indices) && to <= k < |cs|
    ensures IndexedList(MoveUp(cs, k, to), MoveUp(indices, k, to))
  {
    var ds, js := MoveUp(cs, k, to), MoveUp(indices, k, to);
    forall i | 0 <= i < |ds| ensures IsIndexed(ds[i]) && Opens(ds[i], js[i]) && !IsWild(js[i]) {
      assert ds[i] == cs[Source(i, k, to)] && js[i] == indices[Source(i, k, to)];
    }
  }

  lemma ReplaceIndexed(cs: seq<Node>, indices: string, k: nat, to: nat, d: Node)
    requires IndexedList(cs, indices) && to <= k < |cs| && IsIndexed(d) && Opens(d, indices[k])
    ensures IndexedList(MoveUp(cs[k := d], k, to), MoveUp(indices, k, to))
  {
    MoveUpIndexed(cs[k := d], indices, k, to);
  }

  lemma AppendIndexed(cs: seq<Node>, indices: string, to: nat, c: Node, b: char)
    requires IndexedList(cs, indices) && to <= |cs| && IsIndexed(c) && Opens(c, b) && !IsWild(b) && b !in indices
    ensures IndexedList(MoveUp(cs + [c], |cs|, to), MoveUp(indices + [b], |cs|, to))
  {
    assert IndexedList(cs + [c], indices + [b]);
    MoveUpIndexed(cs + [c], indices + [b], |cs|, to);
  }

  /** `path` may be added at `n`: the way so far has led there. */
  predicate Leads(n: Node, path: string) {
    if n.kind.Param? then n.path <= path && (|path| == |n.path| || path[|n.path|] == '/')
    else if IsCatchAllLeaf(n) then n.path == path
    else path != "" && Opens(n, path[0])
  }

  /** The new node may stand where the old one stood. */
  predicate SameShape(n: Node, m: Node) {
    && n.kind == m.kind
    && if n.kind.Param? then IsParam(m) && n.path == m.path
       else IsStatic(m) && (n.path == "" <==> m.path == "") && (n.path != "" ==> n.path[0] == m.path[0])
  }

  lemma AddChildShape(n: Node, path: string, h: Handlers)
    requires IsStatic(n) && !n.wildChild && n.path != "" && path != "" && path[0] !in n.indices
    ensures var r := AddChild(n, Wilds(path), path, h); r.Success? ==> SameShape(n, r.value)
  {
    var r := AddChild(n, Wilds(path), path, h);
    if r.Success? {
      if IsWild(path[0]) {
        var i := FirstWild(path);
        assert i == 0;
        assert path[0..] == path;
        ParamShape(path, h);
        var length := SegmentLength(path);
        assert path[1..length] == path[0 + 1..0 + length];
        assert IsParam(r.value.children[0]);
      } else {
        InsertShape(NewNode(Wilds(path), 1), path, h);
        var c := InsertChild(NewNode(Wilds(path), 1), Wilds(path), path, h).value;
        assert IsIndexed(c);
        AppendIndexed(n.children, n.indices, FrontPosition(n.children, |n.children|, 1), c, path[0]);
      }
    }
  }

  lemma SplitShape(n: Node, i: nat)
    requires IsStatic(n) && 0 < i < |n.path|
    ensures IsIndexed(LowerHalf(n, i)) && IsStatic(Split(n, i)) && SameShape(n, Split(n, i))
  {
    var lower := LowerHalf(n, i);
    assert IsStatic(lower);
    assert IsIndexed(lower);
    assert NoWild(n.path[..i]) && NoWild([n.path[i]]);
    assert IndexedList([lower], [n.path[i]]);
  }

  lemma StarLastTail(path: string, i: nat)
    requires StarLast(path) && i <= |path|
    ensures StarLast(path[i..])
  {
  }

  /** Nothing can be added at a catch-all. */
  lemma CatchAllRefuses(n: Node, path: string, h: Handlers)
    requires IsCatchAll(n) && path != "" && StarLast(path)
    ensures Walk(n, Wilds(path), path, h).Failure?
  {
    hide IsStatic, IsIndexed, AddChild;
    var c := n.children[0];
    var m := n.(priority := n.priority + 1, maxParams := Max(n.maxParams, Wilds(path)));
    assert path[0..] == path;
    assert Walk(n, Wilds(path), path, h) == Descend(n, m, Wilds(path), path, h);
    if Agrees(c, path) {
      assert path[1] == '*';
      assert c.path == path;
      CommonAll(path);
      assert Walk(c, Wilds(path), path, h) == PANIC;
    }
  }

  lemma {:induction false} CommonAll(s: string)
    ensures CommonPrefix(s, s) == |s|
  {
  }

  lemma {:induction false} CommonWhole(a: string, b: string)
    requires a <= b
    ensures CommonPrefix(b, a) == |a|
  {
  }

  /** The walk keeps the shape of the node it starts from. */
  lemma {:induction false} WalkShape(n: Node, path: string, h: Handlers)
    requires (IsStatic(n) || IsParam(n)) && Leads(n, path) && StarLast(path)
    ensures var r := Walk(n, Wilds(path), path, h); r.Success? ==> SameShape(n, r.value)
    decreases n, 1
  {
    hide AddChild, InsertChild;
    var r := Walk(n, Wilds(path), path, h);
    var m := n.(priority := n.priority + 1, maxParams := Max(n.maxParams, Wilds(path)));
    var i := CommonPrefix(path, n.path);
    if n.kind.Param? { CommonWhole(n.path, path); }
    if i < |n.path| {
      SplitShape(n, i);
      var top := Split(n, i).(priority := m.priority, maxParams := m.maxParams);
      assert SameShape(n, top);
      if i < |path| {
        WildsAfterStatic(path, i);
        AddChildShape(top, path[i..], h);
      }
    } else if i < |path| {
      StarLastTail(path, i);
      DescendShape(n, m, path, path[i..], h);
    }
  }

  lemma {:induction false} DescendShape(n: Node, m: Node, path: string, rest: string, h: Handlers)
    requires (IsStatic(n) || IsParam(n)) && Leads(n, path) && StarLast(rest)
    requires path == n.path + rest && rest != ""
    requires m == n.(priority := m.priority, maxParams := m.maxParams)
    ensures var r := Descend(n, m, Wilds(path), rest, h); r.Success? ==> SameShape(n, r.value)
    decreases n, 0, 1
  {
    hide AddChild, Walk, IsIndexed;
    NodesBelow(n);
    BelowWilds(n, path, rest);
    if IsParam(n) {
      BelowParam(n);
      if |n.children| == 1 {
        WalkShape(n.children[0], rest, h);
        ParamKeepsShape(n, m, Walk(n.children[0], Wilds(rest), rest, h));
      } else {
        ParamGetsChild(n, m, rest, h);
      }
    } else if n.wildChild {
      var c := n.children[0];
      if Agrees(c, rest) {
        WalkShape(c, rest, h);
      }
    } else {
      Below(n);
      IndexedShape(n, m, rest, h);
    }
  }

  lemma ParamKeepsShape(n: Node, m: Node, c: Result<Node>)
    requires IsParam(n) && |n.children| == 1 && m == n.(priority := m.priority, maxParams := m.maxParams)
    requires c.Success? ==> SameShape(n.children[0], c.value)
    ensures Replace(m, 0, 0, c).Success? ==> SameShape(n, Replace(m, 0, 0, c).value)
  {
    assert IsIndexed(n.children[0]);
    if c.Success? {
      assert IsIndexed(c.value);
      assert MoveUp(m.children[0 := c.value], 0, 0) == [c.value];
    }
  }

  lemma {:induction false} IndexedShape(n: Node, m: Node, rest: string, h: Handlers)
    requires IsStatic(n) && !n.wildChild && rest != "" && StarLast(rest) && (n.path == "" ==> rest[0] == '/')
    requires m == n.(priority := m.priority, maxParams := m.maxParams)
    ensures var r := Descend(n, m, Wilds(rest), rest, h); r.Success? ==> SameShape(n, r.value)
    decreases n, 0, 0
  {
    hide AddChild, Walk, IsIndexed;
    NodesBelow(n);
    Below(n);
    var k := IndexOf(n.indices, rest[0]);
    if k.None? {
      AddChildShape(m, rest, h);
    } else {
      var c := n.children[k.value];
      var d := Walk(c, Wilds(rest), rest, h);
      assert Descend(n, m, Wilds(rest), rest, h) == Replace(m, k.value, Target(n, k.value), d);
      if IsCatchAll(c) {
        CatchAllRefuses(c, rest, h);
      } else {
        IndexedIsStatic(c);
        WalkShape(c, rest, h);
        if d.Success? { ReplaceShape(n, m, k.value, d.value); }
      }
    }
  }

  lemma IndexedIsStatic(c: Node)
    requires IsIndexed(c) && !IsCatchAll(c)
    ensures c.kind.Static? && IsStatic(c)
  {
  }

  lemma ReplaceShape(n: Node, m: Node, k: nat, d: Node)
    requires IsStatic(n) && !n.wildChild && m == n.(priority := m.priority, maxParams := m.maxParams)
    requires k < |n.children| && IsStatic(n.children[k]) && n.children[k].kind.Static? && SameShape(n.children[k], d)
    ensures SameShape(n, Replace(m, k, Target(n, k), Success(d)).value)
  {
    assert IsIndexed(d) && IsIndexed(n.children[k]) && Opens(d, n.indices[k]);
    assert n.path != "" && IndexedList(n.children, n.indices);
    hide IsStatic, IsIndexed, DistinctChars;
    ReplaceIndexed(n.children, n.indices, k, Target(n, k), d);
    ListIsStatic(m, MoveUp(n.children[k := d], k, Target(n, k)), MoveUp(n.indices, k, Target(n, k)));
  }

  lemma ListIsStatic(n: Node, cs: seq<Node>, indices: string)
    requires (n.kind.Static? || n.kind.Root?) && !n.wildChild && n.path != "" && NoWild(n.path)
    requires IndexedList(cs, indices)
    ensures IsStatic(n.(children := cs, indices := indices))
  {
  }

  lemma BelowWilds(n: Node, path: string, rest: string)
    requires (IsStatic(n) || IsParam(n)) && path == n.path + rest
    ensures Wilds(rest) == if n.kind.Param? then Wilds(path) - 1 else Wilds(path)
  {
    assert path[|n.path|..] == rest && path[..|n.path|] == n.path;
    if n.kind.Param? {
      assert path[1..|n.path|] == n.path[1..];
      WildsAfterParam(path, |n.path|);
    } else {
      WildsAfterStatic(path, |n.path|);
    }
  }

  lemma ParamGetsChild(n: Node, m: Node, path: string, h: Handlers)
    requires IsParam(n) && n.children == [] && path != "" && path[0] == '/'
    requires m == n.(priority := m.priority, maxParams := m.maxParams)
    ensures var r := AddChild(m, Wilds(path), path, h); r.Success? ==> SameShape(n, r.value)
  {
    InsertShape(NewNode(Wilds(path), 1), path, h);
    var c := InsertChild(NewNode(Wilds(path), 1), Wilds(path), path, h);
    if c.Success? {
      assert IsIndexed(c.value);
      AppendIndexed([], "", 0, c.value, '/');
    }
  }
}
