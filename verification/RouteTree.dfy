/**
 The radix tree of routes: its nodes, the routes it holds, and the walk that looks a path up.
 On a well-formed tree the walk finds exactly what trying every registered pattern would find,
 and at most one pattern matches.
 */
module RouteTree {
  import opened Wrappers
  import opened RoutePatterns

  /** The identity of a chain of handlers. */
  type Handlers = int

  datatype Kind = Static | Root | Param | CatchAll

  datatype Node = Node(path: string, wildChild: bool, kind: Kind, maxParams: int, indices: string,
                       children: seq<Node>, handlers: Option<Handlers>, priority: int)

  datatype Found = Found(pattern: string, handlers: Handlers, params: seq<Binding>)

  // ---------------------------------------------------------------- the routes of a tree

  /** The route `pattern` with handlers `h` lies below `n`: node paths spell the pattern out. */
  ghost predicate Has(n: Node, pattern: string, h: Handlers) {
    && n.path <= pattern
    && var rest := pattern[|n.path|..];
       || (rest == "" && n.handlers == Some(h))
       || exists i :: 0 <= i < |n.children| && Has(n.children[i], rest, h)
  }

  // ---------------------------------------------------------------- shape

  predicate NameChar(c: char) {
    c != '/' && !IsWild(c)
  }

  /** The node behind a catch-all, which holds slash, star and name. */
  predicate IsCatchAllLeaf(n: Node) {
    && n.kind.CatchAll? && !n.wildChild && n.indices == "" && n.children == [] && n.handlers.Some?
    && |n.path| > 2 && n.path[0] == '/' && n.path[1] == '*'
    && forall i | 2 <= i < |n.path| :: NameChar(n.path[i])
  }

  /** The node in front of it, with an empty path. */
  predicate IsCatchAll(n: Node) {
    && n.kind.CatchAll? && n.wildChild && n.path == "" && n.indices == "" && n.handlers.None?
    && |n.children| == 1 && IsCatchAllLeaf(n.children[0])
  }

  predicate IsParamName(s: string) {
    |s| > 1 && s[0] == ':' && forall i | 1 <= i < |s| :: NameChar(s[i])
  }

  predicate DistinctChars(s: string) {
    forall i, j | 0 <= i < j < |s| :: s[i] != s[j]
  }

  /** Everything below `n` begins with `c`. */
  predicate Opens(n: Node, c: char) {
    if n.path != "" then n.path[0] == c else c == '/'
  }

  predicate IsStatic(n: Node)
    decreases n, 0
  {
    && (n.kind.Static? || n.kind.Root?)
    && NoWild(n.path)
    && if n.wildChild then n.path != "" && n.indices == "" && |n.children| == 1 && IsParam(n.children[0])
       else
         && |n.indices| == |n.children| && NoWild(n.indices) && DistinctChars(n.indices)
         && (forall i | 0 <= i < |n.children| :: IsIndexed(n.children[i]) && Opens(n.children[i], n.indices[i]))
         && (n.path == "" ==> n.handlers.None? && |n.children| == 1 && IsCatchAll(n.children[0]))
  }

  predicate IsIndexed(n: Node)
    decreases n, 1
  {
    IsCatchAll(n) || (n.kind.Static? && IsStatic(n))
  }

  predicate IsParam(n: Node)
    decreases n, 0
  {
    && n.kind.Param? && !n.wildChild && IsParamName(n.path)
    && (n.indices == "" || n.indices == "/")
    && |n.indices| <= |n.children| <= 1
    && forall i | 0 <= i < |n.children| ::
         IsIndexed(n.children[i]) && !IsCatchAll(n.children[i]) && Opens(n.children[i], '/')
  }

  /** Where a walk may stand. */
  predicate IsWalkable(n: Node) {
    IsStatic(n) || IsCatchAll(n)
  }

  /** The nodes below a walkable one. */
  lemma Below(n: Node)
    requires IsWalkable(n)
    ensures !n.wildChild ==> |n.indices| == |n.children| && NoWild(n.indices) && DistinctChars(n.indices)
    ensures !n.wildChild ==> forall i | 0 <= i < |n.children| ::
              IsWalkable(n.children[i]) && IsIndexed(n.children[i]) && Opens(n.children[i], n.indices[i])
    ensures n.wildChild ==> |n.children| == 1
    ensures n.wildChild && n.children[0].kind.CatchAll? ==> IsCatchAll(n) && IsCatchAllLeaf(n.children[0])
    ensures n.wildChild && !n.children[0].kind.CatchAll? ==> n.path != "" && IsParam(n.children[0])
    ensures NoWild(n.path)
  {
    if !n.wildChild {
      forall i | 0 <= i < |n.children| ensures IsWalkable(n.children[i]) {
        assert IsIndexed(n.children[i]);
      }
    } else if IsStatic(n) {
      assert IsParam(n.children[0]);
    }
  }

  lemma BelowParam(c: Node)
    requires IsParam(c)
    ensures c.children != [] ==> |c.children| == 1 && IsWalkable(c.children[0]) && IsIndexed(c.children[0])
    ensures c.children != [] ==> Opens(c.children[0], '/')
  {
  }

  lemma HasStart(n: Node, c: char, p: string, h: Handlers)
    requires IsIndexed(n) && Opens(n, c) && Has(n, p, h)
    ensures p != "" && p[0] == c
  {
  }

  // ---------------------------------------------------------------- lookup

  function IndexOf(s: string, c: char): (k: Option<nat>)
    ensures k.Some? ==> k.value < |s| && s[k.value] == c && forall i | 0 <= i < k.value :: s[i] != c
    ensures k.None? ==> c !in s
  {
    if s == "" then None
    else if s[0] == c then Some(0)
    else match IndexOf(s[1..], c) case None => None case Some(k) => Some(k + 1)
  }

  /** What was found below a node, seen from the node. */
  function Prepend(path: string, f: Option<Found>): Option<Found> {
    match f
    case None => None
    case Some(Found(pattern, h, ps)) => Some(Found(path + pattern, h, ps))
  }

  function Bind(b: Binding, f: Option<Found>): Option<Found> {
    match f
    case None => None
    case Some(Found(pattern, h, ps)) => Some(Found(pattern, h, [b] + ps))
  }

  function HandlersOf(n: Node, params: seq<Binding>): Option<Found> {
    match n.handlers case None => None case Some(h) => Some(Found(n.path, h, params))
  }

  /** The walk as a function of the node and what is left of the path. */
  function Lookup(n: Node, path: string): Option<Found>
    requires IsWalkable(n)
    decreases n
  {
    Below(n);
    if path == n.path then HandlersOf(n, [])
    else if !(n.path <= path) then None
    else
      var rest := path[|n.path|..];
      if !n.wildChild then
        match IndexOf(n.indices, rest[0])
        case None => None
        case Some(i) => Prepend(n.path, Lookup(n.children[i], rest))
      else
        var c := n.children[0];
        if c.kind.CatchAll? then Prepend(n.path, HandlersOf(c, [Binding(c.path[2..], rest)]))
        else Prepend(n.path, LookupParam(c, rest))
  }

  function LookupParam(c: Node, path: string): Option<Found>
    requires IsParam(c)
    decreases c
  {
    BelowParam(c);
    var end := SegmentLength(path);
    var p := Binding(c.path[1..], path[..end]);
    if end == |path| then HandlersOf(c, [p])
    else if c.children == [] then None
    else Bind(p, Prepend(c.path, Lookup(c.children[0], path[end..])))
  }

  // ---------------------------------------------------------------- lookup is matching

  lemma {:induction false} LookupSound(n: Node, path: string)
    requires IsWalkable(n) && (IsCatchAll(n) ==> path != "" && path[0] == '/')
    ensures var f := Lookup(n, path);
            f.Some? ==>
              Has(n, f.value.pattern, f.value.handlers) && Match(f.value.pattern, path) == Some(f.value.params)
    decreases n
  {
    hide IsStatic, IsIndexed, IsParam, Match;
    Below(n);
    var f := Lookup(n, path);
    if path == n.path {
      if f.Some? {
        MatchStatic(n.path, "", path);
        MatchEmpty();
        assert n.path + "" == n.path && path[|path|..] == "";
      }
    } else if n.path <= path && f.Some? {
      var rest := path[|n.path|..];
      if !n.wildChild {
        var i := IndexOf(n.indices, rest[0]).value;
        var c := n.children[i];
        LookupSound(c, rest);
        var g := Lookup(c, rest).value;
        HasStart(c, n.indices[i], g.pattern, g.handlers);
        StepDown(n, i, g.pattern, g.handlers, path);
      } else {
        var c := n.children[0];
        if c.kind.CatchAll? {
          LeafMatches(c, rest);
          StepDown(n, 0, c.path, c.handlers.value, path);
        } else {
          ParamSound(c, rest);
          var g := LookupParam(c, rest).value;
          StepDown(n, 0, g.pattern, g.handlers, path);
        }
      }
    }
  }

  lemma MatchEmpty()
    ensures Match("", "") == Some([])
    ensures forall path :: path != "" ==> Match("", path) == None
  {
  }

  /** From a child's pattern to the node's. */
  lemma StepDown(n: Node, i: nat, p: string, h: Handlers, path: string)
    requires i < |n.children| && Has(n.children[i], p, h)
    requires NoWild(n.path) && n.path <= path && p != "" && p[0] != '*'
    ensures Has(n, n.path + p, h)
    ensures Match(n.path + p, path) == Match(p, path[|n.path|..])
  {
    assert (n.path + p)[|n.path|..] == p;
    MatchStatic(n.path, p, path);
  }

  lemma LeafMatches(c: Node, path: string)
    requires IsCatchAllLeaf(c)
    ensures Has(c, c.path, c.handlers.value)
    ensures path != "" && path[0] == '/' ==> Match(c.path, path) == Some([Binding(c.path[2..], path)])
    ensures path == "" || path[0] != '/' ==> Match(c.path, path) == None
  {
  }

  lemma {:induction false} ParamSound(c: Node, path: string)
    requires IsParam(c) && path != ""
    ensures var f := LookupParam(c, path);
            f.Some? ==>
              Has(c, f.value.pattern, f.value.handlers) && Match(f.value.pattern, path) == Some(f.value.params)
                        && f.value.pattern != "" && f.value.pattern[0] == ':'
    decreases c
  {
    hide IsStatic, IsIndexed, Match;
    BelowParam(c);
    MatchEmpty();
    var end := SegmentLength(path);
    var f := LookupParam(c, path);
    if f.Some? {
      if end == |path| {
        MatchParam(c.path, "", path);
        assert c.path + "" == c.path && path[end..] == "";
        assert [Binding(c.path[1..], path[..end])] + [] == [Binding(c.path[1..], path[..end])];
      } else {
        var d := c.children[0];
        LookupSound(d, path[end..]);
        var g := Lookup(d, path[end..]).value;
        HasStart(d, '/', g.pattern, g.handlers);
        MatchParam(c.path, g.pattern, path);
        assert (c.path + g.pattern)[|c.path|..] == g.pattern;
      }
    }
  }

  lemma {:induction false} LookupComplete(n: Node, path: string, p: string, h: Handlers)
    requires IsWalkable(n) && Has(n, p, h) && Match(p, path).Some?
    ensures Lookup(n, path) == Some(Found(p, h, Match(p, path).value))
    decreases n
  {
    hide IsStatic, IsIndexed, IsParam, Match;
    Below(n);
    MatchEmpty();
    var q := p[|n.path|..];
    assert p == n.path + q;
    if q == "" && n.handlers == Some(h) {
      MatchStatic(n.path, "", path);
      assert n.path + "" == n.path;
    } else {
      var i :| 0 <= i < |n.children| && Has(n.children[i], q, h);
      var c := n.children[i];
      if !n.wildChild {
        HasStart(c, n.indices[i], q, h);
        MatchStatic(n.path, q, path);
        var rest := path[|n.path|..];
        MatchHead(q, rest);
        var k := IndexOf(n.indices, rest[0]).value;
        assert k == i;
        LookupComplete(c, rest, q, h);
      } else if c.kind.CatchAll? {
        assert q == c.path && p == q;
        LeafMatches(c, path);
        assert path[0..] == path;
      } else {
        ParamStart(c, q, h);
        MatchStatic(n.path, q, path);
        ParamComplete(c, path[|n.path|..], q, h);
      }
    }
  }

  lemma ParamStart(c: Node, p: string, h: Handlers)
    requires IsParam(c) && Has(c, p, h)
    ensures p != "" && p[0] == ':'
  {
  }

  /** A pattern that begins with an ordinary character matches paths that begin with it. */
  lemma MatchHead(p: string, path: string)
    requires p != "" && p[0] != ':' && Match(p, path).Some?
    ensures path != "" && path[0] == p[0]
  {
  }

  lemma {:induction false} ParamComplete(c: Node, path: string, p: string, h: Handlers)
    requires IsParam(c) && Has(c, p, h) && Match(p, path).Some?
    ensures path != "" && LookupParam(c, path) == Some(Found(p, h, Match(p, path).value))
    decreases c
  {
    hide IsStatic, IsIndexed, Match;
    BelowParam(c);
    MatchEmpty();
    var q := p[|c.path|..];
    assert p == c.path + q;
    var end := SegmentLength(path);
    if q == "" && c.handlers == Some(h) {
      MatchParam(c.path, "", path);
      assert c.path + "" == c.path;
      assert [Binding(c.path[1..], path[..end])] + [] == [Binding(c.path[1..], path[..end])];
    } else {
      var i :| 0 <= i < |c.children| && Has(c.children[i], q, h);
      var d := c.children[i];
      HasStart(d, '/', q, h);
      MatchParam(c.path, q, path);
      MatchHead(q, path[end..]);
      LookupComplete(d, path[end..], q, h);
    }
  }

  /** No path is claimed by two routes. */
  lemma AtMostOneMatch(n: Node, path: string, p: string, h: Handlers, q: string, g: Handlers)
    requires IsWalkable(n) && Has(n, p, h) && Has(n, q, g) && Match(p, path).Some? && Match(q, path).Some?
    ensures p == q && h == g
  {
    LookupComplete(n, path, p, h);
    LookupComplete(n, path, q, g);
  }
}
