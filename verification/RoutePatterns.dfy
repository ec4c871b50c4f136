/**
 Route patterns and what they match, independent of any tree: a pattern is a path in which
 `:name` stands for the rest of a segment, and a slash with `*name` at the end for all that follows.
 */
module RoutePatterns {
  import opened Wrappers

  datatype Binding = Binding(key: string, value: string)

  predicate IsWild(c: char) {
    c == ':' || c == '*'
  }

  predicate NoWild(s: string) {
    forall i | 0 <= i < |s| :: !IsWild(s[i])
  }

  /** The length of the first segment of `s`, which ends at a slash or with `s`. */
  function SegmentLength(s: string): (n: nat)
    ensures n <= |s|
    ensures forall i | 0 <= i < n :: s[i] != '/'
    ensures n < |s| ==> s[n] == '/'
  {
    if s == "" || s[0] == '/' then 0 else 1 + SegmentLength(s[1..])
  }

  /**
   The parameters that `path` supplies for `pattern`, if it matches. A `:name` takes all
   characters up to the next slash; these may be none, but some path must be left at that point.
   */
  function Match(pattern: string, path: string): Option<seq<Binding>>
    decreases |pattern|
  {
    if pattern == "" then (if path == "" then Some([]) else None)
    else if pattern[0] == ':' then
      if path == "" then None
      else
        var n, v := SegmentLength(pattern), SegmentLength(path);
        match Match(pattern[n..], path[v..])
        case None => None
        case Some(ps) => Some([Binding(pattern[1..n], path[..v])] + ps)
    else if |pattern| > 1 && pattern[0] == '/' && pattern[1] == '*' then
      if path != "" && path[0] == '/' then Some([Binding(pattern[2..], path)]) else None
    else if path != "" && path[0] == pattern[0] then Match(pattern[1..], path[1..])
    else None
  }

  lemma MatchStep(p: string, path: string)
    requires p != "" && p[0] != ':' && (|p| > 1 ==> p[1] != '*')
    ensures Match(p, path) == if path != "" && path[0] == p[0] then Match(p[1..], path[1..]) else None
  {
  }

  lemma PrefixStep(s: string, path: string)
    requires s != ""
    ensures s <= path <==> path != "" && path[0] == s[0] && s[1..] <= path[1..]
    ensures s <= path ==> path[1..][|s| - 1..] == path[|s|..]
  {
  }

  /** Static text in front of a pattern must be there literally. */
  lemma {:induction false} MatchStatic(s: string, rest: string, path: string)
    requires NoWild(s) && (rest == "" || rest[0] != '*')
    ensures Match(s + rest, path) == if s <= path then Match(rest, path[|s|..]) else None
    decreases |s|
  {
    hide Match;
    if s == "" {
      assert s + rest == rest && path[0..] == path;
    } else {
      var p := s + rest;
      assert p[0] == s[0] && p[1..] == s[1..] + rest;
      assert |p| > 1 ==> p[1] != '*';
      MatchStep(p, path);
      PrefixStep(s, path);
      if path != "" && path[0] == s[0] { MatchStatic(s[1..], rest, path[1..]); }
    }
  }

  /** A named parameter takes one segment of the path. */
  lemma MatchParam(name: string, rest: string, path: string)
    requires name != "" && name[0] == ':' && '/' !in name && (rest == "" || rest[0] == '/')
    ensures Match(name + rest, path) ==
              if path == "" then None
              else
                var v := SegmentLength(path);
                match Match(rest, path[v..])
                case None => None
                case Some(ps) => Some([Binding(name[1..], path[..v])] + ps)
  {
    var p := name + rest;
    SegmentIs(name, rest);
    assert p[|name|..] == rest && p[1..|name|] == name[1..];
  }

  lemma {:induction false} SegmentIs(name: string, rest: string)
    requires '/' !in name && (rest == "" || rest[0] == '/')
    ensures SegmentLength(name + rest) == |name|
  {
    if name == "" {
      assert name + rest == rest;
    } else {
      SegmentIs(name[1..], rest);
      assert (name + rest)[1..] == name[1..] + rest;
    }
  }

  // ---------------------------------------------------------------- values put into a pattern

  /** The path that a pattern stands for when its parameters have these values, in order. */
  function Fill(pattern: string, ps: seq<Binding>): string
    decreases |pattern|
  {
    if pattern == "" then ""
    else if pattern[0] == ':' && ps != [] then ps[0].value + Fill(pattern[SegmentLength(pattern)..], ps[1..])
    else if |pattern| > 1 && pattern[0] == '/' && pattern[1] == '*' && ps != [] then ps[0].value
    else [pattern[0]] + Fill(pattern[1..], ps)
  }

  /**
   The names of the parameters are those of the pattern. The value of a `:name` has no slash, and is not empty at the
   end of the path; that of a `*name` begins with the slash in front of it.
   */
  predicate Fitting(pattern: string, ps: seq<Binding>)
    decreases |pattern|
  {
    if pattern == "" then ps == []
    else if pattern[0] == ':' then
      var n := SegmentLength(pattern);
      && ps != [] && ps[0].key == pattern[1..n] && '/' !in ps[0].value
      && (n == |pattern| ==> ps[0].value != "") && Fitting(pattern[n..], ps[1..])
    else if |pattern| > 1 && pattern[0] == '/' && pattern[1] == '*' then
      |ps| == 1 && ps[0].key == pattern[2..] && ps[0].value != "" && ps[0].value[0] == '/'
    else Fitting(pattern[1..], ps)
  }

  /** A pattern matches a path with these parameters exactly if they fit and, put into it, give the path. */
  lemma {:induction false} MatchFills(pattern: string, path: string, ps: seq<Binding>)
    ensures Match(pattern, path) == Some(ps) <==> Fitting(pattern, ps) && Fill(pattern, ps) == path
    decreases |pattern|
  {
    if pattern == "" {
    } else if pattern[0] == ':' {
      FillParam(pattern, path, ps);
    } else if |pattern| > 1 && pattern[0] == '/' && pattern[1] == '*' {
      if |ps| == 1 { assert ps == [Binding(ps[0].key, ps[0].value)]; }
    } else {
      if path != "" { MatchFills(pattern[1..], path[1..], ps); }
      var f := Fill(pattern, ps);
      if f == path { assert f[1..] == path[1..] == Fill(pattern[1..], ps); }
      if path != "" && path[0] == pattern[0] { assert path == [path[0]] + path[1..]; }
    }
  }

  lemma {:induction false} FillParam(pattern: string, path: string, ps: seq<Binding>)
    requires pattern != "" && pattern[0] == ':'
    ensures Match(pattern, path) == Some(ps) <==> Fitting(pattern, ps) && Fill(pattern, ps) == path
    decreases |pattern|, 0
  {
    hide Match, Fitting, Fill;
    MatchSegment(pattern, path);
    FillSegment(pattern, ps);
    if ps != [] {
      var n, v := SegmentLength(pattern), SegmentLength(path);
      var first, rest, others := ps[0], pattern[n..], ps[1..];
      assert ps == [first] + others;
      MatchFills(rest, path[v..], others);
      if Match(pattern, path) == Some(ps) {
        assert first == Binding(pattern[1..n], path[..v]) && Match(rest, path[v..]) == Some(others);
        assert path == path[..v] + path[v..];
        if rest == "" { MatchEnd(path[v..], others); }
      }
      if Fitting(pattern, ps) && first.value + Fill(rest, others) == path {
        FillStarts(rest, others);
        SegmentIs(first.value, Fill(rest, others));
        assert path[..v] == first.value && path[v..] == Fill(rest, others);
      }
    }
  }

  lemma MatchSegment(pattern: string, path: string)
    requires pattern != "" && pattern[0] == ':'
    ensures var n, v := SegmentLength(pattern), SegmentLength(path);
            var tail := if path == "" then None else Match(pattern[n..], path[v..]);
            Match(pattern, path) ==
            match tail case None => None case Some(ps) => Some([Binding(pattern[1..n], path[..v])] + ps)
  {
  }

  lemma MatchEnd(path: string, ps: seq<Binding>)
    requires Match("", path) == Some(ps)
    ensures path == "" && ps == []
  {
  }

  lemma FillSegment(pattern: string, ps: seq<Binding>)
    requires pattern != "" && pattern[0] == ':'
    ensures ps != [] ==> Fill(pattern, ps) == ps[0].value + Fill(pattern[SegmentLength(pattern)..], ps[1..])
    ensures Fitting(pattern, ps) <==>
            var n := SegmentLength(pattern);
            && ps != [] && ps[0].key == pattern[1..n] && '/' !in ps[0].value
            && (n == |pattern| ==> ps[0].value != "") && Fitting(pattern[n..], ps[1..])
  {
  }

  /** Behind a `:name` there is a slash, or nothing. */
  lemma FillStarts(rest: string, ps: seq<Binding>)
    requires rest == "" || rest[0] == '/'
    requires Fitting(rest, ps)
    ensures Fill(rest, ps) == "" || Fill(rest, ps)[0] == '/'
    ensures rest != "" ==> Fill(rest, ps) != ""
  {
  }
}
