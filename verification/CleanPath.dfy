/**
 Canonical URL paths. The reference cuts the path at its slashes, keeps a stack of elements,
 and joins them again; the code does it in one pass, with a buffer that is only made when the
 output first departs from the input.
 */
module CleanPath {
  import opened Strings

  // ---------------------------------------------------------------- reference

  /** One element: nothing, the current directory, the parent, or a name. */
  function Step(stack: seq<string>, e: string): seq<string> {
    if e == "" || e == "." then stack
    else if e == ".." then (if stack == [] then [] else stack[..|stack| - 1])
    else stack + [e]
  }

  function Resolve(stack: seq<string>, es: seq<string>): seq<string>
    decreases |es|
  {
    if es == [] then stack else Resolve(Step(stack, es[0]), es[1..])
  }

  /** The rooted path of a list of names. */
  function Render(stack: seq<string>): string {
    if stack == [] then "/"
    else if |stack| == 1 then "/" + stack[0]
    else Render(stack[..|stack| - 1]) + "/" + stack[|stack| - 1]
  }

  function Last(p: string): string {
    Split(p, '/')[|Split(p, '/')| - 1]
  }

  /** A final slash is kept, and a final dot counts as one. */
  predicate Trailing(p: string) {
    (|p| > 2 && p[|p| - 1] == '/') || Last(p) == "."
  }

  function Names(p: string): seq<string> {
    Resolve([], Split(p, '/'))
  }

  function Clean(p: string): string {
    Render(Names(p)) + if Trailing(p) && Names(p) != [] then "/" else ""
  }

  predicate Proper(e: string) {
    e != "" && e != "." && e != ".." && '/' !in e
  }

  predicate AllProper(es: seq<string>) {
    forall i | 0 <= i < |es| :: Proper(es[i])
  }

  // ---------------------------------------------------------------- what the reference gives

  lemma {:induction false} ResolveProper(stack: seq<string>, es: seq<string>)
    requires AllProper(stack) && forall i | 0 <= i < |es| :: '/' !in es[i]
    ensures AllProper(Resolve(stack, es))
    decreases |es|
  {
    if es != [] { ResolveProper(Step(stack, es[0]), es[1..]); }
  }

  /** No empty element, no dots: the output names what is reached, from the root. */
  lemma NamesProper(p: string)
    ensures AllProper(Names(p))
  {
    SplitWithout(p, '/');
    ResolveProper([], Split(p, '/'));
  }

  lemma {:induction false} RenderLength(stack: seq<string>)
    requires AllProper(stack)
    ensures var r := Render(stack);
            && |r| >= 1 && r[0] == '/' && (|r| == 1 <==> stack == [])
            && (stack != [] ==> |r| >= 2 && r[|r| - 1] != '/')
    decreases |stack|
  {
    if stack != [] {
      var e := stack[|stack| - 1];
      assert Proper(e);
      assert e[|e| - 1] in e;
      if |stack| > 1 { RenderLength(stack[..|stack| - 1]); }
    }
  }

  /** Rendering with one more name. */
  lemma RenderPush(stack: seq<string>, e: string)
    ensures Render(stack + [e]) == if stack == [] then "/" + e else Render(stack) + "/" + e
  {
  }

  lemma {:induction false} SplitRender(stack: seq<string>)
    requires AllProper(stack) && stack != []
    ensures Split(Render(stack), '/') == [""] + stack
    decreases |stack|
  {
    hide Head, Split;
    var e := stack[|stack| - 1];
    assert Proper(e);
    SplitAt(e, "", '/');
    if |stack| == 1 {
      assert "/" + e == "" + "/" + e;
      SplitAt("", e, '/');
      assert stack == [e];
    } else {
      var front := stack[..|stack| - 1];
      SplitRender(front);
      SplitAppend(Render(front), e, '/');
      assert [""] + front + [e] == [""] + stack;
    }
  }

  lemma {:induction false} ResolveAppend(stack: seq<string>, a: seq<string>, b: seq<string>)
    ensures Resolve(stack, a + b) == Resolve(Resolve(stack, a), b)
    decreases |a|
  {
    if a == [] {
      assert a + b == b;
    } else {
      assert (a + b)[0] == a[0] && (a + b)[1..] == a[1..] + b;
      ResolveAppend(Step(stack, a[0]), a[1..], b);
    }
  }

  lemma {:induction false} ResolveNames(stack: seq<string>, es: seq<string>)
    requires AllProper(es)
    ensures Resolve(stack, es) == stack + es
    decreases |es|
  {
    if es != [] {
      assert Proper(es[0]);
      ResolveNames(stack + [es[0]], es[1..]);
      assert stack + [es[0]] + es[1..] == stack + es;
    }
  }

  lemma ResolveSingle(stack: seq<string>, e: string)
    ensures Resolve(stack, [e]) == Step(stack, e)
  {
  }

  /** A clean path of given names, with or without a final slash, has these names and that slash. */
  lemma CleanParts(stack: seq<string>, slash: bool)
    requires AllProper(stack) && stack != []
    ensures var p := Render(stack) + if slash then "/" else "";
            Names(p) == stack && (Trailing(p) <==> slash)
  {
    hide Head, Split, Render;
    RenderLength(stack);
    SplitRender(stack);
    ResolveAppend([], [""], stack);
    ResolveSingle([], "");
    ResolveNames([], stack);
    assert [] + stack == stack;
    assert Proper(stack[|stack| - 1]);
    if slash {
      var p := Render(stack) + "/";
      assert p == Render(stack) + "/" + "";
      SplitAppend(Render(stack), "", '/');
      SplitNothing();
      ResolveAppend([], [""] + stack, [""]);
      ResolveSingle(stack, "");
    } else {
      assert Render(stack) + "" == Render(stack);
      assert ([""] + stack)[|stack|] == stack[|stack| - 1];
    }
  }

  /** Cleaning is idempotent. */
  lemma CleanIdempotent(p: string)
    ensures Clean(Clean(p)) == Clean(p)
  {
    NamesProper(p);
    var stack, slash := Names(p), Trailing(p) && Names(p) != [];
    if stack == [] {
      assert Clean(p) == "/" + "" == "/";
      assert Split("/", '/') == ["", ""] by { assert "/" == "" + "/" + ""; SplitAt("", "", '/'); }
      ResolveAppend([], [""], [""]);
      ResolveSingle([], "");
      assert ["", ""] == [""] + [""];
    } else {
      CleanParts(stack, slash);
    }
  }

  // ---------------------------------------------------------------- the four rules

  /** The list without the elements from `i` up to `j`. */
  function Cut(es: seq<string>, i: nat, j: nat): seq<string>
    requires i <= j <= |es|
  {
    es[..i] + es[j..]
  }

  /**
   The rules, applied iteratively: an empty element goes, for two slashes are one; a dot goes; two dots go with the name
   in front of them; and at the root two dots go by themselves.
   */
  ghost predicate Reduces(es: seq<string>, fs: seq<string>) {
    || (exists i | 0 <= i < |es| :: (es[i] == "" || es[i] == ".") && fs == Cut(es, i, i + 1))
    || (exists i | 0 <= i < |es| - 1 :: Proper(es[i]) && es[i + 1] == ".." && fs == Cut(es, i, i + 2))
    || (es != [] && es[0] == ".." && fs == Cut(es, 0, 1))
  }

  lemma ResolveParts(es: seq<string>, i: nat, j: nat)
    requires i <= j <= |es|
    ensures Resolve([], es) == Resolve(Resolve(Resolve([], es[..i]), es[i..j]), es[j..])
    ensures Resolve([], Cut(es, i, j)) == Resolve(Resolve([], es[..i]), es[j..])
  {
    hide Resolve;
    ResolveAppend([], es[..i], es[i..]);
    ResolveAppend(Resolve([], es[..i]), es[i..j], es[j..]);
    assert es[..i] + es[i..] == es && es[i..j] + es[j..] == es[i..];
    ResolveAppend([], es[..i], es[j..]);
  }

  lemma StillElements(es: seq<string>, fs: seq<string>)
    requires Reduces(es, fs) && forall i | 0 <= i < |es| :: '/' !in es[i]
    ensures forall i | 0 <= i < |fs| :: '/' !in fs[i]
  {
  }

  /** Whatever rule is applied, and wherever, the names stay the same. */
  lemma RulesKeep(es: seq<string>, fs: seq<string>)
    requires Reduces(es, fs)
    ensures Resolve([], fs) == Resolve([], es)
  {
    hide Proper;
    if i :| 0 <= i < |es| && (es[i] == "" || es[i] == ".") && fs == Cut(es, i, i + 1) {
      ResolveParts(es, i, i + 1);
      assert es[i..i + 1] == [es[i]];
      ResolveSingle(Resolve([], es[..i]), es[i]);
    } else if i :| 0 <= i < |es| - 1 && Proper(es[i]) && es[i + 1] == ".." && fs == Cut(es, i, i + 2) {
      ResolveParts(es, i, i + 2);
      assert es[i..i + 2] == [es[i]] + [".."];
      var stack := Resolve([], es[..i]);
      ResolveAppend(stack, [es[i]], [".."]);
      NameAndBack(stack, es[i]);
    } else {
      ResolveParts(es, 0, 1);
      assert es[0..1] == [".."] && es[..0] == [];
      ResolveSingle([], "..");
    }
  }

  lemma NameAndBack(stack: seq<string>, e: string)
    requires Proper(e)
    ensures Resolve(Resolve(stack, [e]), [".."]) == stack
  {
    ResolveSingle(stack, e);
    ResolveSingle(stack + [e], "..");
    assert (stack + [e])[..|stack|] == stack;
  }

  /** The rules come to an end exactly at lists of names, and each of them shortens the list. */
  lemma RulesEnd(es: seq<string>)
    requires forall i | 0 <= i < |es| :: '/' !in es[i]
    ensures (forall fs :: !Reduces(es, fs)) <==> AllProper(es)
    ensures forall fs | Reduces(es, fs) :: |fs| < |es|
  {
    if !AllProper(es) {
      var i := FirstImproper(es);
      if es[i] == ".." && i > 0 {
        assert Proper(es[i - 1]) && es[i - 1 + 1] == "..";
        assert Reduces(es, Cut(es, i - 1, i + 1));
      } else if es[i] == ".." {
        assert Reduces(es, Cut(es, 0, 1));
      } else {
        assert Reduces(es, Cut(es, i, i + 1));
      }
    }
  }

  lemma FirstImproper(es: seq<string>) returns (i: nat)
    requires !AllProper(es)
    ensures i < |es| && !Proper(es[i]) && forall j | 0 <= j < i :: Proper(es[j])
  {
    i := 0;
    while Proper(es[i])
      invariant i < |es| && forall j | 0 <= j < i :: Proper(es[j])
      decreases |es| - i
    {
      if i + 1 == |es| { assert AllProper(es); }
      i := i + 1;
    }
  }

  /** Some number of rules, one after the other. */
  ghost predicate ReducesTo(es: seq<string>, fs: seq<string>, steps: nat) {
    if steps == 0 then es == fs else exists gs :: Reduces(es, gs) && ReducesTo(gs, fs, steps - 1)
  }

  /** From a list of elements the rules lead to one list of names, and it is the one of the cleaned path. */
  lemma {:induction false} RulesLeadTo(es: seq<string>, fs: seq<string>, steps: nat)
    requires (forall i | 0 <= i < |es| :: '/' !in es[i]) && ReducesTo(es, fs, steps) && AllProper(fs)
    ensures fs == Resolve([], es)
    decreases steps
  {
    if steps == 0 {
      ResolveNames([], fs);
      assert [] + fs == fs;
    } else {
      var gs :| Reduces(es, gs) && ReducesTo(gs, fs, steps - 1);
      hide Reduces, Resolve;
      StillElements(es, gs);
      RulesKeep(es, gs);
      RulesLeadTo(gs, fs, steps - 1);
    }
  }

  lemma {:induction false} RulesLead(es: seq<string>) returns (steps: nat)
    requires forall i | 0 <= i < |es| :: '/' !in es[i]
    ensures ReducesTo(es, Resolve([], es), steps)
    decreases |es|
  {
    hide Reduces, Resolve, AllProper;
    RulesEnd(es);
    if AllProper(es) {
      ResolveNames([], es);
      assert [] + es == es;
      steps := 0;
    } else {
      var gs :| Reduces(es, gs);
      StillElements(es, gs);
      RulesKeep(es, gs);
      var n := RulesLead(gs);
      steps := n + 1;
    }
  }

  /** The names of a cleaned path are what the four rules make of the elements of the path. */
  lemma NamesByRules(p: string, fs: seq<string>)
    ensures fs == Names(p) <==> AllProper(fs) && exists steps :: ReducesTo(Split(p, '/'), fs, steps)
  {
    hide Split, Resolve;
    SplitWithout(p, '/');
    NamesProper(p);
    if fs == Names(p) {
      var steps := RulesLead(Split(p, '/'));
      assert ReducesTo(Split(p, '/'), fs, steps);
    } else if AllProper(fs) {
      if steps :| ReducesTo(Split(p, '/'), fs, steps) { RulesLeadTo(Split(p, '/'), fs, steps); }
    }
  }

  // ---------------------------------------------------------------- unrooted paths

  lemma SplitSlash(s: string)
    ensures Split("/" + s, '/') == [""] + Split(s, '/') && Last("/" + s) == Last(s)
  {
  }

  lemma ResolveSlash(stack: seq<string>, s: string)
    ensures Resolve(stack, Split("/" + s, '/')) == Resolve(stack, Split(s, '/'))
  {
  }

  lemma ShortPath(e: string)
    requires '/' !in e
    ensures Names(e + "/") == Step([], e) && Last(e + "/") == ""
  {
    hide Head, Split;
    assert e + "/" == e + "/" + "";
    SplitAt(e, "", '/');
    SplitNothing();
    assert Split(e + "/", '/') == [e] + [""];
    ResolveAppend([], [e], [""]);
    ResolveSingle([], e);
    ResolveSingle(Step([], e), "");
  }

  /** A missing root is supplied, except that a one-letter path then loses its final slash. */
  lemma UnrootedExact(p: string)
    requires p != "" && p[0] != '/'
    ensures Clean("/" + p) == Clean(p) <==> !(|p| == 2 && p[1] == '/' && p[0] != '.')
  {
    hide Head, Split, Resolve, Render, Last, Step;
    SplitSlash(p);
    ResolveSlash([], p);
    assert Names("/" + p) == Names(p);
    NamesProper(p);
    RenderLength(Names(p));
    var r := Render(Names(p));
    assert |r + "/"| == |r| + 1 && r + "" == r;
    if |p| == 2 && p[1] == '/' {
      var e := [p[0]];
      assert p == e + "/";
      ShortPath(e);
      StepKinds([], e);
    }
  }

  /** `a/` loses its slash, which `/a/` keeps. */
  lemma UnrootedCounterexample()
    ensures Clean("a/") != Clean("/a/")
  {
    UnrootedExact("a/");
    assert "/" + "a/" == "/a/";
  }

  // ---------------------------------------------------------------- the code

  /** What has been written: a part of the input as long as there is no buffer. */
  ghost function Out(buf: array?<char>, p: string, w: nat): string
    requires if buf == null then w <= |p| else w <= buf.Length
    reads if buf == null then {} else {buf}
  {
    if buf == null then p[..w] else buf[..w]
  }

  method BufApp(buf: array?<char>, p: string, w: nat, c: char) returns (b: array?<char>)
    requires w < |p| || (buf != null && w < buf.Length)
    requires buf != null ==> |p| <= buf.Length
    modifies if buf == null then {} else {buf}
    ensures b == buf || (buf == null && fresh(b)) || (buf == null && b == null)
    ensures b != null && buf == null ==> b.Length == |p|
    ensures w < if b == null then |p| else b.Length
    ensures Out(b, p, w + 1) == old(Out(buf, p, w)) + [c]
  {
    b := buf;
    if b == null {
      if p[w] == c {
        assert p[..w + 1] == p[..w] + [c];
        return;
      }
      b := new char[|p|](_ => '/');
      forall i | 0 <= i < w {
        b[i] := p[i];
      }
      assert b[..w] == p[..w];
    }
    b[w] := c;
    assert b[..w + 1] == b[..w] + [c];
  }

  /** Back to the slash in front of the last name. */
  method Backtrack(buf: array?<char>, p: string, w: nat, ghost stack: seq<string>) returns (w': nat)
    requires AllProper(stack) && stack != [] && (if buf == null then w <= |p| else w <= buf.Length)
    requires Out(buf, p, w) == Render(stack)
    ensures w' < w && Out(buf, p, w') == Render(stack[..|stack| - 1])
  {
    ghost var out, front := Out(buf, p, w), stack[..|stack| - 1];
    ghost var e := stack[|stack| - 1];
    ghost var k := |Render(front)|;
    RenderLength(stack);
    RenderLength(front);
    RenderLast(stack);
    w' := w - 1;
    while w' > 1 && (if buf == null then p[w'] else buf[w']) != '/'
      invariant k <= w' < w
    {
      assert (if buf == null then p[w'] else buf[w']) == out[w'];
      w' := w' - 1;
    }
    if w' > 1 { assert (if buf == null then p[w'] else buf[w']) == out[w']; }
    assert w' == k;
    assert Out(buf, p, w') == out[..w'];
  }

  /** The last name takes the end of the rendered path, behind a slash or the root. */
  lemma RenderLast(stack: seq<string>)
    requires AllProper(stack) && stack != []
    ensures var r, k := Render(stack), |Render(stack[..|stack| - 1])|;
            && k < |r| && r[..k] == Render(stack[..|stack| - 1]) && (k > 1 ==> r[k] == '/')
            && forall i | k < i < |r| :: r[i] != '/'
  {
  }

  /** The buffer, if there is one, has room for the input, and for the root in front of it if that was missing. */
  ghost predicate Room(buf: array?<char>, p: string, w: nat, off: nat) {
    off <= 1 && if buf == null then off == 0 && w <= |p| else buf.Length == |p| + off && w <= buf.Length
  }

  /** Copy a name behind what is written. */
  method CopyName(buf: array?<char>, p: string, r: nat, w: nat, ghost off: nat, ghost stack: seq<string>)
    returns (b: array?<char>, r': nat, w': nat)
    requires r < |p| && Room(buf, p, w, off) && w <= r + off && (w > 1 ==> w < r + off)
    requires AllProper(stack) && Out(buf, p, w) == Render(stack) && Proper(Head(p[r..], '/'))
    modifies if buf == null then {} else {buf}
    ensures b == buf || (b != null && fresh(b))
    ensures r' == r + |Head(p[r..], '/')| <= |p| && Room(b, p, w', off) && w' <= r' + off
    ensures Out(b, p, w') == Render(stack + [Head(p[r..], '/')])
  {
    hide Head, Render, Proper;
    RenderLength(stack);
    RenderPush(stack, Head(p[r..], '/'));
    HeadRange(p, r, '/');
    b, w' := buf, w;
    if w' > 1 {
      b := BufApp(b, p, w', '/');
      w' := w' + 1;
    }
    b, r', w' := CopyChars(b, p, r, w', off, |Head(p[r..], '/')|);
  }

  /** Copy up to the next slash, `n` characters on. */
  method CopyChars(buf: array?<char>, p: string, r: nat, w: nat, ghost off: nat, ghost n: nat)
    returns (b: array?<char>, r': nat, w': nat)
    requires Room(buf, p, w, off) && w <= r + off && r + n <= |p| && (r + n < |p| ==> p[r + n] == '/')
    requires forall i | r <= i < r + n :: p[i] != '/'
    modifies if buf == null then {} else {buf}
    ensures b == buf || (b != null && fresh(b))
    ensures r' == r + n && Room(b, p, w', off) && w' <= r' + off && Out(b, p, w') == old(Out(buf, p, w)) + p[r..r + n]
  {
    hide Out;
    b, r', w' := buf, r, w;
    ghost var base := Out(b, p, w');
    NothingMore(base, p, r);
    while r' < |p| && p[r'] != '/'
      invariant b == buf || (b != null && fresh(b))
      invariant r <= r' <= r + n && Room(b, p, w', off) && w' <= r' + off
      invariant Out(b, p, w') == base + p[r..r']
    {
      b := BufApp(b, p, w', p[r']);
      OneMore(base, p, r, r');
      w', r' := w' + 1, r' + 1;
    }
  }

  lemma NothingMore(base: string, p: string, r: nat)
    requires r <= |p|
    ensures base + p[r..r] == base
  {
  }

  lemma OneMore(base: string, p: string, r: nat, r': nat)
    requires r <= r' < |p|
    ensures base + p[r..r' + 1] == base + p[r..r'] + [p[r']]
  {
  }

  // ---------------------------------------------------------------- steps of the reading position

  /** Where the loop stands: what is left resolves to the names of the whole path. */
  ghost predicate Reading(p: string, r: nat, stack: seq<string>, trailing: bool) {
    && r <= |p| && AllProper(stack) && Resolve(stack, Split(p[r..], '/')) == Names(p)
    && (r < |p| ==> Last(p[r..]) == Last(p))
    && (trailing <==> (|p| > 2 && p[|p| - 1] == '/') || (r == |p| && Last(p) == "."))
  }

  lemma ReadSlash(p: string, r: nat, stack: seq<string>, trailing: bool)
    requires Reading(p, r, stack, trailing) && r < |p| && p[r] == '/'
    ensures Reading(p, r + 1, stack, trailing)
  {
    hide Split, Names, Resolve;
    assert p[r..] == "/" + p[r + 1..];
    SplitSlash(p[r + 1..]);
    ResolveSlash(stack, p[r + 1..]);
    if r + 1 == |p| { SplitNothing(); }
  }

  lemma SplitNothing()
    ensures Split("", '/') == [""] && Last("") == ""
  {
  }

  /** An element is read, up to the slash behind it or to the end. */
  lemma ReadElement(p: string, r: nat, stack: seq<string>, trailing: bool)
    requires Reading(p, r, stack, trailing) && r < |p| && p[r] != '/'
    ensures var e := Head(p[r..], '/');
            && r + |e| <= |p| && Reading(p, r + |e|, Step(stack, e), trailing || (r + |e| == |p| && e == "."))
  {
    hide Split, Names, Resolve, Head;
    var e := Head(p[r..], '/');
    HeadRange(p, r, '/');
    var rest := p[r + |e|..];
    assert p[r..] == e + rest;
    StepProper(stack, e);
    if rest == "" {
      assert e + rest == e;
      SplitAt(e, "", '/');
      SplitNothing();
      ResolveSingle(stack, e);
      ResolveSingle(Step(stack, e), "");
      assert Last(p) == e;
    } else {
      var after := p[r + |e| + 1..];
      assert rest == "/" + after;
      assert p[r..] == e + "/" + after;
      SplitAt(e, after, '/');
      ResolveAppend(stack, [e], Split(after, '/'));
      ResolveSingle(stack, e);
      SplitSlash(after);
      ResolveSlash(Step(stack, e), after);
    }
  }

  lemma StepProper(stack: seq<string>, e: string)
    requires AllProper(stack) && '/' !in e
    ensures AllProper(Step(stack, e))
  {
  }

  /** The element at `r`, told apart by its first characters. */
  lemma ElementKind(p: string, r: nat)
    requires r < |p| && p[r] != '/'
    ensures var e := Head(p[r..], '/');
            && (e == "." <==> p[r] == '.' && (r + 1 == |p| || p[r + 1] == '/'))
            && (e == ".." <==> r + 1 < |p| && p[r] == '.' && p[r + 1] == '.' && (r + 2 == |p| || p[r + 2] == '/'))
            && e != "" && (e != "." && e != ".." ==> Proper(e))
  {
  }

  /** The output is never ahead of the input, and level with it only right behind a name. */
  ghost predicate Behind(p: string, r: nat, w: nat, off: nat)
    requires r <= |p|
  {
    && w <= r + off
    && (w == r + off && w > 1 ==>
          r > 0 && p[r - 1] != '/' && (r < |p| ==> p[r] == '/') && (r == |p| ==> Last(p) != "."))
  }

  /** One turn of the loop: a slash, or an element up to the slash behind it. */
  method Turn(buf: array?<char>, p: string, r: nat, w: nat, trailing: bool, ghost off: nat, ghost stack: seq<string>)
    returns (b: array?<char>, r': nat, w': nat, trailing': bool, ghost stack': seq<string>)
    requires r < |p| && Reading(p, r, stack, trailing) && Room(buf, p, w, off) && Out(buf, p, w) == Render(stack)
    requires Behind(p, r, w, off)
    modifies if buf == null then {} else {buf}
    ensures b == buf || (b != null && fresh(b))
    ensures r < r' <= |p| && Reading(p, r', stack', trailing') && Behind(p, r', w', off)
    ensures Room(b, p, w', off) && Out(b, p, w') == Render(stack')
  {
    hide Head, Split, Names, Resolve, Render, Last, Step, Reading;
    b, r', w', trailing', stack' := buf, r, w, trailing, stack;
    Within(p, r, stack, trailing);
    RenderLength(stack);
    if p[r] == '/' {
      ReadSlash(p, r, stack, trailing);
      r' := r + 1;
    } else {
      ghost var e := Head(p[r..], '/');
      ElementKind(p, r);
      ReadElement(p, r, stack, trailing);
      StepKinds(stack, e);
      if p[r] == '.' && r + 1 == |p| {
        trailing', r' := true, r + 1;
      } else if p[r] == '.' && p[r + 1] == '/' {
        r' := r + 1;
      } else if p[r] == '.' && p[r + 1] == '.' && (r + 2 == |p| || p[r + 2] == '/') {
        r' := r + 2;
        if w > 1 {
          w' := Backtrack(buf, p, w, stack);
        }
        stack' := Step(stack, e);
      } else {
        AtName(p, r, stack, trailing);
        b, r', w' := CopyName(buf, p, r, w, off, stack);
        stack' := stack + [e];
      }
    }
  }

  lemma Within(p: string, r: nat, stack: seq<string>, trailing: bool)
    requires Reading(p, r, stack, trailing)
    ensures r <= |p| && AllProper(stack)
  {
  }

  /** A name that ends the path is its last part. */
  lemma AtName(p: string, r: nat, stack: seq<string>, trailing: bool)
    requires Reading(p, r, stack, trailing) && r < |p|
    ensures var e := Head(p[r..], '/');
            && r + |e| <= |p| && (r + |e| < |p| ==> p[r + |e|] == '/') && (e != "" ==> p[r + |e| - 1] != '/')
            && (r + |e| == |p| ==> Last(p) == e)
  {
  }

  /** At the end, the names are those of the path. */
  lemma ReadAll(p: string, stack: seq<string>, trailing: bool)
    requires Reading(p, |p|, stack, trailing)
    ensures Names(p) == stack && (trailing <==> Trailing(p)) && AllProper(stack)
    ensures Clean(p) == if trailing && stack != [] then Render(stack) + "/" else Render(stack)
  {
    hide Head, Resolve, Render;
    SplitNothing();
    assert p[|p|..] == "";
    ResolveSingle(stack, "");
    assert Render(stack) + "" == Render(stack);
  }

  /** The path in one pass. */
  method CleanPath(p: string) returns (s: string)
    ensures s == if p == "" then "/" else Clean(p)
  {
    hide Head, Split, Names, Resolve, Render, Last, Step, Reading, Trailing, Clean;
    if p == "" { return "/"; }
    var buf: array?<char> := null;
    var r: nat, w: nat := 1, 1;
    ghost var off: nat, stack: seq<string> := 0, [];
    RenderNone();
    if p[0] != '/' {
      r := 0;
      buf := new char[|p| + 1](_ => '/');
      off := 1;
    }
    var trailing := |p| > 2 && p[|p| - 1] == '/';
    Begin(p, r, trailing);
    assert Out(buf, p, w) == "/";
    while r < |p|
      invariant buf != null ==> fresh(buf)
      invariant r <= |p| && Reading(p, r, stack, trailing) && Room(buf, p, w, off) && Out(buf, p, w) == Render(stack)
      invariant Behind(p, r, w, off)
    {
      buf, r, w, trailing, stack := Turn(buf, p, r, w, trailing, off, stack);
    }
    ReadAll(p, stack, trailing);
    RenderLength(stack);
    SlashFits(p, w, off, trailing);
    if trailing && w > 1 {
      buf := BufApp(buf, p, w, '/');
      w := w + 1;
    }
    s := if buf == null then p[..w] else buf[..w];
  }

  lemma SlashFits(p: string, w: nat, off: nat, trailing: bool)
    requires Behind(p, |p|, w, off) && (trailing <==> Trailing(p))
    ensures trailing && w > 1 ==> w < |p| + off
  {
  }

  lemma RenderNone()
    ensures Render([]) == "/"
  {
  }

  lemma StepKinds(stack: seq<string>, e: string)
    ensures e == "." || e == "" ==> Step(stack, e) == stack
    ensures e == ".." ==> Step(stack, e) == if stack == [] then [] else stack[..|stack| - 1]
    ensures e != "." && e != ".." && e != "" ==> Step(stack, e) == stack + [e]
  {
  }

  lemma Begin(p: string, r: nat, trailing: bool)
    requires p != "" && r == (if p[0] == '/' then 1 else 0) && trailing == (|p| > 2 && p[|p| - 1] == '/')
    ensures Reading(p, r, [], trailing)
  {
  }
}
