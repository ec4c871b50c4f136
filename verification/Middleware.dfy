/**
 The chain of middleware of a request. A handler is any program of calls to Next and Abort.
 Handlers start in the order of the chain, each at most once, none after an Abort, and all of
 them without one. The position is an eight-bit integer; how it moves is read off the chain as a word,
 whose peak says exactly when it overflows.
 */
module Middleware {
  import opened Wrappers

  datatype Act = CallNext | CallAbort

  type Program = seq<Act>

  const ABORT_INDEX := 63

  /** What happened, in order. */
  datatype Mark = Started(i: nat) | Aborted

  /** Position, log, and the largest position so far. */
  datatype State = State(index: int, log: seq<Mark>, top: int)

  function Max(a: int, b: int): int {
    if a < b then b else a
  }

  /** The position is set. */
  function Moved(s: State, index: int): State {
    s.(index := index, top := Max(s.top, index))
  }

  function Abort(s: State): State {
    Moved(s, ABORT_INDEX).(log := s.log + [Aborted])
  }

  function Left(hs: seq<Program>, s: State): nat {
    if s.index < |hs| then |hs| - s.index else 0
  }

  // ---------------------------------------------------------------- meaning, over unbounded integers

  function Next(hs: seq<Program>, s: State): (r: State)
    requires |hs| < ABORT_INDEX && s.index >= -1
    ensures r.index >= |hs| && r.index > s.index && s.log <= r.log
    decreases Left(hs, s), 1, 0
  {
    var t := Moved(s, s.index + 1);
    if t.index >= |hs| then t else Loop(hs, t)
  }

  function Loop(hs: seq<Program>, s: State): (r: State)
    requires |hs| < ABORT_INDEX && 0 <= s.index < |hs|
    ensures r.index >= |hs| && s.log <= r.log
    decreases Left(hs, s), 3, 0
  {
    var h := Exec(hs, hs[s.index], s.(log := s.log + [Started(s.index)]));
    var t := Moved(h, h.index + 1);
    if t.index >= |hs| then t else Loop(hs, t)
  }

  function Exec(hs: seq<Program>, p: Program, s: State): (r: State)
    requires |hs| < ABORT_INDEX && s.index >= 0
    ensures (r.index >= s.index || r.index >= |hs|) && r.index >= 0 && s.log <= r.log
    decreases Left(hs, s), 2, |p|
  {
    if p == [] then s
    else
      match p[0]
      case CallNext => Exec(hs, p[1..], Next(hs, s))
      case CallAbort => Exec(hs, p[1..], Abort(s))
  }

  // ---------------------------------------------------------------- order

  /** The handlers started, in order. */
  function Starts(log: seq<Mark>): seq<nat> {
    if log == [] then []
    else Starts(log[..|log| - 1]) + match log[|log| - 1] case Started(i) => [i] case Aborted => []
  }

  function UpTo(k: nat): (r: seq<nat>)
    ensures |r| == k && forall i | 0 <= i < k :: r[i] == i
  {
    seq(k, i requires 0 <= i < k => i)
  }

  predicate NoneAfterAbort(log: seq<Mark>) {
    forall i, j | 0 <= i < j < |log| && log[i].Aborted? :: log[j].Aborted?
  }

  /** Before the handler at the position is started (`due`), or while it runs. */
  ghost predicate Orderly(hs: seq<Program>, s: State, due: bool) {
    && NoneAfterAbort(s.log)
    && Starts(s.log) == UpTo(|Starts(s.log)|) && |Starts(s.log)| <= |hs|
    && if s.index < |hs| then Aborted !in s.log && |Starts(s.log)| == (if due then s.index else s.index + 1)
       else Aborted in s.log || |Starts(s.log)| == |hs|
  }

  lemma StartedKeeps(hs: seq<Program>, s: State)
    requires 0 <= s.index < |hs| && Orderly(hs, s, true)
    ensures Orderly(hs, s.(log := s.log + [Started(s.index)]), false)
  {
  }

  lemma AbortedKeeps(hs: seq<Program>, s: State)
    requires Orderly(hs, s, false) && |hs| < ABORT_INDEX
    ensures Orderly(hs, Abort(s), false)
  {
  }

  lemma {:induction false} NextKeeps(hs: seq<Program>, s: State)
    requires |hs| < ABORT_INDEX && s.index >= -1 && Orderly(hs, s, false)
    ensures Orderly(hs, Next(hs, s), false)
    decreases Left(hs, s), 1, 0
  {
    hide Starts, NoneAfterAbort;
    var t := Moved(s, s.index + 1);
    if t.index < |hs| { LoopKeeps(hs, t); }
  }

  lemma {:induction false} LoopKeeps(hs: seq<Program>, s: State)
    requires |hs| < ABORT_INDEX && 0 <= s.index < |hs| && Orderly(hs, s, true)
    ensures Orderly(hs, Loop(hs, s), false)
    decreases Left(hs, s), 3, 0
  {
    hide Starts, NoneAfterAbort;
    var b := s.(log := s.log + [Started(s.index)]);
    StartedKeeps(hs, s);
    ExecKeeps(hs, hs[s.index], b);
    var h := Exec(hs, hs[s.index], b);
    var t := Moved(h, h.index + 1);
    if t.index < |hs| { LoopKeeps(hs, t); }
  }

  lemma {:induction false} ExecKeeps(hs: seq<Program>, p: Program, s: State)
    requires |hs| < ABORT_INDEX && s.index >= 0 && Orderly(hs, s, false)
    ensures Orderly(hs, Exec(hs, p, s), false)
    decreases Left(hs, s), 2, |p|
  {
    hide Starts, NoneAfterAbort, Orderly;
    if p != [] {
      match p[0] {
        case CallNext =>
          NextKeeps(hs, s);
          ExecKeeps(hs, p[1..], Next(hs, s));
        case CallAbort =>
          AbortedKeeps(hs, s);
          ExecKeeps(hs, p[1..], Abort(s));
      }
    }
  }

  const INITIAL := State(-1, [], -1)

  /** A request: the handlers that start are the first ones of the chain, in order, all of them unless one aborts. */
  lemma ChainInOrder(hs: seq<Program>)
    requires |hs| < ABORT_INDEX
    ensures var log := Next(hs, INITIAL).log;
            && NoneAfterAbort(log)
            && Starts(log) == UpTo(|Starts(log)|) && |Starts(log)| <= |hs|
            && (Aborted !in log ==> Starts(log) == UpTo(|hs|))
  {
    assert UpTo(0) == [];
    NextKeeps(hs, INITIAL);
  }

  /** How many handlers start: up to the first one that begins with Abort, and that one. */
  function Reach(hs: seq<Program>, k: nat): (n: nat)
    requires k <= |hs|
    ensures k <= n <= |hs| && forall i | k <= i < n - 1 :: hs[i] == [] || hs[i][0].CallNext?
    ensures n < |hs| ==> n > k && hs[n - 1] != [] && hs[n - 1][0].CallAbort?
    decreases |hs| - k
  {
    if k == |hs| then k else if hs[k] != [] && hs[k][0].CallAbort? then k + 1 else Reach(hs, k + 1)
  }

  lemma StartsOne(log: seq<Mark>, m: Mark)
    ensures Starts(log + [m]) == Starts(log) + match m case Started(i) => [i] case Aborted => []
  {
    assert (log + [m])[..|log|] == log;
  }

  /** Behind the last handler nothing starts. */
  lemma {:induction false} ExecIdle(hs: seq<Program>, p: Program, s: State)
    requires |hs| < ABORT_INDEX && s.index >= |hs|
    ensures Starts(Exec(hs, p, s).log) == Starts(s.log)
    decreases |p|
  {
    hide Starts;
    if p != [] {
      StartsOne(s.log, Aborted);
      ExecIdle(hs, p[1..], if p[0].CallNext? then Next(hs, s) else Abort(s));
    }
  }

  lemma {:induction false} LoopReach(hs: seq<Program>, s: State)
    requires |hs| < ABORT_INDEX && 0 <= s.index < |hs| && |Starts(s.log)| == s.index
    ensures |Starts(Loop(hs, s).log)| == Reach(hs, s.index)
    decreases Left(hs, s), 3, 0
  {
    hide Starts;
    var k, p, b := s.index, hs[s.index], s.(log := s.log + [Started(s.index)]);
    StartsOne(s.log, Started(k));
    if p == [] {
      var t := Moved(b, k + 1);
      if t.index < |hs| { LoopReach(hs, t); }
    } else {
      var m := if p[0].CallNext? then Next(hs, b) else Abort(b);
      if p[0].CallNext? {
        var t := Moved(b, k + 1);
        if t.index < |hs| { LoopReach(hs, t); }
      } else {
        StartsOne(b.log, Aborted);
      }
      ExecIdle(hs, p[1..], m);
      Passes(hs, p, b);
    }
  }

  /** A request starts exactly the handlers up to the first one that begins with Abort, or all of them. */
  lemma ChainReach(hs: seq<Program>)
    requires |hs| < ABORT_INDEX
    ensures Starts(Next(hs, INITIAL).log) == UpTo(Reach(hs, 0))
  {
    ChainInOrder(hs);
    if hs != [] { LoopReach(hs, Moved(INITIAL, 0)); }
  }

  // ---------------------------------------------------------------- the position, read off the chain

  /** The position goes up by one, or is set to the one of Abort. */
  datatype Change = Up | Reset

  function After(index: int, c: Change): int {
    match c case Up => index + 1 case Reset => ABORT_INDEX
  }

  function Final(index: int, w: seq<Change>): int
    decreases w
  {
    if w == [] then index else Final(After(index, w[0]), w[1..])
  }

  /** The largest position on the way. */
  function Peak(index: int, w: seq<Change>): (p: int)
    ensures p >= index && p >= Final(index, w)
    decreases w
  {
    if w == [] then index else Max(index, Peak(After(index, w[0]), w[1..]))
  }

  function ChangeOf(a: Act): Change {
    match a case CallNext => Up case CallAbort => Reset
  }

  /** What a program does to a position behind the last handler. */
  function Word(p: Program): seq<Change> {
    if p == [] then [] else [ChangeOf(p[0])] + Word(p[1..])
  }

  /** What the handlers from position `k` on do to it, each called by the one before or by the loop. */
  function Trace(hs: seq<Program>, k: nat): seq<Change>
    decreases |hs| - k, 1
  {
    if k >= |hs| then []
    else Inside(hs, hs[k], k) + [Up] + if hs[k] == [] then Trace(hs, k + 1) else []
  }

  /** What a program does at position `k`: its first call of Next runs all handlers behind that position. */
  function Inside(hs: seq<Program>, p: Program, k: nat): seq<Change>
    decreases |hs| - k, 0
  {
    if k < |hs| && p != [] && p[0].CallNext? then [Up] + Trace(hs, k + 1) + Word(p[1..]) else Word(p)
  }

  lemma {:induction false} WordsAppend(index: int, v: seq<Change>, w: seq<Change>)
    ensures Final(index, v + w) == Final(Final(index, v), w)
    ensures Peak(index, v + w) == Max(Peak(index, v), Peak(Final(index, v), w))
    decreases |v|
  {
    if v == [] {
      assert v + w == w;
    } else {
      assert (v + w)[0] == v[0] && (v + w)[1..] == v[1..] + w;
      WordsAppend(After(index, v[0]), v[1..], w);
    }
  }

  /** The state moves as the word says. */
  predicate Follows(s: State, w: seq<Change>, r: State) {
    s.top >= s.index && r.index == Final(s.index, w) && r.top == Max(s.top, Peak(s.index, w))
  }

  lemma FollowsThen(s: State, v: seq<Change>, m: State, w: seq<Change>, r: State)
    requires Follows(s, v, m) && Follows(m, w, r)
    ensures Follows(s, v + w, r)
  {
    WordsAppend(s.index, v, w);
  }

  lemma FollowsOne(s: State, c: Change)
    requires s.top >= s.index
    ensures Follows(s, [c], Moved(s, After(s.index, c)))
  {
    assert [c][1..] == [];
  }

  lemma {:induction false} NextFollows(hs: seq<Program>, s: State)
    requires |hs| < ABORT_INDEX && s.index >= -1 && s.top >= s.index
    ensures Follows(s, [Up] + Trace(hs, s.index + 1), Next(hs, s))
    decreases Left(hs, s), 1, 0
  {
    hide Trace, Follows;
    var t := Moved(s, s.index + 1);
    FollowsOne(s, Up);
    if t.index < |hs| {
      LoopFollows(hs, t);
      FollowsThen(s, [Up], t, Trace(hs, t.index), Next(hs, s));
    } else {
      NoTrace(hs, t.index);
    }
  }

  lemma NoTrace(hs: seq<Program>, k: nat)
    requires k >= |hs|
    ensures Trace(hs, k) == [] && [Up] + Trace(hs, k) == [Up]
  {
  }

  lemma {:induction false} LoopFollows(hs: seq<Program>, s: State)
    requires |hs| < ABORT_INDEX && 0 <= s.index < |hs| && s.top >= s.index
    ensures Follows(s, Trace(hs, s.index), Loop(hs, s))
    decreases Left(hs, s), 3, 0
  {
    var k, p := s.index, hs[s.index];
    var b := s.(log := s.log + [Started(k)]);
    ExecFollows(hs, p, b);
    var h := Exec(hs, p, b);
    var t := Moved(h, h.index + 1);
    FollowsOne(h, Up);
    FollowsThen(s, Inside(hs, p, k), h, [Up], t);
    Passes(hs, p, b);
    if p == [] {
      if k + 1 < |hs| {
        LoopFollows(hs, t);
        FollowsThen(s, Inside(hs, p, k) + [Up], t, Trace(hs, k + 1), Loop(hs, s));
      } else {
        assert Inside(hs, p, k) + [Up] + Trace(hs, k + 1) == Inside(hs, p, k) + [Up];
      }
    } else {
      assert Inside(hs, p, k) + [Up] + [] == Inside(hs, p, k) + [Up];
    }
  }

  /** Behind a program that does anything, the position is behind the last handler. */
  lemma {:induction false} Passes(hs: seq<Program>, p: Program, s: State)
    requires |hs| < ABORT_INDEX && s.index >= 0
    ensures p != [] || s.index >= |hs| ==> Exec(hs, p, s).index >= |hs|
    decreases |p|
  {
    if p != [] { Passes(hs, p[1..], if p[0].CallNext? then Next(hs, s) else Abort(s)); }
  }

  lemma {:induction false} ExecFollows(hs: seq<Program>, p: Program, s: State)
    requires |hs| < ABORT_INDEX && s.index >= 0 && s.top >= s.index
    ensures Follows(s, Inside(hs, p, s.index), Exec(hs, p, s))
    decreases Left(hs, s), 2, |p|
  {
    if p != [] {
      hide Follows, Trace;
      var m := if p[0].CallNext? then Next(hs, s) else Abort(s);
      var v := if p[0].CallNext? then [Up] + Trace(hs, s.index + 1) else [Reset];
      if p[0].CallNext? { NextFollows(hs, s); } else { AbortFollows(s); }
      NotedAfter(s, v, m);
      ExecFollows(hs, p[1..], m);
      FollowsThen(s, v, m, Word(p[1..]), Exec(hs, p, s));
      if s.index >= |hs| { NoTrace(hs, s.index + 1); }
    }
  }

  lemma AbortFollows(s: State)
    requires s.top >= s.index
    ensures Follows(s, [Reset], Abort(s))
  {
    FollowsOne(s, Reset);
  }

  lemma NotedAfter(s: State, w: seq<Change>, r: State)
    requires Follows(s, w, r)
    ensures r.top >= r.index
  {
  }

  /**
   A request, with any chain of any handlers: where the position ends, and the largest one on the way, are those of the
   word that is read off the chain. So it leaves eight bits exactly if that word has a peak beyond 127.
   */
  lemma ChainIndex(hs: seq<Program>)
    requires |hs| < ABORT_INDEX
    ensures Next(hs, INITIAL).index == Final(0, Trace(hs, 0))
    ensures Next(hs, INITIAL).top == Peak(0, Trace(hs, 0))
    ensures Next(hs, INITIAL).top > 127 <==> !Small(hs)
  {
    NextFollows(hs, INITIAL);
    WordsAppend(-1, [Up], Trace(hs, 0));
    assert [Up][1..] == [];
  }

  /** The word of the chain never goes beyond eight bits. */
  predicate Small(hs: seq<Program>) {
    Peak(0, Trace(hs, 0)) <= 127
  }

  // ---------------------------------------------------------------- what that comes to

  function Calls(p: Program): nat {
    if p == [] then 0 else (if p[0].CallNext? then 1 else 0) + Calls(p[1..])
  }

  /** The calls of Next in the handlers from position `k` on. */
  function CallsFrom(hs: seq<Program>, k: nat): nat
    decreases |hs| - k
  {
    if k >= |hs| then 0 else Calls(hs[k]) + CallsFrom(hs, k + 1)
  }

  function TotalNext(hs: seq<Program>): nat {
    CallsFrom(hs, 0)
  }

  predicate NoAborts(hs: seq<Program>) {
    forall i | 0 <= i < |hs| :: CallAbort !in hs[i]
  }

  lemma {:induction false} WordUps(p: Program)
    ensures CallAbort !in p ==> Reset !in Word(p) && |Word(p)| == Calls(p)
  {
    if p != [] { WordUps(p[1..]); }
  }

  lemma {:induction false} OnlyUps(index: int, w: seq<Change>)
    requires Reset !in w
    ensures Final(index, w) == Peak(index, w) == index + |w|
    decreases |w|
  {
    if w != [] {
      assert w[0] in w;
      OnlyUps(index + 1, w[1..]);
    }
  }

  lemma {:induction false} TraceUps(hs: seq<Program>, k: nat)
    requires NoAborts(hs) && k <= |hs|
    ensures Reset !in Trace(hs, k) && |Trace(hs, k)| == |hs| - k + CallsFrom(hs, k)
    decreases |hs| - k
  {
    if k < |hs| {
      TraceUps(hs, k + 1);
      WordUps(hs[k]);
      if hs[k] != [] {
        assert hs[k][0] in hs[k];
        WordUps(hs[k][1..]);
      }
    }
  }

  /** Without an Abort the position counts the handlers and the calls of Next, and never falls. */
  lemma NoAbortIndex(hs: seq<Program>)
    requires |hs| < ABORT_INDEX && NoAborts(hs)
    ensures var r := Next(hs, INITIAL); r.index == r.top == |hs| + TotalNext(hs)
  {
    ChainIndex(hs);
    TraceUps(hs, 0);
    OnlyUps(0, Trace(hs, 0));
  }

  lemma {:induction false} WordPeak(index: int, p: Program)
    ensures Peak(index, Word(p)) <= Max(index, ABORT_INDEX) + Calls(p)
    decreases |p|
  {
    if p != [] { WordPeak(After(index, Word(p)[0]), p[1..]); }
  }

  lemma UpPeak(index: int)
    ensures Final(index, [Up]) == index + 1 && Peak(index, [Up]) == index + 1
  {
    assert [Up][1..] == [];
  }

  /** The peak inside the first handler. */
  lemma InsidePeak(hs: seq<Program>, k: nat)
    requires k < |hs| < ABORT_INDEX && Peak(k + 1, Trace(hs, k + 1)) <= ABORT_INDEX + 1 + CallsFrom(hs, k + 1)
    ensures Peak(k, Inside(hs, hs[k], k)) <= ABORT_INDEX + CallsFrom(hs, k) + if hs[k] == [] then 0 else 1
    ensures hs[k] != [] ==> Final(k, Inside(hs, hs[k], k)) <= ABORT_INDEX + CallsFrom(hs, k)
  {
    hide Trace, Peak, Final, Word;
    var p := hs[k];
    if p != [] && p[0].CallNext? {
      var t, more := Trace(hs, k + 1), p[1..];
      UpPeak(k);
      WordsAppend(k, [Up], t);
      WordsAppend(k, [Up] + t, Word(more));
      WordPeak(Final(k, [Up] + t), more);
    } else {
      WordPeak(k, p);
    }
  }

  /** With Aborts, every call of Next still moves the position by one at most. */
  lemma {:induction false} TracePeak(hs: seq<Program>, k: nat)
    requires k <= |hs| < ABORT_INDEX
    ensures Peak(k, Trace(hs, k)) <= ABORT_INDEX + 1 + CallsFrom(hs, k)
    decreases |hs| - k
  {
    if k < |hs| {
      TracePeak(hs, k + 1);
      InsidePeak(hs, k);
      var v := Inside(hs, hs[k], k);
      WordsAppend(k, v, [Up]);
      UpPeak(Final(k, v));
      if hs[k] == [] {
        WordsAppend(k, v + [Up], Trace(hs, k + 1));
      } else {
        assert v + [Up] + [] == v + [Up];
      }
    }
  }

  predicate AtMostOnce(hs: seq<Program>) {
    forall i | 0 <= i < |hs| :: Calls(hs[i]) <= 1
  }

  lemma {:induction false} FewCalls(hs: seq<Program>, k: nat)
    requires AtMostOnce(hs) && k <= |hs|
    ensures CallsFrom(hs, k) <= |hs| - k
    decreases |hs| - k
  {
    if k < |hs| { FewCalls(hs, k + 1); }
  }

  /** If no handler calls Next twice, the position stays within eight bits. */
  lemma NextSmall(hs: seq<Program>)
    requires |hs| < ABORT_INDEX && AtMostOnce(hs)
    ensures Small(hs) && Next(hs, INITIAL).top <= 126
  {
    FewCalls(hs, 0);
    TracePeak(hs, 0);
    ChainIndex(hs);
  }

  /** A handler that calls Next `k` times. */
  function Repeat(k: nat): (p: Program)
    ensures |p| == k && CallAbort !in p && Calls(p) == k
  {
    if k == 0 then [] else [CallNext] + Repeat(k - 1)
  }

  /** One handler that calls Next 127 times takes the position out of its eight bits. */
  lemma RepeatedNext()
    ensures Next([Repeat(127)], INITIAL).index == 128
  {
    var hs := [Repeat(127)];
    assert NoAborts(hs) && CallsFrom(hs, 1) == 0;
    NoAbortIndex(hs);
  }

  lemma {:induction false} WordsJoin(p: Program, q: Program)
    ensures Word(p + q) == Word(p) + Word(q)
    decreases |p|
  {
    if p == [] {
      assert p + q == q;
    } else {
      WordsJoin(p[1..], q);
      assert (p + q)[0] == p[0] && (p + q)[1..] == p[1..] + q;
      var c := [ChangeOf(p[0])];
      assert c + (Word(p[1..]) + Word(q)) == (c + Word(p[1..])) + Word(q);
    }
  }

  /** The word of a single handler that begins with a call of Next. */
  lemma AloneTrace(p: Program)
    requires p != [] && p[0].CallNext?
    ensures Trace([p], 0) == Word(p) + [Up]
  {
    assert Trace([p], 1) == [];
    assert Inside([p], p, 0) == [Up] + [] + Word(p[1..]);
  }

  /** With an Abort behind 128 calls the position ends at 64, although it has been at 128. */
  lemma AbortedRepeat()
    ensures var r := Next([Repeat(128) + [CallAbort]], INITIAL); r.index == 64 && r.top == 128
  {
    var p, q := Repeat(128), [CallAbort];
    ChainIndex([p + q]);
    AloneTrace(p + q);
    WordsJoin(p, q);
    WordUps(p);
    OnlyUps(0, Word(p));
    var w := [Reset] + [Up];
    assert Word(q) == [Reset] && Word(p) + [Reset] + [Up] == Word(p) + w;
    WordsAppend(0, Word(p), w);
    assert w[0] == Reset && w[1..] == [Up] && [Up][1..] == [];
  }

  // ---------------------------------------------------------------- the context

  newtype Int8 = x: int | -128 <= x < 128

  /** Middleware of the group, then the handlers of the route; a chain that is too long is refused. */
  method CombineHandlers(group: seq<Program>, handlers: seq<Program>) returns (chain: Option<seq<Program>>)
    ensures chain == if |group| + |handlers| < ABORT_INDEX then Some(group + handlers) else None
  {
    var size := |group| + |handlers|;
    if size >= ABORT_INDEX { return None; }
    chain := Some(group + handlers);
  }

  class Context {
    const handlers: seq<Program>
    var index: Int8
    ghost var log: seq<Mark>
    ghost var top: int

    constructor (handlers: seq<Program>)
      ensures this.handlers == handlers && Now() == INITIAL
    {
      this.handlers, index, log, top := handlers, -1, [], -1;
    }

    ghost function Now(): State
      reads this
    {
      State(index as int, log, top)
    }

    /** Every assignment to the index, with what is noted about it. */
    method SetIndex(i: Int8)
      modifies `index, `top
      ensures Now() == Moved(old(Now()), i as int)
    {
      index, top := i, Max(top, i as int);
    }

    /**
     The pending handlers, inside the calling one. If the word of what is still to come stays within eight bits, no
     increment of the index leaves them.
     */
    method CallNextHandlers()
      requires |handlers| < ABORT_INDEX && index >= -1 && top >= index as int
      requires Peak(index as int, [Up] + Trace(handlers, index as int + 1)) <= 127
      modifies this
      ensures Now() == Next(handlers, old(Now()))
      decreases Left(handlers, Now()), 1, 0
    {
      hide Peak, Trace, Inside, Next, Loop, Exec;
      ghost var start := Now();
      FirstStep(handlers, start);
      SetIndex(index + 1);
      var s := |handlers| as Int8;
      while index < s
        invariant index >= 0 && top >= index as int && (index >= s || Left(handlers, Now()) < Left(handlers, start))
        invariant if index < s then Loop(handlers, Now()) == Next(handlers, start) else Now() == Next(handlers, start)
        invariant Peak(index as int, Trace(handlers, index as int)) <= 127
        decreases Left(handlers, Now())
      {
        Round(handlers, Now());
        log := log + [Started(index as int)];
        Handle(handlers[index as int]);
        SetIndex(index + 1);
      }
    }

    method AbortNow()
      modifies this
      ensures Now() == Abort(old(Now()))
    {
      SetIndex(63);
      log := log + [Aborted];
    }

    /** A handler runs its program. */
    method Handle(p: Program)
      requires |handlers| < ABORT_INDEX && index >= 0 && top >= index as int
      requires Peak(index as int, Inside(handlers, p, index as int)) <= 127
      modifies this
      ensures Now() == Exec(handlers, p, old(Now()))
      decreases Left(handlers, Now()), 2, 0
    {
      hide Peak, Inside, Trace, Next, Exec;
      ghost var start := Now();
      var i := 0;
      assert p[0..] == p;
      while i < |p|
        invariant i <= |p| && index >= 0 && top >= index as int && Left(handlers, Now()) <= Left(handlers, start)
        invariant Exec(handlers, p[i..], Now()) == Exec(handlers, p, start)
        invariant Peak(index as int, Inside(handlers, p[i..], index as int)) <= 127
      {
        assert p[i..][0] == p[i] && p[i..][1..] == p[i + 1..];
        ghost var now := Now();
        FirstAct(handlers, p[i..], now);
        match p[i] {
          case CallNext => CallNextHandlers();
          case CallAbort => AbortNow();
        }
        i := i + 1;
      }
      ExecNothing(handlers, p[i..], Now());
    }
  }

  lemma ExecNothing(hs: seq<Program>, p: Program, s: State)
    requires |hs| < ABORT_INDEX && s.index >= 0 && p == []
    ensures Exec(hs, p, s) == s
  {
  }

  /** The step to the first handler. */
  lemma FirstStep(hs: seq<Program>, s: State)
    requires |hs| < ABORT_INDEX && s.index >= -1 && s.top >= s.index
    requires Peak(s.index, [Up] + Trace(hs, s.index + 1)) <= 127
    ensures var t := Moved(s, s.index + 1);
            && t.index <= 127 && Peak(t.index, Trace(hs, t.index)) <= 127
            && Next(hs, s) == if t.index >= |hs| then t else Loop(hs, t)
  {
    hide Trace;
    WordsAppend(s.index, [Up], Trace(hs, s.index + 1));
    assert [Up][1..] == [];
  }

  /** One turn of the loop. */
  lemma Round(hs: seq<Program>, s: State)
    requires |hs| < ABORT_INDEX && 0 <= s.index < |hs| && s.top >= s.index && Peak(s.index, Trace(hs, s.index)) <= 127
    ensures Peak(s.index, Inside(hs, hs[s.index], s.index)) <= 127
    ensures var h := Exec(hs, hs[s.index], s.(log := s.log + [Started(s.index)]));
            var t := Moved(h, h.index + 1);
            && 0 <= h.index && t.index <= 127 && t.top >= t.index && Peak(t.index, Trace(hs, t.index)) <= 127
            && Loop(hs, s) == (if t.index >= |hs| then t else Loop(hs, t))
            && (t.index < |hs| ==> t.index > s.index)
  {
    hide Next, Exec;
    var k, p := s.index, hs[s.index];
    var b := s.(log := s.log + [Started(k)]);
    var h := Exec(hs, p, b);
    ExecFollows(hs, p, b);
    Passes(hs, p, b);
    var v := Inside(hs, p, k);
    WordsAppend(k, v + [Up], if p == [] then Trace(hs, k + 1) else []);
    WordsAppend(k, v, [Up]);
    assert [Up][1..] == [];
    if p != [] { NoTrace(hs, h.index + 1); }
  }

  /** The first act of a program, seen in the word. */
  lemma FirstAct(hs: seq<Program>, p: Program, s: State)
    requires |hs| < ABORT_INDEX && s.index >= 0 && s.top >= s.index && p != []
    ensures var m := if p[0].CallNext? then Next(hs, s) else Abort(s);
            && m.index >= 0 && m.top >= m.index && (m.index >= |hs| || m.index == s.index)
            && Exec(hs, p, s) == Exec(hs, p[1..], m)
            && Peak(m.index, Inside(hs, p[1..], m.index)) <= Peak(s.index, Inside(hs, p, s.index))
    ensures p[0].CallNext? ==>
              Peak(s.index, [Up] + Trace(hs, s.index + 1)) <= Peak(s.index, Inside(hs, p, s.index))
  {
    var m := if p[0].CallNext? then Next(hs, s) else Abort(s);
    var v := if p[0].CallNext? then [Up] + Trace(hs, s.index + 1) else [Reset];
    if p[0].CallNext? { NextFollows(hs, s); } else { AbortFollows(s); }
    if s.index >= |hs| { NoTrace(hs, s.index + 1); }
    assert Inside(hs, p, s.index) == v + Word(p[1..]);
    WordsAppend(s.index, v, Word(p[1..]));
  }
}
