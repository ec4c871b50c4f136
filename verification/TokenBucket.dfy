/**
 The token bucket of the rate limiter. Times are nanoseconds since the bucket was made, and do
 not go back. `availTick` is not moved while the bucket is full, so the first refill after a
 full spell also credits that spell, up to the capacity.
 */
module TokenBucket {

  datatype Params = Params(capacity: int, quantum: int, interval: int)

  predicate ParamsOk(p: Params) {
    p.capacity > 0 && p.quantum > 0 && p.interval > 0
  }

  /** The bucket, with all that has been granted so far. Negative `avail` is owed to those who wait. */
  datatype Ledger = Ledger(avail: int, availTick: int, granted: int)

  function Tick(p: Params, now: nat): nat
    requires ParamsOk(p)
  {
    now / p.interval
  }

  function Min(a: int, b: int): int {
    if a < b then a else b
  }

  function Adjust(p: Params, l: Ledger, now: nat): Ledger
    requires ParamsOk(p)
  {
    if l.avail >= p.capacity then l
    else l.(avail := Min(p.capacity, l.avail + (Tick(p, now) - l.availTick) * p.quantum), availTick := Tick(p, now))
  }

  datatype Taken = Taken(ledger: Ledger, wait: int, ok: bool)

  /** The tick at which a debt is paid off. */
  function EndTick(p: Params, tick: int, debt: nat): int
    requires ParamsOk(p)
  {
    tick + (debt + p.quantum - 1) / p.quantum
  }

  function Take(p: Params, l: Ledger, now: nat, count: int, maxWait: int): Taken
    requires ParamsOk(p)
  {
    if count <= 0 then Taken(l, 0, true)
    else
      var a := Adjust(p, l, now);
      var avail := a.avail - count;
      if avail >= 0 then Taken(a.(avail := avail, granted := a.granted + count), 0, true)
      else
        var wait := EndTick(p, Tick(p, now), -avail) * p.interval - now;
        if wait > maxWait then Taken(a, 0, false)
        else Taken(a.(avail := avail, granted := a.granted + count), wait, true)
  }

  function TakeAvailable(p: Params, l: Ledger, now: nat, count: int): (Ledger, int)
    requires ParamsOk(p)
  {
    if count <= 0 then (l, 0)
    else
      var a := Adjust(p, l, now);
      if a.avail <= 0 then (a, 0)
      else
        var n := Min(count, a.avail);
        (a.(avail := a.avail - n, granted := a.granted + n), n)
  }

  // ---------------------------------------------------------------- the object

  class Bucket {
    const p: Params
    var avail: int
    var availTick: int
    ghost var granted: int

    constructor (capacity: int, quantum: int, interval: int)
      requires capacity > 0 && quantum > 0 && interval > 0
      ensures Valid() && p == Params(capacity, quantum, interval) && State() == Ledger(capacity, 0, 0)
    {
      p := Params(capacity, quantum, interval);
      avail, availTick, granted := capacity, 0, 0;
    }

    ghost predicate Valid() {
      ParamsOk(p)
    }

    ghost function State(): Ledger
      reads this
    {
      Ledger(avail, availTick, granted)
    }

    method AdjustTo(now: nat) returns (tick: int)
      requires Valid()
      modifies `avail, `availTick
      ensures State() == Adjust(p, old(State()), now) && tick == Tick(p, now)
      ensures old(Sound(p, State(), now / p.interval)) ==>
                avail == old(Due(p, State(), now / p.interval)) && (old(avail) < p.capacity ==> availTick == tick)
    {
      if Sound(p, State(), Tick(p, now)) { RefillExact(p, State(), now); }
      tick := now / p.interval;
      if avail >= p.capacity { return; }
      avail := avail + (tick - availTick) * p.quantum;
      if avail > p.capacity { avail := p.capacity; }
      availTick := tick;
    }

    method TakeMaxDuration(now: nat, count: int, maxWait: int) returns (wait: int, ok: bool)
      requires Valid()
      modifies this
      ensures Take(p, old(State()), now, count, maxWait) == Taken(State(), wait, ok)
      ensures old(Sound(p, State(), now / p.interval)) && count > 0 && ok ==>
                var was := old(State());
                && wait >= 0 && Enough(p, was, now, count, wait)
                && forall w: nat | w < wait :: !Enough(p, was, now, count, w)
    {
      if Sound(p, State(), Tick(p, now)) && count > 0 { TakeExact(p, State(), now, count, maxWait); }
      if count <= 0 { return 0, true; }
      var tick := AdjustTo(now);
      var left := avail - count;
      if left >= 0 {
        avail, granted := left, granted + count;
        return 0, true;
      }
      var endTick := tick + (-left + p.quantum - 1) / p.quantum;
      wait := endTick * p.interval - now;
      if wait > maxWait { return 0, false; }
      avail, granted := left, granted + count;
      ok := true;
    }

    method TakeNow(now: nat, count: int) returns (n: int)
      requires Valid()
      modifies this
      ensures TakeAvailable(p, old(State()), now, count) == (State(), n)
      ensures old(Sound(p, State(), now / p.interval)) && count > 0 ==>
                var due := old(Due(p, State(), now / p.interval));
                avail == due - n && n == if due <= 0 then 0 else if count > due then due else count
    {
      if Sound(p, State(), Tick(p, now)) { AvailableExact(p, State(), now, count); }
      if count <= 0 { return 0; }
      var tick := AdjustTo(now);
      if avail <= 0 { return 0; }
      n := if count > avail then avail else count;
      avail, granted := avail - n, granted + n;
    }
  }

  // ---------------------------------------------------------------- one call

  /** Tokens in the bucket at a later tick, if nothing more is taken. */
  function Balance(p: Params, l: Ledger, tick: int): int {
    l.avail + (tick - l.availTick) * p.quantum
  }

  /** Reachable states: never over the capacity, never ahead of the clock. */
  predicate Sound(p: Params, l: Ledger, tick: int) {
    l.avail <= p.capacity && 0 <= l.availTick <= tick
  }

  lemma Multiply(a: int, b: int, q: int)
    requires q > 0 && a <= b
    ensures a * q <= b * q
  {
  }

  lemma Distribute(a: int, b: int, q: int)
    ensures (a + b) * q == a * q + b * q && (a - b) * q == a * q - b * q
  {
  }

  /** Rounding up: enough ticks, and not one too many. */
  lemma RoundUp(debt: nat, q: int)
    requires debt > 0 && q > 0
    ensures var n := (debt + q - 1) / q; n >= 1 && n * q >= debt && (n - 1) * q < debt
  {
  }

  lemma TickBounds(p: Params, now: nat)
    requires ParamsOk(p)
    ensures Tick(p, now) * p.interval <= now < (Tick(p, now) + 1) * p.interval
  {
  }

  lemma TickOf(p: Params, n: nat)
    requires ParamsOk(p)
    ensures Tick(p, n * p.interval) == n
  {
    var t := Tick(p, n * p.interval);
    TickBounds(p, n * p.interval);
    if t < n { Multiply(t + 1, n, p.interval); assert false; }
    if t > n { Multiply(n + 1, t, p.interval); Distribute(n, 1, p.interval); assert false; }
  }

  lemma AdjustSound(p: Params, l: Ledger, now: nat)
    requires ParamsOk(p) && Sound(p, l, Tick(p, now))
    ensures var a := Adjust(p, l, now);
            && Sound(p, a, Tick(p, now)) && a.granted == l.granted
            && a.avail - l.avail <= (a.availTick - l.availTick) * p.quantum
            && l.avail <= a.avail && l.availTick <= a.availTick
            && (l.avail < p.capacity ==> a.availTick == Tick(p, now))
  {
    hide Tick;
    Multiply(0, Tick(p, now) - l.availTick, p.quantum);
  }

  /** What is there at a tick: the balance, but no more than the bucket holds. */
  function Due(p: Params, l: Ledger, tick: int): int {
    if Balance(p, l, tick) < p.capacity then Balance(p, l, tick) else p.capacity
  }

  /** Nothing is lost: a refill brings a bucket to what is due, and moves the books of one that was not full. */
  lemma RefillExact(p: Params, l: Ledger, now: nat)
    requires ParamsOk(p) && Sound(p, l, Tick(p, now))
    ensures var a := Adjust(p, l, now);
            && a.avail == Due(p, l, Tick(p, now)) && a.granted == l.granted
            && a.availTick == if l.avail == p.capacity then l.availTick else Tick(p, now)
  {
    hide Tick;
    Multiply(0, Tick(p, now) - l.availTick, p.quantum);
  }

  /** What can be had at once is what is due, as far as it is asked for. */
  lemma AvailableExact(p: Params, l: Ledger, now: nat, count: int)
    requires ParamsOk(p) && Sound(p, l, Tick(p, now))
    ensures var (r, n) := TakeAvailable(p, l, now, count);
            var due := Due(p, l, Tick(p, now));
            && 0 <= n && (n == 0 || (n <= count && n <= due)) && (n >= count || n >= due)
            && r.granted == l.granted + n && (count > 0 ==> r.avail == due - n) && (count <= 0 ==> r == l)
  {
    hide Tick, Adjust;
    RefillExact(p, l, now);
  }

  /** After the wait the tokens are there; where the books are up to date, not a tick sooner. */
  lemma TakeWaits(p: Params, l: Ledger, now: nat, count: int, maxWait: int)
    requires ParamsOk(p) && Sound(p, l, Tick(p, now)) && count > 0 && Take(p, l, now, count, maxWait).ok
    ensures var r := Take(p, l, now, count, maxWait);
            && r.wait >= 0 && (r.wait == 0 || r.wait <= maxWait) && (r.wait > 0 <==> r.ledger.avail < 0)
            && Balance(p, r.ledger, Tick(p, now + r.wait)) >= 0
            && (r.wait > 0 && r.ledger.availTick == Tick(p, now) ==>
                  Balance(p, r.ledger, Tick(p, now + r.wait) - 1) < 0)
  {
    AdjustSound(p, l, now);
    var r := Take(p, l, now, count, maxWait);
    var tick := Tick(p, now);
    if r.ledger.avail >= 0 {
      Multiply(0, tick - r.ledger.availTick, p.quantum);
    } else {
      var debt := -r.ledger.avail;
      var end := EndTick(p, tick, debt);
      RoundUp(debt, p.quantum);
      TickBounds(p, now);
      Multiply(tick + 1, end, p.interval);
      TickOf(p, end);
      assert now + r.wait == end * p.interval;
      Multiply(end - tick, end - r.ledger.availTick, p.quantum);
    }
  }

  /** A refused take only brings the books up to date; it would have had to wait too long. */
  lemma RefusedTakes(p: Params, l: Ledger, now: nat, count: int, maxWait: int)
    requires ParamsOk(p) && Sound(p, l, Tick(p, now)) && !Take(p, l, now, count, maxWait).ok
    ensures var r := Take(p, l, now, count, maxWait);
            && r.ledger == Adjust(p, l, now) && r.ledger.granted == l.granted && r.wait == 0
            && (forall longer | Take(p, l, now, count, longer).ok :: longer > maxWait)
  {
  }

  /** After a wait, what is due now and what the ticks brought since are enough. */
  predicate Enough(p: Params, l: Ledger, now: nat, count: int, wait: nat)
    requires ParamsOk(p)
  {
    Due(p, l, Tick(p, now)) + (Tick(p, now + wait) - Tick(p, now)) * p.quantum >= count
  }

  /** The wait, if there is one, ends with the tick that brings the last of what is missing. */
  lemma FirstEnough(p: Params, l: Ledger, now: nat, count: int, wait: nat)
    requires ParamsOk(p) && count > Due(p, l, Tick(p, now))
    ensures Enough(p, l, now, count, wait) <==>
            now + wait >= EndTick(p, Tick(p, now), count - Due(p, l, Tick(p, now))) * p.interval
  {
    var tick, later, debt := Tick(p, now), Tick(p, now + wait), count - Due(p, l, Tick(p, now));
    hide Tick, Due;
    var end := EndTick(p, tick, debt);
    RoundUp(debt, p.quantum);
    TickBounds(p, now + wait);
    if later >= end {
      Multiply(end, later, p.interval);
      Multiply(end - tick, later - tick, p.quantum);
    } else {
      Multiply(later + 1, end, p.interval);
      Multiply(later - tick, end - tick - 1, p.quantum);
    }
  }

  /** A take is granted exactly if enough is there at once or after a wait that is allowed; the wait is the shortest. */
  lemma TakeExact(p: Params, l: Ledger, now: nat, count: int, maxWait: int)
    requires ParamsOk(p) && Sound(p, l, Tick(p, now)) && count > 0
    ensures var r := Take(p, l, now, count, maxWait);
            && (r.ok <==> Enough(p, l, now, count, 0) || exists w: nat :: w <= maxWait && Enough(p, l, now, count, w))
            && (r.ok ==> r.wait >= 0 && Enough(p, l, now, count, r.wait)
                         && forall w: nat | w < r.wait :: !Enough(p, l, now, count, w))
            && r.ledger.granted == l.granted + (if r.ok then count else 0)
            && r.ledger.avail == Due(p, l, Tick(p, now)) - (if r.ok then count else 0)
  {
    hide Tick, Adjust, Enough;
    var due := Due(p, l, Tick(p, now));
    RefillExact(p, l, now);
    EnoughNow(p, l, now, count);
    if count > due {
      hide Due, EndTick;
      forall w: nat
        ensures Enough(p, l, now, count, w) <==>
                now + w >= EndTick(p, Tick(p, now), count - due) * p.interval
      {
        FirstEnough(p, l, now, count, w);
      }
      var wait := EndTick(p, Tick(p, now), count - due) * p.interval - now;
      assert wait > 0 by { assert !Enough(p, l, now, count, 0); }
      assert Enough(p, l, now, count, wait);
    }
  }

  lemma EnoughNow(p: Params, l: Ledger, now: nat, count: int)
    requires ParamsOk(p)
    ensures Enough(p, l, now, count, 0) <==> Due(p, l, Tick(p, now)) >= count
  {
    assert now + 0 == now;
  }

  /** The quanta that are tried for a rate grow. */
  function NextQuantum(q: int): (r: int)
    requires q >= 1
    ensures q < r <= q * 11 / 10 + 1
  {
    var q1 := q * 11 / 10;
    if q1 == q then q1 + 1 else q1
  }

  // ---------------------------------------------------------------- runs

  datatype Op = TakeOp(now: nat, count: int, maxWait: int) | TakeNowOp(now: nat, count: int) | LookOp(now: nat)

  function Apply(p: Params, l: Ledger, op: Op): Ledger
    requires ParamsOk(p)
  {
    match op
    case TakeOp(now, count, maxWait) => Take(p, l, now, count, maxWait).ledger
    case TakeNowOp(now, count) => TakeAvailable(p, l, now, count).0
    case LookOp(now) => Adjust(p, l, now)
  }

  function Run(p: Params, l: Ledger, ops: seq<Op>): Ledger
    requires ParamsOk(p)
    decreases |ops|
  {
    if ops == [] then l else Run(p, Apply(p, l, ops[0]), ops[1..])
  }

  /** The times of the operations do not go back, from `now` on. */
  predicate InOrder(now: nat, ops: seq<Op>)
    decreases |ops|
  {
    ops == [] || (now <= ops[0].now && InOrder(ops[0].now, ops[1..]))
  }

  function LastTime(now: nat, ops: seq<Op>): nat
    decreases |ops|
  {
    if ops == [] then now else LastTime(ops[0].now, ops[1..])
  }

  lemma LaterTick(p: Params, a: nat, b: nat)
    requires ParamsOk(p) && a <= b
    ensures Tick(p, a) <= Tick(p, b)
  {
    TickBounds(p, a);
    TickBounds(p, b);
    if Tick(p, a) > Tick(p, b) { Multiply(Tick(p, b) + 1, Tick(p, a), p.interval); assert false; }
  }

  lemma ApplySound(p: Params, l: Ledger, op: Op)
    requires ParamsOk(p) && Sound(p, l, Tick(p, op.now))
    ensures var a := Apply(p, l, op);
            && Sound(p, a, Tick(p, op.now)) && l.granted <= a.granted && l.availTick <= a.availTick
            && (a.granted - l.granted) + (a.avail - l.avail) <= (a.availTick - l.availTick) * p.quantum
  {
    hide Tick;
    AdjustSound(p, l, op.now);
  }

  /** What is granted and what is left grow by no more than the ticks that were credited. */
  lemma {:induction false} RunConserves(p: Params, l: Ledger, now: nat, ops: seq<Op>)
    requires ParamsOk(p) && Sound(p, l, Tick(p, now)) && InOrder(now, ops)
    ensures var r := Run(p, l, ops);
            && Sound(p, r, Tick(p, LastTime(now, ops))) && l.granted <= r.granted
            && (r.granted - l.granted) + (r.avail - l.avail) <= (r.availTick - l.availTick) * p.quantum
    decreases |ops|
  {
    if ops != [] {
      LaterTick(p, now, ops[0].now);
      ApplySound(p, l, ops[0]);
      var a := Apply(p, l, ops[0]);
      RunConserves(p, a, ops[0].now, ops[1..]);
      var r := Run(p, l, ops);
      Distribute(r.availTick - a.availTick, a.availTick - l.availTick, p.quantum);
    }
  }

  /** What an operation lets go because the bucket is full. */
  function Spilt(p: Params, l: Ledger, op: Op): int
    requires ParamsOk(p)
  {
    if (op.LookOp? || op.count > 0) && l.avail < p.capacity
    then Balance(p, l, Tick(p, op.now)) - Due(p, l, Tick(p, op.now))
    else 0
  }

  function AllSpilt(p: Params, l: Ledger, ops: seq<Op>): int
    requires ParamsOk(p)
    decreases |ops|
  {
    if ops == [] then 0 else Spilt(p, l, ops[0]) + AllSpilt(p, Apply(p, l, ops[0]), ops[1..])
  }

  lemma ApplyExact(p: Params, l: Ledger, op: Op)
    requires ParamsOk(p) && Sound(p, l, Tick(p, op.now))
    ensures var a := Apply(p, l, op);
            && Spilt(p, l, op) >= 0
            && (a.granted - l.granted) + (a.avail - l.avail) + Spilt(p, l, op) ==
               (a.availTick - l.availTick) * p.quantum
  {
    hide Tick, Adjust, Balance, Due;
    RefillExact(p, l, op.now);
    RefillBalances(p, l, Tick(p, op.now));
    if l.avail == p.capacity { FullStays(p, l, op.now); }
  }

  lemma RefillBalances(p: Params, l: Ledger, tick: int)
    ensures Due(p, l, tick) <= Balance(p, l, tick) == l.avail + (tick - l.availTick) * p.quantum
  {
  }

  lemma FullStays(p: Params, l: Ledger, now: nat)
    requires ParamsOk(p) && l.avail >= p.capacity
    ensures Adjust(p, l, now) == l
  {
  }

  /** The books balance: what is granted, left and spilt is exactly what the ticks brought. */
  lemma {:induction false} RunBalances(p: Params, l: Ledger, now: nat, ops: seq<Op>)
    requires ParamsOk(p) && Sound(p, l, Tick(p, now)) && InOrder(now, ops)
    ensures var r := Run(p, l, ops);
            && AllSpilt(p, l, ops) >= 0
            && (r.granted - l.granted) + (r.avail - l.avail) + AllSpilt(p, l, ops) ==
               (r.availTick - l.availTick) * p.quantum
    decreases |ops|
  {
    hide Tick, Apply, Spilt, Sound;
    if ops != [] {
      LaterTick(p, now, ops[0].now);
      SoundLater(p, l, Tick(p, now), Tick(p, ops[0].now));
      ApplySound(p, l, ops[0]);
      ApplyExact(p, l, ops[0]);
      var a, r := Apply(p, l, ops[0]), Run(p, l, ops);
      RunBalances(p, a, ops[0].now, ops[1..]);
      Distribute(r.availTick - a.availTick, a.availTick - l.availTick, p.quantum);
    }
  }

  /** Taking only lowers the balance, so what would not fill the bucket untouched does not fill it. */
  lemma {:induction false} NoneSpilt(p: Params, l: Ledger, now: nat, ops: seq<Op>)
    requires ParamsOk(p) && Sound(p, l, Tick(p, now)) && InOrder(now, ops)
    requires Balance(p, l, Tick(p, LastTime(now, ops))) <= p.capacity
    ensures AllSpilt(p, l, ops) == 0
    decreases |ops|
  {
    hide Tick, Apply, Sound;
    if ops != [] {
      LaterTick(p, now, ops[0].now);
      LastLater(ops[0].now, ops[1..]);
      LaterTick(p, ops[0].now, LastTime(now, ops));
      SoundLater(p, l, Tick(p, now), Tick(p, ops[0].now));
      ApplySound(p, l, ops[0]);
      ApplyExact(p, l, ops[0]);
      var a, tick, last := Apply(p, l, ops[0]), Tick(p, ops[0].now), Tick(p, LastTime(now, ops));
      Multiply(tick - l.availTick, last - l.availTick, p.quantum);
      Distribute(last - a.availTick, a.availTick - l.availTick, p.quantum);
      NoneSpilt(p, a, ops[0].now, ops[1..]);
    }
  }

  lemma {:induction false} LastLater(now: nat, ops: seq<Op>)
    requires InOrder(now, ops)
    ensures now <= LastTime(now, ops)
    decreases |ops|
  {
    if ops != [] { LastLater(ops[0].now, ops[1..]); }
  }

  /** Where the ticks do not fill the bucket, a run takes from the balance just what it grants. */
  lemma NothingLost(p: Params, l: Ledger, now: nat, ops: seq<Op>, tick: int)
    requires ParamsOk(p) && Sound(p, l, Tick(p, now)) && InOrder(now, ops)
    requires Balance(p, l, Tick(p, LastTime(now, ops))) <= p.capacity
    ensures Balance(p, Run(p, l, ops), tick) == Balance(p, l, tick) - (Run(p, l, ops).granted - l.granted)
  {
    hide Run, AllSpilt, Tick;
    RunBalances(p, l, now, ops);
    NoneSpilt(p, l, now, ops);
    var r := Run(p, l, ops);
    Distribute(tick - r.availTick, r.availTick - l.availTick, p.quantum);
  }

  /**
   From the start on, no more is granted than the capacity and what the ticks bring, by the
   tick at which all that was granted is there.
   */
  lemma GrantedBound(p: Params, ops: seq<Op>, tick: int)
    requires ParamsOk(p) && InOrder(0, ops) && Balance(p, Run(p, Ledger(p.capacity, 0, 0), ops), tick) >= 0
    ensures Run(p, Ledger(p.capacity, 0, 0), ops).granted <= p.capacity + tick * p.quantum
  {
    var l := Ledger(p.capacity, 0, 0);
    RunConserves(p, l, 0, ops);
    var r := Run(p, l, ops);
    Distribute(tick, r.availTick, p.quantum);
  }

  // ---------------------------------------------------------------- windows

  /** No operation asks for more than the bucket holds. */
  predicate Modest(p: Params, ops: seq<Op>) {
    forall op | op in ops && !op.LookOp? :: op.count <= p.capacity
  }

  /**
   In a window that begins at tick `from`, with `before` granted until then. Up to the first refill at
   most one capacity is granted; then another one is there, and the ticks of the window.
   */
  predicate InWindow(p: Params, l: Ledger, from: int, before: int) {
    if l.availTick < from then l.granted - before <= p.capacity && (l.avail >= p.capacity ==> l.granted == before)
    else l.granted - before + l.avail <= 2 * p.capacity + (l.availTick - from) * p.quantum
  }

  lemma ApplyInWindow(p: Params, l: Ledger, op: Op, from: int, before: int)
    requires ParamsOk(p) && Sound(p, l, Tick(p, op.now)) && InWindow(p, l, from, before) && from <= Tick(p, op.now)
    requires op.LookOp? || op.count <= p.capacity
    ensures InWindow(p, Apply(p, l, op), from, before)
  {
    AdjustSound(p, l, op.now);
    var a := Adjust(p, l, op.now);
    Distribute(a.availTick - l.availTick, l.availTick - from, p.quantum);
    Multiply(0, a.availTick - l.availTick, p.quantum);
    if a.availTick >= from { Multiply(0, a.availTick - from, p.quantum); }
    assert InWindow(p, a, from, before);
  }

  lemma {:induction false} RunInWindow(p: Params, l: Ledger, now: nat, ops: seq<Op>, from: int, before: int)
    requires ParamsOk(p) && Sound(p, l, Tick(p, now)) && InOrder(now, ops) && Modest(p, ops)
    requires InWindow(p, l, from, before) && from <= Tick(p, now)
    ensures InWindow(p, Run(p, l, ops), from, before)
    decreases |ops|
  {
    hide Apply, InWindow, Sound;
    if ops != [] {
      LaterTick(p, now, ops[0].now);
      SoundLater(p, l, Tick(p, now), Tick(p, ops[0].now));
      assert ops[0] in ops;
      ApplySound(p, l, ops[0]);
      ApplyInWindow(p, l, ops[0], from, before);
      RunInWindow(p, Apply(p, l, ops[0]), ops[0].now, ops[1..], from, before);
    }
  }

  lemma SoundLater(p: Params, l: Ledger, a: int, b: int)
    requires Sound(p, l, a) && a <= b
    ensures Sound(p, l, b)
  {
  }

  /**
   In any window of a run in which no single request is larger than the capacity, at most twice the
   capacity is granted, and what the ticks of the window bring.
   */
  lemma WindowBound(p: Params, l: Ledger, now: nat, ops: seq<Op>, tick: int)
    requires ParamsOk(p) && Sound(p, l, Tick(p, now)) && InOrder(now, ops) && Modest(p, ops)
    requires Tick(p, now) <= tick && Balance(p, Run(p, l, ops), tick) >= 0
    ensures Run(p, l, ops).granted - l.granted <= 2 * p.capacity + (tick - Tick(p, now)) * p.quantum
  {
    hide Apply, Run;
    var from := Tick(p, now);
    RunInWindow(p, l, now, ops, from, l.granted);
    var r := Run(p, l, ops);
    Multiply(0, tick - from, p.quantum);
    Distribute(tick - r.availTick, r.availTick - from, p.quantum);
  }

  /** Between now and a tick at which all that was granted is there, at most this much is granted. */
  predicate WithinWindow(p: Params, l: Ledger, now: nat, ops: seq<Op>, tick: int)
    requires ParamsOk(p)
  {
    Run(p, l, ops).granted - l.granted <= 2 * p.capacity + (tick - Tick(p, now)) * p.quantum
  }

  /** Ops that take place in the window and are paid for at a tick of it. */
  predicate Settles(p: Params, l: Ledger, now: nat, ops: seq<Op>, tick: int)
    requires ParamsOk(p)
  {
    InOrder(now, ops) && Tick(p, now) <= tick && Balance(p, Run(p, l, ops), tick) >= 0
  }

  /** What a full spell has left to credit is at most one capacity. */
  lemma ShortSpell(p: Params, l: Ledger, now: nat, ops: seq<Op>, tick: int)
    requires ParamsOk(p) && Sound(p, l, Tick(p, now)) && Settles(p, l, now, ops, tick)
    requires (Tick(p, now) - l.availTick) * p.quantum <= p.capacity
    ensures WithinWindow(p, l, now, ops, tick)
  {
    hide Run, InOrder;
    RunConserves(p, l, now, ops);
    var r, from := Run(p, l, ops), Tick(p, now);
    Distribute(tick - r.availTick, r.availTick - l.availTick, p.quantum);
    Distribute(tick - from, from - l.availTick, p.quantum);
  }

  lemma FirstRefill(p: Params, l: Ledger, op: Op)
    requires ParamsOk(p) && Sound(p, l, Tick(p, op.now)) && l.avail < p.capacity && (op.LookOp? || op.count > 0)
    ensures var a := Apply(p, l, op); a.availTick == Tick(p, op.now) && a.avail + a.granted - l.granted <= p.capacity
  {
  }

  /** A bucket that is not full is up to date after its first operation. */
  lemma {:induction false} NotFull(p: Params, l: Ledger, now: nat, ops: seq<Op>, tick: int, from: int)
    requires ParamsOk(p) && Sound(p, l, Tick(p, now)) && InOrder(now, ops) && Balance(p, Run(p, l, ops), tick) >= 0
    requires l.avail < p.capacity && from <= Tick(p, now) && from <= tick
    ensures Run(p, l, ops).granted - l.granted <= p.capacity + (tick - from) * p.quantum
    decreases |ops|
  {
    hide Tick, Apply;
    Multiply(0, tick - from, p.quantum);
    if ops != [] {
      var op := ops[0];
      LaterTick(p, now, op.now);
      if !op.LookOp? && op.count <= 0 {
        Nothing(p, l, op);
        NotFull(p, l, op.now, ops[1..], tick, from);
      } else {
        FirstRefill(p, l, op);
        ApplySound(p, l, op);
        var a, r := Apply(p, l, op), Run(p, l, ops);
        RunConserves(p, a, op.now, ops[1..]);
        Distribute(tick - r.availTick, r.availTick - a.availTick, p.quantum);
        Multiply(from, a.availTick, p.quantum);
        Distribute(tick, a.availTick, p.quantum);
        Distribute(tick, from, p.quantum);
      }
    }
  }

  lemma Nothing(p: Params, l: Ledger, op: Op)
    requires ParamsOk(p) && !op.LookOp? && op.count <= 0
    ensures Apply(p, l, op) == l
  {
  }

  /** The requests that use a long full spell twice: once on credit, and once when it is credited. */
  function Overdraw(p: Params, l: Ledger, now: nat): seq<Op>
    requires ParamsOk(p)
  {
    var spell := (Tick(p, now) - l.availTick) * p.quantum;
    var wait := if spell > p.capacity then EndTick(p, Tick(p, now), spell - p.capacity) * p.interval - now else 0;
    [TakeOp(now, spell, wait), LookOp(now), TakeOp(now, p.capacity, 0)]
  }

  lemma LongSpell(p: Params, l: Ledger, now: nat)
    requires ParamsOk(p) && Sound(p, l, Tick(p, now))
    requires l.avail >= p.capacity && (Tick(p, now) - l.availTick) * p.quantum > p.capacity
    ensures var ops := Overdraw(p, l, now);
            Settles(p, l, now, ops, Tick(p, now)) && !WithinWindow(p, l, now, ops, Tick(p, now))
  {
    hide Tick, EndTick;
    var ops, tick := Overdraw(p, l, now), Tick(p, now);
    var spell := (tick - l.availTick) * p.quantum;
    var a := Apply(p, l, ops[0]);
    assert a == Ledger(p.capacity - spell, l.availTick, l.granted + spell);
    var b := Apply(p, a, ops[1]);
    assert b == Ledger(p.capacity, tick, l.granted + spell);
    var c := Apply(p, b, ops[2]);
    assert c == Ledger(0, tick, l.granted + spell + p.capacity);
    ThreeOps(p, l, ops, now);
  }

  lemma ThreeOps(p: Params, l: Ledger, ops: seq<Op>, now: nat)
    requires ParamsOk(p) && |ops| == 3 && ops[0].now == ops[1].now == ops[2].now == now
    ensures Run(p, l, ops) == Apply(p, Apply(p, Apply(p, l, ops[0]), ops[1]), ops[2])
    ensures InOrder(now, ops)
  {
    hide Apply;
    var rest, last := ops[1..], ops[2..];
    assert rest[1..] == last && last[1..] == [];
    assert InOrder(now, last) && InOrder(now, rest);
    var a := Apply(p, l, ops[0]);
    var b := Apply(p, a, ops[1]);
    assert Run(p, b, last) == Run(p, Apply(p, b, ops[2]), []);
    assert Run(p, a, rest) == Run(p, b, last);
  }

  /**
   The bound of the window holds for every run of requests, of whatever size, exactly if the bucket is not full when the
   window begins, or has not been full for longer than it takes to fill it.
   */
  lemma WindowExact(p: Params, l: Ledger, now: nat)
    requires ParamsOk(p) && Sound(p, l, Tick(p, now))
    ensures (forall ops, tick | Settles(p, l, now, ops, tick) :: WithinWindow(p, l, now, ops, tick)) <==>
            (l.avail < p.capacity || (Tick(p, now) - l.availTick) * p.quantum <= p.capacity)
  {
    hide Run, InOrder, Tick;
    if l.avail < p.capacity || (Tick(p, now) - l.availTick) * p.quantum <= p.capacity {
      forall ops, tick | Settles(p, l, now, ops, tick)
        ensures WithinWindow(p, l, now, ops, tick)
      {
        if l.avail < p.capacity {
          NotFull(p, l, now, ops, tick, Tick(p, now));
        } else {
          ShortSpell(p, l, now, ops, tick);
        }
      }
    } else {
      LongSpell(p, l, now);
    }
  }

  const SMALL := Params(1, 1, 1)

  /** One request larger than the capacity, after a full spell, and the bound of the window fails. */
  lemma WindowCounterexample()
    ensures var ops := [TakeOp(10, 6, 100), TakeOp(10, 1, 0), TakeOp(10, 5, 100)];
            var l := Ledger(1, 0, 0);
            var r := Run(SMALL, l, ops);
            && Sound(SMALL, l, Tick(SMALL, 10)) && InOrder(10, ops) && !Modest(SMALL, ops) && Balance(SMALL, r, 15) >= 0
            && r.granted - l.granted == 12 > 2 * SMALL.capacity + (15 - Tick(SMALL, 10)) * SMALL.quantum
  {
  }
}
