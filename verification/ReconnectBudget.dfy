/** The token bucket that paces connect attempts. Times are nanoseconds; the clock is a
    parameter of every operation. */
module ReconnectBudget {
  import opened Arithmetic

  datatype Bucket = Bucket(tokens: nat, capacity: nat, period: nat, lastRefill: nat)

  predicate Valid(b: Bucket) {
    b.period >= 1 && b.tokens <= b.capacity
  }

  /** `now` is read for the elapsed time, `later` where the refill clock starts anew. */
  function Refill(b: Bucket, now: nat, later: nat): Bucket
    requires Valid(b) && b.lastRefill <= now <= later
  {
    if b.tokens >= b.capacity then b.(lastRefill := later)
    else
      var earned := (now - b.lastRefill) / b.period;
      if earned == 0 then b
      else
        var credit := Min(earned, b.capacity);
        var tokens := Min(b.tokens + credit, b.capacity);
        if tokens >= b.capacity then b.(tokens := tokens, lastRefill := later)
        else b.(tokens := tokens, lastRefill := b.lastRefill + b.period * credit)
  }

  /** How long until the next attempt is allowed, for a bucket just refilled. */
  function WaitTime(b: Bucket, now: nat): nat
    requires b.lastRefill <= now
  {
    if b.tokens > 0 then 0 else SatSub(b.period, now - b.lastRefill)
  }

  function Success(b: Bucket): Bucket { b.(tokens := Min(b.tokens + 1, b.capacity)) }

  function Failure(b: Bucket): Bucket { b.(tokens := SatSub(b.tokens, 1)) }

  class ReconnectBudget {
    var tokens: nat
    const capacity: nat
    const period: nat
    var lastRefill: nat

    function View(): Bucket
      reads this
    {
      Bucket(tokens, capacity, period, lastRefill)
    }

    constructor (capacity: nat, period: nat, now: nat)
      ensures View() == Bucket(capacity, capacity, period, now)
    {
      this.tokens, this.capacity, this.period, this.lastRefill := capacity, capacity, period, now;
    }

    method DoRefill(now: nat, later: nat)
      requires Valid(View()) && lastRefill <= now <= later
      modifies this
      ensures View() == Refill(old(View()), now, later)
    {
      if tokens >= capacity {
        lastRefill := later;
        return;
      }
      var earned := (now - lastRefill) / period;
      if earned == 0 {
        return;
      }
      var credit := Min(earned, capacity);
      tokens := Min(tokens + credit, capacity);
      if tokens >= capacity {
        lastRefill := later;
      } else {
        lastRefill := lastRefill + period * credit;
      }
    }

    /** The clock is read again after refilling. */
    method Wait(now: nat, later: nat, last: nat) returns (wait: nat)
      requires Valid(View()) && lastRefill <= now <= later <= last
      modifies this
      ensures View() == Refill(old(View()), now, later)
      ensures lastRefill <= last && wait == WaitTime(View(), last)
    {
      RefillValid(View(), now, later);
      DoRefill(now, later);
      if tokens > 0 {
        wait := 0;
      } else {
        wait := SatSub(period, last - lastRefill);
      }
    }

    method RecordSuccess(now: nat, later: nat)
      requires Valid(View()) && lastRefill <= now <= later
      modifies this
      ensures View() == Success(Refill(old(View()), now, later))
    {
      DoRefill(now, later);
      tokens := Min(tokens + 1, capacity);
    }

    method RecordFailure(now: nat, later: nat)
      requires Valid(View()) && lastRefill <= now <= later
      modifies this
      ensures View() == Failure(Refill(old(View()), now, later))
    {
      DoRefill(now, later);
      tokens := SatSub(tokens, 1);
    }

    method Tokens(now: nat, later: nat) returns (n: nat)
      requires Valid(View()) && lastRefill <= now <= later
      modifies this
      ensures View() == Refill(old(View()), now, later) && n == tokens
    {
      DoRefill(now, later);
      n := tokens;
    }
  }

  // ---- refilling ----

  lemma RefillValid(b: Bucket, now: nat, later: nat)
    requires Valid(b) && b.lastRefill <= now <= later
    ensures var u := Refill(b, now, later);
      && Valid(u) && u.lastRefill <= later && u.capacity == b.capacity && u.period == b.period && u.tokens >= b.tokens
      && (u.tokens < u.capacity ==> u.lastRefill <= now < u.lastRefill + u.period)
      && (u.tokens == u.capacity ==> u.lastRefill == later)
  {
    if b.tokens < b.capacity {
      DivBounds(now - b.lastRefill, b.period);
    }
  }

  /** Below capacity, the refill is exactly the whole periods elapsed. */
  lemma RefillExact(b: Bucket, now: nat, later: nat)
    requires Valid(b) && b.lastRefill <= now <= later && b.tokens < b.capacity
    ensures var e := (now - b.lastRefill) / b.period;
      Refill(b, now, later) == if b.tokens + e >= b.capacity then b.(tokens := b.capacity, lastRefill := later)
                               else b.(tokens := b.tokens + e, lastRefill := b.lastRefill + e * b.period)
  {
  }

  /** Reading the bucket in between changes nothing: a refill is forgotten by the next one. */
  lemma RefillTwice(b: Bucket, now1: nat, later1: nat, now2: nat, later2: nat)
    requires Valid(b) && b.lastRefill <= now1 <= later1 <= now2 <= later2
    ensures Valid(Refill(b, now1, later1)) && Refill(b, now1, later1).lastRefill <= later1
    ensures Refill(Refill(b, now1, later1), now2, later2) == Refill(b, now2, later2)
  {
    RefillValid(b, now1, later1);
    if b.tokens < b.capacity {
      RefillExact(b, now1, later1);
      RefillExact(b, now2, later2);
      var p, x, y := b.period, now1 - b.lastRefill, now2 - b.lastRefill;
      PeriodsInTwo(x, y, p);
      if b.tokens + x / p < b.capacity {
        RefillExact(b.(tokens := b.tokens + x / p, lastRefill := b.lastRefill + x / p * p), now2, later2);
      }
    }
  }

  lemma PeriodsInTwo(x: nat, y: nat, p: nat)
    requires p >= 1 && x <= y
    ensures x / p * p <= x && x / p <= y / p
    ensures (y - x / p * p) / p == y / p - x / p
    ensures x / p * p + (y / p - x / p) * p == y / p * p
  {
    DivBounds(x, p);
    DivMonotone(x, y, p);
    DivShift(y, p, x / p);
    Distribute(x / p, y / p - x / p, p);
  }

  /** The bucket as a clock that never sleeps would keep it: tokens, and nanoseconds into
      the current refill period. */
  function Eager(b: Bucket, t: nat): (nat, nat)
    requires Valid(b) && b.lastRefill <= t
  {
    var u := Refill(b, t, t);
    RefillValid(b, t, t);
    (u.tokens, if u.tokens < u.capacity then t - u.lastRefill else 0)
  }

  /** One nanosecond of that clock. */
  function Tick(capacity: nat, period: nat, e: (nat, nat)): (nat, nat) {
    if e.0 >= capacity then (e.0, 0)
    else if e.1 + 1 < period then (e.0, e.1 + 1)
    else (e.0 + 1, 0)
  }

  function Ticks(capacity: nat, period: nat, e: (nat, nat), k: nat): (nat, nat) {
    if k == 0 then e else Tick(capacity, period, Ticks(capacity, period, e, k - 1))
  }

  lemma OneTick(u: Bucket, t: nat)
    requires Valid(u) && u.lastRefill <= t
    requires u.tokens < u.capacity ==> t - u.lastRefill < u.period
    requires u.tokens == u.capacity ==> u.lastRefill == t
    ensures Eager(u, t + 1) == Tick(u.capacity, u.period, (u.tokens, t - u.lastRefill))
  {
    if u.tokens < u.capacity {
      RefillExact(u, t + 1, t + 1);
      DivUnique(t + 1 - u.lastRefill, u.period, if t + 1 - u.lastRefill < u.period then 0 else 1);
    }
  }

  lemma EagerStep(b: Bucket, t: nat)
    requires Valid(b) && b.lastRefill <= t
    ensures Eager(b, t + 1) == Tick(b.capacity, b.period, Eager(b, t))
  {
    RefillValid(b, t, t);
    RefillTwice(b, t, t, t + 1, t + 1);
    OneTick(Refill(b, t, t), t);
  }

  /** The lazy bucket is the eager one, looked at whenever it is looked at. */
  lemma {:induction false} LazyRefinesEager(b: Bucket, t: nat, k: nat)
    requires Valid(b) && b.lastRefill <= t
    ensures Eager(b, t + k) == Ticks(b.capacity, b.period, Eager(b, t), k)
  {
    if k == 0 {
    } else {
      LazyRefinesEager(b, t, k - 1);
      EagerStep(b, t + k - 1);
    }
  }

  /** And the lazy bucket is looked at by refills that take their time. */
  lemma EagerAfterRefill(b: Bucket, now: nat, later: nat, t: nat)
    requires Valid(b) && b.lastRefill <= now <= later <= t
    ensures Valid(Refill(b, now, later)) && Refill(b, now, later).lastRefill <= t
    ensures Eager(Refill(b, now, later), t) == Eager(b, t)
  {
    RefillValid(b, now, later);
    RefillTwice(b, now, later, t, t);
  }

  /** `wait_time` is exact: the bucket stays empty until just before it has passed, and
      holds a token when it has. */
  lemma WaitTimeExact(b: Bucket, now: nat, later: nat, last: nat, t: nat, end: nat)
    requires Valid(b) && b.capacity >= 1 && b.lastRefill <= now <= later <= last <= t <= end
    ensures Refill(b, now, later).lastRefill <= last
    ensures Refill(b, t, end).tokens > 0 <==> t >= last + WaitTime(Refill(b, now, later), last)
  {
    RefillValid(b, now, later);
    RefillTwice(b, now, later, t, end);
    var u := Refill(b, now, later);
    RefillValid(u, t, end);
    if u.tokens == 0 {
      RefillExact(u, t, end);
      if t - u.lastRefill < u.period {
        DivUnique(t - u.lastRefill, u.period, 0);
      } else {
        DivAtLeast(t - u.lastRefill, u.period, 1);
      }
    }
  }

  // ---- the rate over any window ----

  /** What a caller that runs one attempt at a time does, with everybody else's reads. Every
      refill reads the clock twice, and the wait before an attempt once more. */
  datatype Op =
    | Read(t: nat, later: nat)
    | Begin(t: nat, later: nat, last: nat)
    | Succeed(t: nat, later: nat)
    | Fail(t: nat, later: nat)

  function EndOf(op: Op): nat { if op.Begin? then op.last else op.later }

  datatype Caller = Caller(bucket: Bucket, now: nat, busy: bool)

  /** An attempt begins only when the wait is over, and ends once. */
  predicate Allowed(c: Caller, op: Op)
    requires Valid(c.bucket) && c.bucket.lastRefill <= c.now
  {
    && c.now <= op.t <= op.later <= EndOf(op)
    && (op.Begin? ==> !c.busy && Refill(c.bucket, op.t, op.later).lastRefill <= op.last
                      && WaitTime(Refill(c.bucket, op.t, op.later), op.last) == 0)
    && (op.Succeed? || op.Fail? ==> c.busy)
  }

  function Do(c: Caller, op: Op): Caller
    requires Valid(c.bucket) && c.bucket.lastRefill <= c.now && Allowed(c, op)
  {
    var u := Refill(c.bucket, op.t, op.later);
    match op
    case Read(_, later) => Caller(u, later, c.busy)
    case Begin(_, _, last) => Caller(u, last, true)
    case Succeed(_, later) => Caller(Success(u), later, false)
    case Fail(_, later) => Caller(Failure(u), later, false)
  }

  /** The next refill finds a token. */
  predicate Ready(c: Caller)
    requires c.bucket.lastRefill <= c.now
  {
    c.bucket.tokens >= 1 || c.now - c.bucket.lastRefill >= c.bucket.period
  }

  predicate Sound(c: Caller) {
    Valid(c.bucket) && c.bucket.lastRefill <= c.now && (c.busy && c.bucket.capacity >= 1 ==> Ready(c))
  }

  /** A bucket with room that was ready has a token after a refill. */
  lemma ReadyTakes(c: Caller, t: nat, later: nat)
    requires Valid(c.bucket) && c.bucket.lastRefill <= c.now <= t <= later
    requires Ready(c) && c.bucket.capacity >= 1
    ensures Refill(c.bucket, t, later).tokens >= 1
  {
    RefillValid(c.bucket, t, later);
    if c.bucket.tokens == 0 {
      DivAtLeast(t - c.bucket.lastRefill, c.bucket.period, 1);
      RefillExact(c.bucket, t, later);
    }
  }

  lemma DoSound(c: Caller, op: Op)
    requires Sound(c) && Allowed(c, op)
    ensures Sound(Do(c, op)) && Do(c, op).now == EndOf(op)
    ensures Do(c, op).bucket.capacity == c.bucket.capacity && Do(c, op).bucket.period == c.bucket.period
  {
    RefillValid(c.bucket, op.t, op.later);
    if c.busy && c.bucket.capacity >= 1 { ReadyTakes(c, op.t, op.later); }
  }

  predicate Disciplined(c: Caller, ops: seq<Op>)
    requires Sound(c)
    decreases |ops|
  {
    if ops == [] then true
    else Allowed(c, ops[0]) && (DoSound(c, ops[0]); Disciplined(Do(c, ops[0]), ops[1..]))
  }

  function Failures(ops: seq<Op>): nat {
    if ops == [] then 0 else (if ops[0].Fail? then 1 else 0) + Failures(ops[1..])
  }

  function Successes(ops: seq<Op>): nat {
    if ops == [] then 0 else (if ops[0].Succeed? then 1 else 0) + Successes(ops[1..])
  }

  function WorthOf(tokens: nat, capacity: nat, period: nat, phase: nat): nat {
    if tokens >= capacity then capacity * period else Min(tokens * period + phase, capacity * period)
  }

  /** What the bucket is worth at time t, in nanoseconds of waiting. */
  function Worth(b: Bucket, t: nat): nat
    requires b.lastRefill <= t
  {
    WorthOf(b.tokens, b.capacity, b.period, t - b.lastRefill)
  }

  lemma WorthOfRefill(b: Bucket, t: nat)
    requires Valid(b) && b.lastRefill <= t
    ensures var u := Refill(b, t, t); Valid(u) && u.lastRefill <= t && Worth(u, t) == Worth(b, t)
  {
    RefillValid(b, t, t);
    if b.tokens < b.capacity {
      RefillExact(b, t, t);
      var e := (t - b.lastRefill) / b.period;
      DivBounds(t - b.lastRefill, b.period);
      Distribute(b.tokens, e, b.period);
      if b.tokens + e >= b.capacity {
        Distribute(b.tokens + e - b.capacity, b.capacity, b.period);
      }
    }
  }

  /** From the refill's first reading to the end of the operation. */
  lemma WorthUntil(b: Bucket, t: nat, later: nat, end: nat, n: nat)
    requires Valid(b) && b.lastRefill <= t <= later <= end
    ensures var u0, u := Refill(b, t, t), Refill(b, t, later);
      && u0.lastRefill <= t && u.lastRefill <= end && u.tokens == u0.tokens
      && WorthOf(n, b.capacity, b.period, end - u.lastRefill) <= WorthOf(n, b.capacity, b.period, t - u0.lastRefill) + (end - t)
  {
    RefillValid(b, t, t);
    RefillValid(b, t, later);
  }

  lemma WorthOneLess(n: nat, capacity: nat, p: nat, phase: nat)
    requires 1 <= n <= capacity && (n < capacity ==> phase < p) && (n == capacity ==> phase == 0)
    ensures WorthOf(n - 1, capacity, p, phase) + p == WorthOf(n, capacity, p, phase)
  {
    Distribute(n - 1, 1, p);
    MulStep(n - 1, capacity, p);
    MulStep(n, capacity, p);
  }

  lemma WorthOneMore(n: nat, capacity: nat, p: nat, phase: nat)
    requires n <= capacity
    ensures WorthOf(Min(n + 1, capacity), capacity, p, phase) <= WorthOf(n, capacity, p, phase) + p
  {
    Distribute(n, 1, p);
    if n + 1 == capacity {
      assert WorthOf(n, capacity, p, phase) >= n * p;
    }
  }

  lemma WorthLater(n: nat, capacity: nat, p: nat, phase: nat, more: nat)
    ensures WorthOf(n, capacity, p, phase + more) <= WorthOf(n, capacity, p, phase) + more
  {
  }

  lemma WorthBefore(c: Caller, t: nat)
    requires Sound(c) && c.now <= t
    ensures var u := Refill(c.bucket, t, t);
      u.lastRefill <= t && Worth(u, t) <= Worth(c.bucket, c.now) + (t - c.now)
  {
    var b := c.bucket;
    WorthOfRefill(b, t);
    WorthLater(b.tokens, b.capacity, b.period, c.now - b.lastRefill, t - c.now);
  }

  /** A failure costs exactly one period, a success is worth at most one, and time adds
      no more than itself. */
  lemma WorthOfOp(c: Caller, op: Op)
    requires Sound(c) && Allowed(c, op) && c.bucket.capacity >= 1
    ensures Sound(Do(c, op))
    ensures Worth(Do(c, op).bucket, EndOf(op)) + (if op.Fail? then c.bucket.period else 0)
            <= Worth(c.bucket, c.now) + (EndOf(op) - c.now) + (if op.Succeed? then c.bucket.period else 0)
  {
    DoSound(c, op);
    var b := c.bucket;
    var u := Refill(b, op.t, op.t);
    WorthBefore(c, op.t);
    RefillValid(b, op.t, op.t);
    WorthUntil(b, op.t, op.later, EndOf(op), Do(c, op).bucket.tokens);
    if op.Fail? {
      ReadyTakes(c, op.t, op.t);
      WorthOneLess(u.tokens, u.capacity, u.period, op.t - u.lastRefill);
    } else if op.Succeed? {
      WorthOneMore(u.tokens, u.capacity, u.period, op.t - u.lastRefill);
    }
  }

  function EndTime(c: Caller, ops: seq<Op>): nat {
    if ops == [] then c.now else EndOf(ops[|ops| - 1])
  }

  lemma {:induction false} WorthOfRun(c: Caller, ops: seq<Op>)
    requires Sound(c) && Disciplined(c, ops) && c.bucket.capacity >= 1
    ensures EndTime(c, ops) >= c.now
    ensures Failures(ops) * c.bucket.period
            <= Worth(c.bucket, c.now) + (EndTime(c, ops) - c.now) + Successes(ops) * c.bucket.period
    decreases |ops|
  {
    if ops == [] {
    } else {
      var d := Do(c, ops[0]);
      DoSound(c, ops[0]);
      WorthOfOp(c, ops[0]);
      WorthOfRun(d, ops[1..]);
      assert EndTime(d, ops[1..]) == EndTime(c, ops);
      Distribute(if ops[0].Fail? then 1 else 0, Failures(ops[1..]), c.bucket.period);
      Distribute(if ops[0].Succeed? then 1 else 0, Successes(ops[1..]), c.bucket.period);
    }
  }

  /** Without room for a token an attempt begins only when a period passes between two
      readings of the clock, so each failure has a period of its own. */
  lemma {:induction false} RoomlessRun(c: Caller, ops: seq<Op>)
    requires Sound(c) && Disciplined(c, ops) && c.bucket.capacity == 0
    ensures EndTime(c, ops) >= c.now
    ensures Failures(ops) * c.bucket.period <= (EndTime(c, ops) - c.now) + (if c.busy then c.bucket.period else 0)
    decreases |ops|
  {
    if ops == [] {
    } else {
      var d := Do(c, ops[0]);
      DoSound(c, ops[0]);
      RoomlessRun(d, ops[1..]);
      assert EndTime(d, ops[1..]) == EndTime(c, ops);
      Distribute(if ops[0].Fail? then 1 else 0, Failures(ops[1..]), c.bucket.period);
    }
  }

  /** At most capacity + successes + one per whole refill period. */
  predicate Bounded(c: Caller, ops: seq<Op>)
    requires Sound(c)
  {
    Disciplined(c, ops) ==>
      && EndTime(c, ops) >= c.now
      && Failures(ops) <= c.bucket.capacity + Successes(ops) + (EndTime(c, ops) - c.now) / c.bucket.period
  }

  /** Over any window, from any bucket the operations leave, a disciplined caller fails at
      most so often. */
  lemma WindowBound(c: Caller, ops: seq<Op>)
    requires Sound(c) && (c.bucket.capacity >= 1 || !c.busy)
    ensures Bounded(c, ops)
  {
    var p := c.bucket.period;
    if !Disciplined(c, ops) {
    } else if c.bucket.capacity == 0 {
      RoomlessRun(c, ops);
      CountFromWorth(Failures(ops), 0, EndTime(c, ops) - c.now, p);
    } else {
      WorthOfRun(c, ops);
      Distribute(c.bucket.capacity, Successes(ops), p);
      CountFromWorth(Failures(ops), c.bucket.capacity + Successes(ops), EndTime(c, ops) - c.now, p);
    }
  }

  /** Exactly if there is room for a token, or no attempt under way that a bucket without room
      let begin. */
  lemma WindowBoundIff(c: Caller)
    requires Sound(c)
    ensures (forall ops :: Bounded(c, ops)) <==> c.bucket.capacity >= 1 || !c.busy
  {
    if c.bucket.capacity >= 1 || !c.busy {
      forall ops
        ensures Bounded(c, ops)
      {
        WindowBound(c, ops);
      }
    } else {
      var ops := [Fail(c.now, c.now)];
      assert ops[1..] == [];
      assert Failures([]) == 0 && Successes([]) == 0;
      assert Disciplined(c, ops) && EndTime(c, ops) == c.now;
      DivUnique(0, c.bucket.period, 0);
      assert Failures(ops) == 1 && Successes(ops) == 0;
      assert !Bounded(c, ops);
    }
  }

  /** And the `saturating_sub` of a failure never saturates: every failure takes a token. */
  lemma {:induction false} FailuresTakeTokens(c: Caller, ops: seq<Op>, k: nat)
    requires Sound(c) && Disciplined(c, ops) && k < |ops| && ops[k].Fail? && c.bucket.capacity >= 1
    ensures var d := After(c, ops[..k]);
      && Sound(d) && Allowed(d, ops[k]) && Refill(d.bucket, ops[k].t, ops[k].later).tokens >= 1
      && Do(d, ops[k]).bucket.tokens == Refill(d.bucket, ops[k].t, ops[k].later).tokens - 1
    decreases |ops|
  {
    if k == 0 {
      ReadyTakes(c, ops[0].t, ops[0].later);
    } else {
      DoSound(c, ops[0]);
      assert ops[..k][1..] == ops[1..][..k - 1];
      FailuresTakeTokens(Do(c, ops[0]), ops[1..], k - 1);
    }
  }

  function After(c: Caller, ops: seq<Op>): Caller
    requires Sound(c)
    decreases |ops|
  {
    if ops == [] then c
    else if Allowed(c, ops[0]) then DoSound(c, ops[0]); After(Do(c, ops[0]), ops[1..])
    else c
  }

  /** Some failure of a disciplined caller finds no token. */
  ghost predicate Saturates(c: Caller)
    requires Sound(c)
  {
    exists ops: seq<Op>, k: nat :: Disciplined(c, ops) && k < |ops| && FindsNone(c, ops, k)
  }

  predicate FindsNone(c: Caller, ops: seq<Op>, k: nat)
    requires Sound(c) && k < |ops|
  {
    var d := After(c, ops[..k]);
    ops[k].Fail? && d.bucket.tokens == 0 && Valid(d.bucket) && d.bucket.lastRefill <= ops[k].t <= ops[k].later
    && Refill(d.bucket, ops[k].t, ops[k].later).tokens == 0
  }

  /** For a new bucket that is so exactly if there is room for a token at all. */
  lemma SaturatesIff(capacity: nat, period: nat, start: nat)
    requires period >= 1
    ensures Saturates(Caller(Bucket(capacity, capacity, period, start), start, false)) <==> capacity == 0
  {
    var c := Caller(Bucket(capacity, capacity, period, start), start, false);
    if capacity == 0 {
      var ops := [Begin(start, start, start + period), Fail(start + period, start + period)];
      var d := Do(c, ops[0]);
      assert ops[1..] == [ops[1]] && ops[1..][1..] == [] && ops[..1] == [ops[0]] && ops[..1][1..] == [];
      assert Disciplined(d, ops[1..]);
      assert After(c, ops[..1]) == After(d, []) == d;
      assert FindsNone(c, ops, 1);
    } else {
      forall ops: seq<Op>, k: nat | Disciplined(c, ops) && k < |ops|
        ensures !FindsNone(c, ops, k)
      {
        if ops[k].Fail? { FailuresTakeTokens(c, ops, k); }
      }
    }
  }
}
