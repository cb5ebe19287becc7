/** The token bucket for outbound HTTPS calls. Durations are nanoseconds; refilling counts
    whole seconds. */
module RateLimit {
  import opened Arithmetic
  import opened Wrappers

  const SECOND: nat := 1_000_000_000

  function Secs(d: nat): nat { d / SECOND }

  datatype Limiter = Limiter(tokens: nat, lastRefill: nat, cap: nat, period: nat)

  predicate Valid(l: Limiter) { l.tokens <= l.cap }

  function Earned(elapsed: nat, period: nat): nat
    requires Secs(period) > 0
  {
    Secs(elapsed) / Secs(period)
  }

  predicate Due(l: Limiter, now: nat)
    requires l.lastRefill <= now
  {
    now - l.lastRefill >= l.period && l.tokens < l.cap
  }

  /** The clock is read once for the elapsed time and again for the new refill time. None is
      the panic of a division by zero: the period is shorter than a second. */
  function Tick(l: Limiter, now: nat, later: nat): Option<Limiter>
    requires l.lastRefill <= now <= later
  {
    if !Due(l, now) then Some(l)
    else if Secs(l.period) == 0 then None
    else Some(l.(tokens := Min(l.tokens + Earned(now - l.lastRefill, l.period), l.cap), lastRefill := later))
  }

  /** A panic leaves the bucket as it is. */
  function Ticked(l: Limiter, now: nat, later: nat): Limiter
    requires l.lastRefill <= now <= later
  {
    match Tick(l, now, later) case None => l case Some(u) => u
  }

  function Refunded(l: Limiter): Limiter {
    if l.tokens < l.cap then l.(tokens := l.tokens + 1) else l
  }

  datatype Outcome = Success | ClientError | ServerOrNetworkError

  class RateLimiter {
    var tokens: nat
    var lastRefill: nat
    const cap: nat
    const period: nat

    function View(): Limiter
      reads this
    {
      Limiter(tokens, lastRefill, cap, period)
    }

    constructor (cap: nat, period: nat, now: nat)
      ensures View() == Limiter(cap, now, cap, period)
    {
      this.tokens, this.lastRefill, this.cap, this.period := cap, now, cap, period;
    }

    /** `ok` is false for a panic. */
    method DoTick(now: nat, later: nat) returns (ok: bool)
      requires lastRefill <= now <= later
      modifies this
      ensures ok == old(Tick(View(), now, later)).Some? && View() == old(Ticked(View(), now, later))
    {
      ok := true;
      var elapsed := now - lastRefill;
      if elapsed >= period && tokens < cap {
        if Secs(period) == 0 {
          return false;
        }
        var earned := Earned(elapsed, period);
        tokens := Min(tokens + earned, cap);
        lastRefill := later;
      }
    }

    /** One turn of the loop in `acquire`; the third reading is for the wait. */
    method TryAcquire(now: nat, later: nat, last: nat) returns (ok: bool, granted: bool, wait: nat)
      requires lastRefill <= now <= later <= last
      modifies this
      ensures ok == old(Tick(View(), now, later)).Some?
      ensures var l := old(Ticked(View(), now, later));
        && granted == (ok && l.tokens > 0)
        && View() == (if granted then l.(tokens := l.tokens - 1) else l)
        && (ok && !granted ==> l.lastRefill <= last && wait == SatSub(l.period, last - l.lastRefill))
    {
      granted, wait := false, 0;
      ok := DoTick(now, later);
      if ok {
        granted := tokens > 0;
        if granted {
          tokens := tokens - 1;
        } else {
          wait := SatSub(period, last - lastRefill);
        }
      }
    }

    /** `acquire` with nobody else at the bucket. The clock is read three times a turn, and
        `delay` says what passes before each reading, besides the sleep. It sleeps at most
        once; `at` is when the last turn began. (With capacity 0 it would never return.) */
    method Acquire(now: nat, delay: nat -> nat) returns (ok: bool, sleeps: nat, at: nat)
      requires Valid(View()) && lastRefill <= now && cap >= 1
      modifies this
      ensures sleeps <= 1
      ensures var later := now + delay(1); var first := old(Ticked(View(), now, later));
        && (ok <==> old(Tick(View(), now, later)).Some? && (sleeps == 1 ==> period >= SECOND))
        && (sleeps == 0 <==> old(Tick(View(), now, later)).None? || first.tokens > 0)
        && (ok && sleeps == 0 ==> at == now && View() == first.(tokens := first.tokens - 1))
        && (sleeps == 1 ==> at == later + delay(2) + SatSub(period, later + delay(2) - old(lastRefill)) + delay(3))
        && (sleeps == 1 && ok ==> lastRefill == at + delay(4))
      ensures Valid(View()) && (ok ==> tokens < cap)
    {
      ghost var later := now + delay(1);
      ghost var first := Ticked(View(), now, later);
      EmptyIsUntouched(View(), now, later);
      sleeps, at := 0, now;
      var granted, wait;
      ok, granted, wait := TryAcquire(at, at + delay(1), at + delay(1) + delay(2));
      while ok && !granted
        invariant sleeps <= 1 && Valid(View()) && (granted ==> ok && tokens < cap)
        invariant sleeps == 0 ==> ok == old(Tick(View(), now, later)).Some? && at == now && (granted <==> ok && first.tokens > 0)
        invariant sleeps == 0 && granted ==> View() == first.(tokens := first.tokens - 1)
        invariant sleeps == 0 && ok && !granted ==> View() == first && wait == SatSub(period, later + delay(2) - lastRefill)
        invariant sleeps == 1 ==> old(Tick(View(), now, later)).Some? && first.tokens == 0 && (ok <==> period >= SECOND) && (ok ==> granted)
        invariant sleeps == 1 ==> at == later + delay(2) + SatSub(period, later + delay(2) - old(lastRefill)) + delay(3)
        invariant sleeps == 1 && ok ==> lastRefill == at + delay(4)
        decreases 1 - sleeps
      {
        at := at + delay(1) + delay(2) + wait + delay(3);
        if period >= SECOND { EarnsWhenDue(at - lastRefill, period); }
        SecsPositive(period);
        sleeps := sleeps + 1;
        ok, granted, wait := TryAcquire(at, at + delay(4), at + delay(4) + delay(5));
      }
    }

    method Refund()
      modifies this
      ensures View() == Refunded(old(View()))
    {
      if tokens < cap {
        tokens := tokens + 1;
      }
    }

    /** `Permit::complete`: only a server or network error keeps the token. */
    method Complete(outcome: Outcome)
      modifies this
      ensures View() == if outcome.ServerOrNetworkError? then old(View()) else Refunded(old(View()))
    {
      if !outcome.ServerOrNetworkError? {
        Refund();
      }
    }

    method Tokens(now: nat, later: nat) returns (ok: bool, n: nat)
      requires lastRefill <= now <= later
      modifies this
      ensures ok == old(Tick(View(), now, later)).Some? && View() == old(Ticked(View(), now, later)) && n == tokens
    {
      ok := DoTick(now, later);
      n := tokens;
    }
  }

  lemma SecsPositive(period: nat)
    ensures Secs(period) > 0 <==> period >= SECOND
  {
    if period >= SECOND { DivAtLeast(period, SECOND, 1); }
  }

  lemma EarnsWhenDue(elapsed: nat, period: nat)
    requires period >= SECOND && elapsed >= period
    ensures Secs(period) > 0 && Earned(elapsed, period) >= 1
  {
    SecsPositive(period);
    DivMonotone(period, elapsed, SECOND);
    DivAtLeast(Secs(elapsed), Secs(period), 1);
  }

  /** A bucket that is empty after a tick was not refilled by it. */
  lemma EmptyIsUntouched(l: Limiter, now: nat, later: nat)
    requires Valid(l) && l.lastRefill <= now <= later && l.cap >= 1
    ensures Tick(l, now, later).Some? && Ticked(l, now, later).tokens == 0 ==> Ticked(l, now, later) == l && now - l.lastRefill < l.period
  {
    if Due(l, now) && l.period >= SECOND { EarnsWhenDue(now - l.lastRefill, l.period); }
    SecsPositive(l.period);
  }

  predicate WholeSeconds(period: nat) { period % SECOND == 0 }

  lemma EarnedFits(elapsed: nat, period: nat)
    requires period >= SECOND && WholeSeconds(period)
    ensures Secs(period) > 0 && Earned(elapsed, period) * period <= elapsed
  {
    var n, s := Secs(elapsed), Secs(period);
    SecsPositive(period);
    DivBounds(elapsed, SECOND);
    DivBounds(n, s);
    assert period == s * SECOND;
    assert n / s * period == n / s * s * SECOND;
    MulStep(n / s * s, n + 1, SECOND);
  }

  /** Refilling never runs ahead of one token per period. */
  predicate InRate(cap: nat, period: nat) { WholeSeconds(period) || cap <= 1 || period < SECOND }

  /** No tick ever adds a token. */
  predicate Frozen(l: Limiter) { l.cap == 0 || l.period < SECOND }

  lemma FrozenStays(l: Limiter, now: nat, later: nat)
    requires Valid(l) && Frozen(l) && l.lastRefill <= now <= later
    ensures Ticked(l, now, later) == l
  {
    SecsPositive(l.period);
  }

  /** Twice the whole seconds of such a period earn two tokens before two periods are over. */
  lemma EarlySecond(period: nat) returns (early: nat)
    requires period >= SECOND && !WholeSeconds(period)
    ensures early == 2 * Secs(period) * SECOND && period <= early < 2 * period
    ensures Secs(period) > 0 && Earned(early, period) == 2
  {
    var n := Secs(period);
    early := 2 * n * SECOND;
    SecsPositive(period);
    DivBounds(period, SECOND);
    DivUnique(early, SECOND, 2 * n);
    DivUnique(2 * n, n, 2);
  }

  function Credit(l: Limiter, now: nat): int
    requires l.lastRefill <= now
  {
    Ticked(l, now, now).tokens - l.tokens
  }

  lemma CreditFits(l: Limiter, now: nat)
    requires Valid(l) && l.lastRefill <= now && InRate(l.cap, l.period)
    ensures 0 <= Credit(l, now) && Credit(l, now) * l.period <= now - l.lastRefill
  {
    if Frozen(l) {
      FrozenStays(l, now, now);
    } else if Due(l, now) {
      EarnsWhenDue(now - l.lastRefill, l.period);
      if l.cap > 1 {
        EarnedFits(now - l.lastRefill, l.period);
        MulStep(Credit(l, now), Earned(now - l.lastRefill, l.period), l.period);
      }
    }
  }

  /** What a tick credits keeps to one token per period, for every bucket of a capacity and
      period, exactly if the period is a whole number of seconds, or the capacity at most
      one, or the period so short that a tick panics instead. */
  lemma CreditInRateIff(cap: nat, period: nat)
    ensures InRate(cap, period) <==>
      forall l: Limiter, now: nat :: Valid(l) && l.cap == cap && l.period == period && l.lastRefill <= now ==>
        Credit(l, now) * period <= now - l.lastRefill
  {
    if InRate(cap, period) {
      forall l: Limiter, now: nat | Valid(l) && l.cap == cap && l.period == period && l.lastRefill <= now
        ensures Credit(l, now) * period <= now - l.lastRefill
      {
        CreditFits(l, now);
      }
    } else {
      var early := EarlySecond(period);
      var l := Limiter(0, 0, cap, period);
      assert Credit(l, early) == 2;
    }
  }

  // ---- many permits at once ----

  /** The limiter with the permits that are out and the ones spent for good. All
      operations take the lock, so any interleaving of callers is a list of operations. */
  datatype Sys = Sys(l: Limiter, outstanding: nat, spent: nat, now: nat)

  datatype Op =
    | Acquire(t: nat, later: nat)   // one turn of some caller's loop
    | Complete(t: nat, o: Outcome)  // a permit is completed
    | Drop(t: nat)                  // a permit is dropped without complete()
    | Read(t: nat, later: nat)

  /** When the operation leaves the lock. */
  function EndOf(op: Op): nat { if op.Acquire? || op.Read? then op.later else op.t }

  function New(cap: nat, period: nat, start: nat): Sys { Sys(Limiter(cap, start, cap, period), 0, 0, start) }

  /** A turn with all readings at one instant. */
  function Take(t: nat): Op { Acquire(t, t) }

  predicate Sound(s: Sys) { Valid(s.l) && s.l.lastRefill <= s.now }

  predicate Allowed(s: Sys, op: Op) {
    s.now <= op.t <= EndOf(op) && (op.Complete? || op.Drop? ==> s.outstanding > 0)
  }

  /** A tick that panics ends its caller and changes nothing else. */
  function Do(s: Sys, op: Op): (u: Sys)
    requires Sound(s) && Allowed(s, op)
    ensures Sound(u) && u.now == EndOf(op) && u.l.cap == s.l.cap && u.l.period == s.l.period
  {
    match op
    case Acquire(t, later) =>
      var l := Ticked(s.l, t, later);
      if Tick(s.l, t, later).Some? && l.tokens > 0 then Sys(l.(tokens := l.tokens - 1), s.outstanding + 1, s.spent, later)
      else Sys(l, s.outstanding, s.spent, later)
    case Complete(t, o) =>
      if o.ServerOrNetworkError? then Sys(s.l, s.outstanding - 1, s.spent + 1, t)
      else Sys(Refunded(s.l), s.outstanding - 1, s.spent, t)
    case Drop(t) => Sys(s.l, s.outstanding - 1, s.spent + 1, t)
    case Read(t, later) => Sys(Ticked(s.l, t, later), s.outstanding, s.spent, later)
  }

  predicate Legal(s: Sys, ops: seq<Op>)
    requires Sound(s)
    decreases |ops|
  {
    ops == [] || (Allowed(s, ops[0]) && Legal(Do(s, ops[0]), ops[1..]))
  }

  function Run(s: Sys, ops: seq<Op>): (u: Sys)
    requires Sound(s) && Legal(s, ops)
    ensures Sound(u) && u.now >= s.now && u.l.cap == s.l.cap && u.l.period == s.l.period
    decreases |ops|
  {
    if ops == [] then s else Run(Do(s, ops[0]), ops[1..])
  }

  lemma {:induction false} RunAppend(s: Sys, xs: seq<Op>, ys: seq<Op>)
    requires Sound(s) && Legal(s, xs) && Legal(Run(s, xs), ys)
    ensures Legal(s, xs + ys) && Run(s, xs + ys) == Run(Run(s, xs), ys)
    decreases |xs|
  {
    if xs == [] {
      assert xs + ys == ys;
    } else {
      assert (xs + ys)[1..] == xs[1..] + ys;
      RunAppend(Do(s, xs[0]), xs[1..], ys);
    }
  }

  lemma RunOne(s: Sys, op: Op)
    requires Sound(s) && Allowed(s, op)
    ensures Legal(s, [op]) && Run(s, [op]) == Do(s, op)
  {
    assert [op][1..] == [];
  }

  /** Permits that are out or spent. */
  function Out(s: Sys): nat { s.outstanding + s.spent }

  /** Somebody's tick can divide by zero, at some time after some operations on a new limiter,
      exactly if the period is shorter than a second and there are tokens at all. */
  lemma TickPanicsIff(cap: nat, period: nat, start: nat)
    ensures period < SECOND && cap >= 1 <==>
      exists ops, t: nat :: Legal(New(cap, period, start), ops) && TickPanics(Run(New(cap, period, start), ops), t)
  {
    var s := New(cap, period, start);
    SecsPositive(period);
    if period < SECOND && cap >= 1 {
      RunOne(s, Take(start));
      assert TickPanics(Run(s, [Take(start)]), start + period);
    }
  }

  predicate TickPanics(s: Sys, t: nat)
    requires Sound(s)
  {
    s.now <= t && Tick(s.l, t, t).None?
  }

  // ---- the rate over any window ----

  /** What the tokens and the time since the last refill are worth, in nanoseconds. A full
      bucket keeps its old refill time, so up to one more period is banked in it. */
  function Worth(tokens: nat, phase: nat, cap: nat, period: nat): nat {
    if tokens >= cap then cap * period + Min(phase, period) else Min(tokens * period + phase, cap * period)
  }

  function WorthAt(s: Sys): nat
    requires s.l.lastRefill <= s.now
  {
    Worth(s.l.tokens, s.now - s.l.lastRefill, s.l.cap, s.l.period)
  }

  lemma WorthLater(n: nat, phase: nat, more: nat, cap: nat, p: nat)
    ensures Worth(n, phase + more, cap, p) <= Worth(n, phase, cap, p) + more
  {
  }

  lemma WorthTaken(n: nat, phase: nat, cap: nat, p: nat)
    requires 1 <= n <= cap && (n < cap ==> phase < p)
    ensures Worth(n - 1, phase, cap, p) + p <= Worth(n, phase, cap, p)
  {
    Distribute(n - 1, 1, p);
    MulStep(n, cap, p);
  }

  lemma WorthReturned(n: nat, phase: nat, cap: nat, p: nat)
    requires n < cap
    ensures Worth(n + 1, phase, cap, p) <= Worth(n, phase, cap, p) + p
  {
    Distribute(n, 1, p);
  }

  /** The phase of the refill after a tick at `t`. */
  function Phase(l: Limiter, t: nat): nat
    requires l.lastRefill <= t
  {
    if Due(l, t) then 0 else t - l.lastRefill
  }

  lemma WorthTicked(l: Limiter, t: nat, later: nat)
    requires Valid(l) && !Frozen(l) && InRate(l.cap, l.period) && l.lastRefill <= t <= later
    ensures var u := Ticked(l, t, later);
      && Tick(l, t, later).Some? && (u.tokens < u.cap ==> Phase(l, t) < u.period)
      && later - u.lastRefill <= Phase(l, t) + (later - t)
      && Worth(u.tokens, Phase(l, t), u.cap, u.period) <= Worth(l.tokens, t - l.lastRefill, l.cap, l.period)
  {
    SecsPositive(l.period);
    if Due(l, t) {
      CreditFits(l, t);
      var u := Ticked(l, t, later);
      Distribute(l.tokens, Credit(l, t), l.period);
      MulStep(u.tokens, l.cap, l.period);
    }
  }

  lemma WorthMonotone(n: nat, phase: nat, more: nat, cap: nat, p: nat)
    requires phase <= more
    ensures Worth(n, phase, cap, p) <= Worth(n, more, cap, p)
  {
  }

  lemma WorthOfTick(s: Sys, t: nat, later: nat)
    requires Sound(s) && !Frozen(s.l) && InRate(s.l.cap, s.l.period) && s.now <= t <= later
    ensures var k := Ticked(s.l, t, later);
      && Worth(k.tokens, Phase(s.l, t), k.cap, k.period) <= WorthAt(s) + (t - s.now)
  {
    WorthLater(s.l.tokens, s.now - s.l.lastRefill, t - s.now, s.l.cap, s.l.period);
    WorthTicked(s.l, t, later);
  }

  /** From the tick to the end of the operation. */
  lemma WorthUntil(l: Limiter, t: nat, later: nat, n: nat)
    requires Valid(l) && !Frozen(l) && InRate(l.cap, l.period) && l.lastRefill <= t <= later
    ensures var k := Ticked(l, t, later);
      Worth(n, later - k.lastRefill, k.cap, k.period) <= Worth(n, Phase(l, t), k.cap, k.period) + (later - t)
  {
    var k := Ticked(l, t, later);
    WorthTicked(l, t, later);
    WorthMonotone(n, later - k.lastRefill, Phase(l, t) + (later - t), k.cap, k.period);
    WorthLater(n, Phase(l, t), later - t, k.cap, k.period);
  }

  lemma WorthOfRead(s: Sys, t: nat, later: nat)
    requires Sound(s) && !Frozen(s.l) && InRate(s.l.cap, s.l.period) && s.now <= t <= later
    ensures WorthAt(Do(s, Read(t, later))) <= WorthAt(s) + (later - s.now)
  {
    WorthOfTick(s, t, later);
    WorthUntil(s.l, t, later, Ticked(s.l, t, later).tokens);
  }

  lemma WorthOfAcquire(s: Sys, t: nat, later: nat)
    requires Sound(s) && !Frozen(s.l) && InRate(s.l.cap, s.l.period) && s.now <= t <= later
    ensures var u := Do(s, Acquire(t, later));
      Out(u) * s.l.period + WorthAt(u) <= Out(s) * s.l.period + WorthAt(s) + (later - s.now)
  {
    var k := Ticked(s.l, t, later);
    WorthOfTick(s, t, later);
    WorthTicked(s.l, t, later);
    if k.tokens > 0 {
      WorthUntil(s.l, t, later, k.tokens - 1);
      WorthTaken(k.tokens, Phase(s.l, t), k.cap, k.period);
      Distribute(Out(s), 1, s.l.period);
    } else {
      WorthUntil(s.l, t, later, k.tokens);
    }
  }

  lemma WorthOfReturn(s: Sys, op: Op)
    requires Sound(s) && Allowed(s, op) && !op.Acquire? && !op.Read?
    ensures var u := Do(s, op);
      Out(u) * s.l.period + WorthAt(u) <= Out(s) * s.l.period + WorthAt(s) + (op.t - s.now)
  {
    var l := s.l;
    var u := Do(s, op);
    WorthLater(l.tokens, s.now - l.lastRefill, op.t - s.now, l.cap, l.period);
    if Out(u) < Out(s) {
      Distribute(Out(u), 1, l.period);
      if l.tokens < l.cap { WorthReturned(l.tokens, op.t - l.lastRefill, l.cap, l.period); }
    }
  }

  lemma {:induction false} WorthOfRun(s: Sys, ops: seq<Op>)
    requires Sound(s) && !Frozen(s.l) && InRate(s.l.cap, s.l.period) && Legal(s, ops)
    ensures var u := Run(s, ops);
      Out(u) * s.l.period + WorthAt(u) <= Out(s) * s.l.period + WorthAt(s) + (u.now - s.now)
    decreases |ops|
  {
    if ops == [] {
    } else {
      var op := ops[0];
      if op.Acquire? {
        WorthOfAcquire(s, op.t, op.later);
      } else if op.Read? {
        WorthOfRead(s, op.t, op.later);
      } else {
        WorthOfReturn(s, op);
      }
      WorthOfRun(Do(s, op), ops[1..]);
    }
  }

  lemma {:induction false} FrozenRun(s: Sys, ops: seq<Op>)
    requires Sound(s) && Frozen(s.l) && Legal(s, ops)
    ensures Out(Run(s, ops)) + Run(s, ops).l.tokens <= Out(s) + s.l.tokens
    decreases |ops|
  {
    if ops == [] {
    } else {
      if ops[0].Acquire? || ops[0].Read? { FrozenStays(s.l, ops[0].t, ops[0].later); }
      FrozenRun(Do(s, ops[0]), ops[1..]);
    }
  }

  /** At most the capacity, and one more for each whole period that has passed. */
  predicate Bounded(s: Sys, ops: seq<Op>)
    requires Sound(s) && s.l.period >= 1
  {
    Legal(s, ops) ==> Out(Run(s, ops)) <= Out(s) + s.l.cap + (Run(s, ops).now - s.now) / s.l.period
  }

  lemma FrozenBound(s: Sys, ops: seq<Op>)
    requires Sound(s) && s.l.period >= 1 && Frozen(s.l) && Legal(s, ops)
    ensures Bounded(s, ops)
  {
    FrozenRun(s, ops);
    DivAtLeast(Run(s, ops).now - s.now, s.l.period, 0);
  }

  lemma RateBound(s: Sys, ops: seq<Op>)
    requires Sound(s) && !Frozen(s.l) && InRate(s.l.cap, s.l.period) && Legal(s, ops)
    requires s.l.tokens < s.l.cap || s.now == s.l.lastRefill
    ensures Bounded(s, ops)
  {
    var u, p := Run(s, ops), s.l.period;
    WorthOfRun(s, ops);
    Distribute(s.l.cap, Out(s), p);
    CountFromWorth(Out(u), s.l.cap + Out(s), u.now - s.now, p);
  }

  lemma BoundHolds(s: Sys, ops: seq<Op>)
    requires Sound(s) && s.l.period >= 1
    requires Frozen(s.l) || (InRate(s.l.cap, s.l.period) && (s.l.tokens < s.l.cap || s.now == s.l.lastRefill))
    ensures Bounded(s, ops)
  {
    if !Legal(s, ops) {
    } else if Frozen(s.l) {
      FrozenBound(s, ops);
    } else {
      RateBound(s, ops);
    }
  }

  /** Over any window, one more than that at most. */
  lemma SpentInWindow(s: Sys, ops: seq<Op>)
    requires Sound(s) && s.l.period >= 1 && InRate(s.l.cap, s.l.period) && Legal(s, ops)
    ensures var u := Run(s, ops);
      Out(u) <= Out(s) + s.l.cap + 1 + (u.now - s.now) / s.l.period
  {
    var u, p := Run(s, ops), s.l.period;
    if Frozen(s.l) {
      FrozenBound(s, ops);
    } else {
      WorthOfRun(s, ops);
      Distribute(s.l.cap, 1, p);
      Distribute(s.l.cap + 1, Out(s), p);
      if s.l.tokens < s.l.cap { MulStep(s.l.tokens, s.l.cap, p); }
      assert WorthAt(s) <= (s.l.cap + 1) * p;
      CountFromWorth(Out(u), s.l.cap + 1 + Out(s), u.now - s.now, p);
    }
  }

  // ---- when the bound fails ----

  function Acquires(t: nat, n: nat): (r: seq<Op>)
    ensures |r| == n
  {
    if n == 0 then [] else [Take(t)] + Acquires(t, n - 1)
  }

  lemma {:induction false} TakeAll(s: Sys, n: nat)
    requires Sound(s) && s.now - s.l.lastRefill < s.l.period && n <= s.l.tokens
    ensures Legal(s, Acquires(s.now, n))
    ensures Run(s, Acquires(s.now, n)) == s.(l := s.l.(tokens := s.l.tokens - n), outstanding := s.outstanding + n)
    decreases n
  {
    if n == 0 {
    } else {
      assert Acquires(s.now, n)[1..] == Acquires(s.now, n - 1);
      TakeAll(Do(s, Take(s.now)), n - 1);
    }
  }

  /** A bucket that has been full for a period lets capacity + 1 permits out at one instant.
      (The reconnect budget, which restarts its clock while full, does not.) */
  lemma IdleBucketGivesOneMore(s: Sys)
    requires Sound(s) && !Frozen(s.l) && s.l.tokens == s.l.cap && s.now - s.l.lastRefill >= s.l.period
    ensures var ops := Acquires(s.now, s.l.cap + 1);
      Legal(s, ops) && Run(s, ops).now == s.now && Out(Run(s, ops)) == Out(s) + s.l.cap + 1
  {
    var ops := Acquires(s.now, s.l.cap + 1);
    assert ops[1..] == Acquires(s.now, s.l.cap) && ops[1..][1..] == Acquires(s.now, s.l.cap - 1);
    var u := Do(s, Take(s.now));
    EarnsWhenDue(s.now - s.l.lastRefill, s.l.period);
    var v := Do(u, Take(s.now));
    TakeAll(v, s.l.cap - 1);
  }

  /** One full for less gives the last of them when its period is over, which is less than
      a period from now. */
  lemma RestedBucketGivesOneMore(s: Sys)
    requires Sound(s) && !Frozen(s.l) && s.l.tokens == s.l.cap && 0 < s.now - s.l.lastRefill < s.l.period
    ensures var ops := Acquires(s.now, s.l.cap) + [Take(s.l.lastRefill + s.l.period)];
      Legal(s, ops) && Run(s, ops).now - s.now < s.l.period && Out(Run(s, ops)) == Out(s) + s.l.cap + 1
  {
    var t := s.l.lastRefill + s.l.period;
    TakeAll(s, s.l.cap);
    var u := Run(s, Acquires(s.now, s.l.cap));
    EarnsWhenDue(s.l.period, s.l.period);
    RunOne(u, Take(t));
    RunAppend(s, Acquires(s.now, s.l.cap), [Take(t)]);
  }

  predicate Drained(s: Sys) { s.l.tokens == 0 && s.l.lastRefill <= s.now < s.l.lastRefill + s.l.period }

  /** Any bucket can be drained at once. */
  lemma {:induction false} Drain(s: Sys) returns (ops: seq<Op>)
    requires Sound(s) && !Frozen(s.l)
    ensures Legal(s, ops) && Drained(Run(s, ops)) && Run(s, ops).now == s.now && Out(Run(s, ops)) >= Out(s)
    decreases s.now - s.l.lastRefill >= s.l.period, s.l.tokens
  {
    if Drained(s) {
      ops := [];
    } else {
      var op := Take(s.now);
      if Due(s.l, s.now) { EarnsWhenDue(s.now - s.l.lastRefill, s.l.period); }
      RunOne(s, op);
      ops := Drain(Do(s, op));
      RunAppend(s, [op], ops);
      ops := [op] + ops;
    }
  }

  /** Two permits from a drained bucket, before two periods are over. */
  lemma TwoEarly(s: Sys) returns (ops: seq<Op>, early: nat)
    requires Sound(s) && Drained(s) && !InRate(s.l.cap, s.l.period)
    ensures early < 2 * s.l.period && Legal(s, ops)
    ensures var u := Run(s, ops);
      && Drained(u) && u.l.lastRefill == u.now == s.l.lastRefill + early && Out(u) == Out(s) + 2
      && early == 2 * Secs(s.l.period) * SECOND
  {
    early := EarlySecond(s.l.period);
    var t := s.l.lastRefill + early;
    var u := Do(s, Take(t));
    RunOne(s, Take(t));
    RunOne(u, Take(t));
    RunAppend(s, [Take(t)], [Take(t)]);
    ops := [Take(t)] + [Take(t)];
  }

  lemma {:induction false} ManyEarly(s: Sys, k: nat, early: nat) returns (ops: seq<Op>)
    requires Sound(s) && Drained(s) && !InRate(s.l.cap, s.l.period) && early == 2 * Secs(s.l.period) * SECOND
    ensures early < 2 * s.l.period && Legal(s, ops)
    ensures var u := Run(s, ops);
      Drained(u) && u.now - s.now <= k * early && Out(u) == Out(s) + 2 * k
    decreases k
  {
    if k == 0 {
      ops := [];
      var e := EarlySecond(s.l.period);
    } else {
      var two, e := TwoEarly(s);
      var u := Run(s, two);
      var more := ManyEarly(u, k - 1, early);
      RunAppend(s, two, more);
      ops := two + more;
      Distribute(k - 1, 1, early);
    }
  }

  /** So many early pairs break any bound of one token per period. */
  lemma EarlyPairsBreakBound(s: Sys) returns (ops: seq<Op>)
    requires Sound(s) && !InRate(s.l.cap, s.l.period)
    ensures s.l.period >= 1 && !Bounded(s, ops)
  {
    var p, k := s.l.period, s.l.period * (s.l.cap + 1);
    var drain := Drain(s);
    var d := Run(s, drain);
    var early := EarlySecond(p);
    var pairs := ManyEarly(d, k, early);
    RunAppend(s, drain, pairs);
    ops := drain + pairs;
    var u := Run(s, ops);
    BoundBroken(u.now - s.now, k, early, p, s.l.cap);
  }

  lemma BoundBroken(t: nat, k: nat, early: nat, p: nat, cap: nat)
    requires p >= 1 && early < 2 * p && t <= k * early && k == p * (cap + 1)
    ensures cap + t / p < 2 * k
  {
    MulStep(early, 2 * p, k);
    assert t + k <= 2 * k * p;
    assert k == (cap + 1) * p;
    DivBounds(t, p);
    Distribute(t / p, cap + 1, p);
    if t / p + cap + 1 > 2 * k { MulStep(2 * k, t / p + cap + 1, p); }
  }

  /** From a given state the bound of capacity plus one per whole period holds for all
      operations exactly if the refilling keeps the rate and the bucket is not resting full
      (or nothing is ever refilled). */
  lemma BoundedIff(s: Sys)
    requires Sound(s) && s.l.period >= 1
    ensures (forall ops :: Bounded(s, ops)) <==>
      Frozen(s.l) || (InRate(s.l.cap, s.l.period) && (s.l.tokens < s.l.cap || s.now == s.l.lastRefill))
  {
    if Frozen(s.l) || (InRate(s.l.cap, s.l.period) && (s.l.tokens < s.l.cap || s.now == s.l.lastRefill)) {
      forall ops ensures Bounded(s, ops) {
        BoundHolds(s, ops);
      }
    } else if !InRate(s.l.cap, s.l.period) {
      var ops := EarlyPairsBreakBound(s);
      assert !Bounded(s, ops);
    } else if s.now - s.l.lastRefill >= s.l.period {
      IdleBucketGivesOneMore(s);
      assert !Bounded(s, Acquires(s.now, s.l.cap + 1));
    } else {
      RestedBucketGivesOneMore(s);
      var ops := Acquires(s.now, s.l.cap) + [Take(s.l.lastRefill + s.l.period)];
      DivUnique(Run(s, ops).now - s.now, s.l.period, 0);
      assert !Bounded(s, ops);
    }
  }

  /** From a new limiter on, what is out and what was spent never exceed the capacity plus
      one per whole period, whatever the interleaving of permits, exactly if the refilling
      keeps the rate. */
  lemma SpentSinceStartIff(cap: nat, period: nat, start: nat)
    requires period >= 1
    ensures (forall ops :: Bounded(New(cap, period, start), ops)) <==> InRate(cap, period)
  {
    BoundedIff(New(cap, period, start));
  }
}
