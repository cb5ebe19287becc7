/** What holds in every state a supervisor can reach, and across whole runs. */
module SupervisorRuns {
  import opened Wrappers
  import opened Supervisor
  import opened SupervisorInv

  /** Reached from the start by some run, whatever the schedule, the outside's answers and
      the receivers of the watch. */
  ghost predicate Reachable(s: Sys) {
    exists acts :: Exec(Init(), acts) == s
  }

  lemma ReachableInv(s: Sys)
    requires Reachable(s)
    ensures Inv(s)
  {
    var acts :| Exec(Init(), acts) == s;
    InvExec(Init(), acts);
  }

  lemma {:induction false} ExecAppend(s: Sys, xs: seq<Action>, ys: seq<Action>)
    ensures Exec(s, xs + ys) == Exec(Exec(s, xs), ys)
    decreases |xs|
  {
    if xs == [] {
      assert xs + ys == ys;
    } else {
      assert (xs + ys)[1..] == xs[1..] + ys;
      ExecAppend(Step(s, xs[0]), xs[1..], ys);
    }
  }

  // ---- states ----

  /** Whenever the lock is free the four fields agree, and one first connect at most is in
      flight, exactly while the state is Connecting. */
  lemma SessionConsistent(s: Sys)
    requires Reachable(s)
    ensures s.lock.Free? && s.cell.state.Streaming? ==> s.cell.rtpTx.Some? && s.cell.stop.Some? && s.cell.h264.Some?
    ensures s.lock.Free? && !s.cell.state.Streaming? ==> s.cell == Cell(s.cell.state, None, None, None)
    ensures forall i, j :: i in s.subs && j in s.subs && FirstConnect(s.subs[i]) && FirstConnect(s.subs[j]) ==> i == j
    ensures s.cell.state.Connecting? <==> exists i :: i in s.subs && FirstConnect(s.subs[i])
  {
    ReachableInv(s);
  }

  /** Every Subscription receives from the channel in `rtp_tx` and was given the
      parameters in the cell; in particular no viewer is left on a retired channel. */
  lemma ViewersOnCurrentChannel(s: Sys, i: nat)
    requires Reachable(s) && i in s.subs && s.subs[i].Live?
    ensures s.cell.state.Streaming? && s.cell.rtpTx == Some(s.subs[i].chan) && s.cell.h264 == Some(s.subs[i].params)
  {
    ReachableInv(s);
    assert ViewerTask(s.cell, s.lock, TearingDown(s), i, s.subs[i]);
  }

  /** The places a handle can be. */
  function Places(s: Sys, h: Handle): int {
    (if h in s.dropped then 1 else 0) + (if s.cell.stop == Some(h) then 1 else 0)
    + |set i | i in s.subs && Holds(s.subs[i]) && s.subs[i].handle == h|
    + |set c | c in s.dogs && s.dogs[c].Redialed? && s.dogs[c].handle == h|
  }

  lemma AtMostOne<T>(xs: set<T>)
    requires forall x, y :: x in xs && y in xs ==> x == y
    ensures |xs| == if xs == {} then 0 else 1
  {
    if x :| x in xs {
      assert xs == {x};
    }
  }

  /** Every handle a connect returned is in exactly one place: dropped, the session's
      `stop`, or with the one task between its connect and its next lock. */
  lemma HandleInOnePlace(s: Sys, h: Handle)
    requires Reachable(s) && h < s.nextHandle
    ensures Places(s, h) == 1
  {
    ReachableInv(s);
    var vs := set i | i in s.subs && Holds(s.subs[i]) && s.subs[i].handle == h;
    var ds := set c | c in s.dogs && s.dogs[c].Redialed? && s.dogs[c].handle == h;
    forall i, j | i in vs && j in vs
      ensures i == j
    {
      assert ViewerTask(s.cell, s.lock, TearingDown(s), i, s.subs[i]) && ViewerTask(s.cell, s.lock, TearingDown(s), j, s.subs[j]);
    }
    AtMostOne(vs);
    AtMostOne(ds);
    assert Owned(s, h);
    if i :| i in s.subs && Holds(s.subs[i]) && s.subs[i].handle == h {
      assert i in vs && InHand(s, h);
    }
    if c :| c in s.dogs && s.dogs[c].Redialed? && s.dogs[c].handle == h {
      assert c in ds && InHand(s, h);
    }
  }

  /** An `expect` of `subscribe` has failed: the call is gone without a Detached event, and
      stays among the viewers only as part of the count. */
  predicate Panics(s: Sys) { exists i :: i in s.subs && s.subs[i].Panicked? }

  /** The calls of `subscribe` in progress and the Subscriptions held. */
  function Present(s: Sys): set<nat> { set i | i in s.subs && !s.subs[i].Panicked? }

  /** The count is never negative, and exact as long as no `expect` has failed. */
  lemma ViewerCountExact(s: Sys)
    requires Reachable(s)
    ensures s.count >= |Present(s)| + Dets(s.queue) >= 0
    ensures s.count == |Present(s)| + Dets(s.queue) <==> !Panics(s)
  {
    ReachableInv(s);
    if i :| i in s.subs && s.subs[i].Panicked? {
      Fewer(Present(s), s.subs.Keys, i);
    } else {
      assert Present(s) == s.subs.Keys;
    }
  }

  lemma Fewer<T>(xs: set<T>, ys: set<T>, y: T)
    requires xs <= ys && y in ys && y !in xs
    ensures |xs| < |ys|
  {
    assert ys == xs + (ys - xs) && y in ys - xs;
    assert |ys| == |xs| + |ys - xs|;
  }

  /** A timer that decides to tear down finds no viewer at all and a streaming session. */
  lemma TeardownOnlyWithoutViewers(s: Sys, t: nat)
    requires Reachable(s) && t in s.timers && s.timers[t].Locked? && t in TimerStep(s, t).timers
    ensures s.subs == map[] && Dets(s.queue) == 0 && s.cell.state.Streaming?
  {
    ReachableInv(s);
    NoViewers(s);
  }

  /** While it tears down, whoever arrives is still in front of the lock. */
  lemma TeardownKeepsViewersOut(s: Sys, t: nat, i: nat)
    requires Reachable(s) && t in s.timers && s.timers[t].Holding? && i in s.subs
    ensures Early(s.subs[i]) && s.cell.state.Streaming?
  {
    ReachableInv(s);
    assert PastLock(s, t);
    assert ViewerTask(s.cell, s.lock, TearingDown(s), i, s.subs[i]);
  }

  /** Of all timers at most one can still be stopped, the one in the event loop's variable,
      and at most one is past the lock. Any other was aborted while a worker thread ran it. */
  lemma OneIdleTimer(s: Sys, t: nat, r: nat)
    requires Reachable(s) && t in s.timers && r in s.timers
    ensures Stoppable(s, t) ==> s.idleTimer == Some(t)
    ensures Stoppable(s, t) && Stoppable(s, r) ==> t == r
    ensures PastLock(s, t) && PastLock(s, r) ==> t == r
    ensures s.idleTimer != Some(t) && !PastLock(s, t) ==> s.timers[t] == Running(true)
  {
    ReachableInv(s);
  }

  /** An event handled while the timer in the event loop's variable can fire is Attached: the
      handle is used, and the timer is stopped unless it runs or has the lock. */
  lemma ArmedHandleNeverDiscarded(s: Sys, t: nat)
    requires Reachable(s) && s.queue != [] && t in s.timers && (Stoppable(s, t) || s.idleTimer == Some(t))
    ensures s.queue[0].Attached? && LoopStep(s).idleTimer == None && !Stoppable(LoopStep(s), t)
    ensures t in LoopStep(s).timers <==> s.timers[t].Running? || PastLock(s, t)
  {
    ReachableInv(s);
  }

  /** When a Detached event is handled, no timer can be stopped any more, and the handle it
      may overwrite is that of a timer that is gone. */
  lemma DetachedNeverFindsArmedTimer(s: Sys)
    requires Reachable(s) && s.queue != [] && s.queue[0].Detached?
    ensures forall t: nat :: !Stoppable(s, t)
    ensures s.idleTimer.Some? ==> s.idleTimer.value !in s.timers
  {
    ReachableInv(s);
  }

  /** The one way for a timer to outlive its handle: the event loop aborts it while a worker
      thread runs it, or when it has the lock. */
  lemma OutlivesHandleIff(s: Sys, a: Action, t: nat)
    requires Reachable(s) && s.idleTimer == Some(t) && t in s.timers
    ensures var u := Step(s, a);
      (t in u.timers && u.idleTimer != Some(t)) <==>
      (a.MoveLoop? && s.queue != [] && (s.timers[t].Running? || PastLock(s, t)))
  {
    ReachableInv(s);
    if a.MoveLoop? {
      if s.queue != [] { ArmedHandleNeverDiscarded(s, t); }
    } else {
      OnlyLoopMovesIdleTimer(s, a);
    }
  }

  lemma OnlyLoopMovesIdleTimer(s: Sys, a: Action)
    requires !a.MoveLoop?
    ensures Step(s, a).idleTimer == s.idleTimer
  {
    if a.MoveViewer? && a.i in s.subs {
      ViewersKeepIdleTimer(s, a.i, a.ok, a.params);
    }
  }

  lemma ViewersKeepIdleTimer(s: Sys, i: nat, ok: bool, p: Params)
    requires i in s.subs
    ensures ViewerStep(s, i, ok, p).idleTimer == s.idleTimer
  {
  }

  lemma CommitEnds(s: Sys, t: nat)
    requires t in s.timers && s.timers[t].Holding? && s.cell.stop.Some?
    ensures var u := TimerStep(s, t);
      u.cell == EmptyCell() && u.lock.Free? && s.cell.stop.value in u.dropped
  {
  }

  function Moves(t: nat, n: nat): seq<Action> {
    if n == 0 then [] else [MoveTimer(t)] + Moves(t, n - 1)
  }

  lemma MovesOne(s: Sys, t: nat, n: nat)
    requires t in s.timers && n > 0
    ensures Exec(s, Moves(t, n)) == Exec(TimerStep(s, t), Moves(t, n - 1))
  {
    assert Moves(t, n)[0] == MoveTimer(t) && Moves(t, n)[1..] == Moves(t, n - 1);
  }

  /** Moves left until the timer is done, if it finds the lock free. */
  function MovesLeft(x: Timer): nat {
    match x case Armed => 4 case Running(_) => 3 case Parked => 3 case Locked => 2 case Holding => 1
  }

  predicate Unwatched(s: Sys) {
    s.count <= 0 && s.cell.state.Streaming? && s.cell.stop.Some?
  }

  lemma {:induction false} RunsToTheEnd(s: Sys, t: nat)
    requires t in s.timers && Unwatched(s)
    requires if PastLock(s, t) then s.lock == HeldByTimer(t) else s.lock.Free?
    ensures var u := Exec(s, Moves(t, MovesLeft(s.timers[t])));
      u.cell == EmptyCell() && u.lock.Free? && s.cell.stop.value in u.dropped
    decreases MovesLeft(s.timers[t])
  {
    var u := TimerStep(s, t);
    MovesOne(s, t, MovesLeft(s.timers[t]));
    if s.timers[t].Holding? {
      CommitEnds(s, t);
      assert Exec(u, Moves(t, 0)) == u;
    } else {
      RunsToTheEnd(u, t);
    }
  }

  /** A session nobody watches is never forgotten: letting one idle timer run to its end
      leaves the supervisor Idle with the session's handle dropped. */
  lemma UnwatchedSessionEnds(s: Sys)
    requires Reachable(s) && s.subs == map[] && Dets(s.queue) == 0 && s.cell.state.Streaming?
    ensures s.cell.stop.Some?
    ensures exists t, n :: var u := Exec(s, Moves(t, n));
      u.cell == EmptyCell() && u.lock.Free? && s.cell.stop.value in u.dropped
  {
    ReachableInv(s);
    assert s.count == 0 && !s.lock.HeldBySub?;
    var t :| t in s.timers && !WasAborted(s.timers[t]);
    var r := if s.lock.HeldByTimer? then s.lock.timer else t;
    RunsToTheEnd(s, r);
  }

  // ---- runs ----

  /** The channel was issued, is not the session's and no viewer is about to publish it. */
  ghost predicate Retired(s: Sys, c: Chan) {
    && c < s.nextChan
    && s.cell.rtpTx != Some(c)
    && (forall i :: i in s.subs && Unguarded(s.subs[i]) ==> s.subs[i].chan != c)
  }

  lemma RetiredByConnector(s: Sys, i: nat, ok: bool, p: Params, c: Chan)
    requires Retired(s, c) && i in s.subs && Connector(s.subs[i])
    ensures Retired(ViewerStep(s, i, ok, p), c)
  {
  }

  lemma RetiredByOther(s: Sys, i: nat, ok: bool, p: Params, c: Chan)
    requires Retired(s, c) && i in s.subs && !Connector(s.subs[i])
    ensures Retired(ViewerStep(s, i, ok, p), c)
  {
  }

  lemma RetiredStep(s: Sys, a: Action, c: Chan)
    requires Retired(s, c)
    ensures Retired(Step(s, a), c)
  {
    if a.MoveViewer? {
      if a.i in s.subs {
        if Connector(s.subs[a.i]) {
          RetiredByConnector(s, a.i, a.ok, a.params, c);
        } else {
          RetiredByOther(s, a.i, a.ok, a.params, c);
        }
      }
    }
  }

  lemma {:induction false} RetiredForever(s: Sys, acts: seq<Action>, c: Chan)
    requires Retired(s, c)
    ensures Retired(Exec(s, acts), c)
    decreases |acts|
  {
    if acts == [] {
    } else {
      RetiredStep(s, acts[0], c);
      RetiredForever(Step(s, acts[0]), acts[1..], c);
    }
  }

  lemma LateWatchdogMove(s: Sys, c: Chan, ok: bool)
    requires s.cell.rtpTx != Some(c)
    ensures Step(s, MoveDog(c, ok)).cell == s.cell && Step(s, MoveDog(c, ok)).watch == s.watch
  {
  }

  /** Once the session is no longer a watchdog's, it never is again, however often it is
      torn down and brought up in between, and nothing the watchdog does then touches the
      session. */
  lemma LateWatchdogChangesNothing(s: Sys, c: Chan, acts: seq<Action>, ok: bool)
    requires Reachable(s) && c in s.dogs && s.cell.rtpTx != Some(c)
    ensures var u := Exec(s, acts);
              u.cell.rtpTx != Some(c) && Step(u, MoveDog(c, ok)).cell == u.cell && Step(u, MoveDog(c, ok)).watch == u.watch
  {
    ReachableInv(s);
    forall i | i in s.subs && Unguarded(s.subs[i])
      ensures s.subs[i].chan != c
    {
      assert ViewerIds(s.nextChan, s.dogs.Keys, s.subs[i]);
    }
    RetiredForever(s, acts, c);
    LateWatchdogMove(Exec(s, acts), c, ok);
  }

  ghost predicate GoneOrSame(s: Sys, i: nat, v: Sub) {
    i < s.nextSub && (i in s.subs ==> s.subs[i] == v)
  }

  lemma LiveByConnector(s: Sys, j: nat, ok: bool, p: Params, i: nat, v: Sub)
    requires v.Live? && GoneOrSame(s, i, v) && j in s.subs && Connector(s.subs[j])
    ensures GoneOrSame(ViewerStep(s, j, ok, p), i, v)
  {
  }

  lemma LiveByOther(s: Sys, j: nat, ok: bool, p: Params, i: nat, v: Sub)
    requires v.Live? && GoneOrSame(s, i, v) && j in s.subs && !Connector(s.subs[j])
    ensures GoneOrSame(ViewerStep(s, j, ok, p), i, v)
  {
  }

  lemma LiveStep(s: Sys, a: Action, i: nat, v: Sub)
    requires v.Live? && GoneOrSame(s, i, v)
    ensures GoneOrSame(Step(s, a), i, v)
  {
    if a.MoveViewer? {
      if a.i in s.subs {
        if Connector(s.subs[a.i]) {
          LiveByConnector(s, a.i, a.ok, a.params, i, v);
        } else {
          LiveByOther(s, a.i, a.ok, a.params, i, v);
        }
      }
    }
  }

  lemma {:induction false} LiveExec(s: Sys, acts: seq<Action>, i: nat, v: Sub)
    requires v.Live? && GoneOrSame(s, i, v)
    ensures GoneOrSame(Exec(s, acts), i, v)
    decreases |acts|
  {
    if acts == [] {
    } else {
      LiveStep(s, acts[0], i, v);
      LiveExec(Step(s, acts[0]), acts[1..], i, v);
    }
  }

  /** As long as a viewer holds its Subscription, its channel is the session's: no number
      of reconnects, timers and late watchdogs moves the session away from it. */
  lemma SubscriptionNeverStranded(s: Sys, i: nat, acts: seq<Action>)
    requires Reachable(s) && i in s.subs && s.subs[i].Live? && i in Exec(s, acts).subs
    ensures var u := Exec(s, acts);
              u.subs[i] == s.subs[i] && u.cell.state.Streaming? && u.cell.rtpTx == Some(s.subs[i].chan)
  {
    ReachableInv(s);
    LiveExec(s, acts, i, s.subs[i]);
    InvExec(s, acts);
    var u := Exec(s, acts);
    assert ViewerTask(u.cell, u.lock, TearingDown(u), i, u.subs[i]);
  }

  lemma DroppedByConnector(s: Sys, i: nat, ok: bool, p: Params)
    requires i in s.subs && Connector(s.subs[i])
    ensures s.dropped <= ViewerStep(s, i, ok, p).dropped
  {
  }

  lemma DroppedByOther(s: Sys, i: nat, ok: bool, p: Params)
    requires i in s.subs && !Connector(s.subs[i])
    ensures s.dropped == ViewerStep(s, i, ok, p).dropped
  {
  }

  lemma DroppedStep(s: Sys, a: Action)
    ensures s.dropped <= Step(s, a).dropped
  {
    if a.MoveViewer? {
      if a.i in s.subs {
        if Connector(s.subs[a.i]) {
          DroppedByConnector(s, a.i, a.ok, a.params);
        } else {
          DroppedByOther(s, a.i, a.ok, a.params);
        }
      }
    }
  }

  lemma {:induction false} DroppedForever(s: Sys, acts: seq<Action>)
    ensures s.dropped <= Exec(s, acts).dropped
    decreases |acts|
  {
    if acts == [] {
    } else {
      DroppedStep(s, acts[0]);
      DroppedForever(Step(s, acts[0]), acts[1..]);
    }
  }

  /** A handle that was dropped is never again the session's. */
  lemma DroppedHandleNeverReturns(s: Sys, h: Handle, acts: seq<Action>)
    requires Reachable(s) && h in s.dropped
    ensures Exec(s, acts).cell.stop != Some(h)
  {
    ReachableInv(s);
    DroppedForever(s, acts);
    InvExec(s, acts);
  }

  // ---- after a failed `expect` ----

  lemma PanickedByConnector(s: Sys, j: nat, ok: bool, p: Params, i: nat)
    requires i in s.subs && s.subs[i].Panicked? && j in s.subs && Connector(s.subs[j])
    ensures i in ConnectStep(s, j, ok, p).subs && ConnectStep(s, j, ok, p).subs[i].Panicked?
  {
  }

  lemma PanickedByLooking(s: Sys, j: nat, ok: bool, i: nat)
    requires i in s.subs && s.subs[i].Panicked? && j in s.subs && Looking(s.subs[j])
    ensures i in LookStep(s, j, ok).subs && LookStep(s, j, ok).subs[i].Panicked?
  {
  }

  lemma PanickedByLocal(s: Sys, j: nat, i: nat)
    requires i in s.subs && s.subs[i].Panicked? && j in s.subs && Local(s.subs[j])
    ensures i in LocalStep(s, j).subs && LocalStep(s, j).subs[i].Panicked?
  {
  }

  lemma PanickedStep(s: Sys, a: Action, i: nat)
    requires Ids(s) && i in s.subs && s.subs[i].Panicked?
    ensures i in Step(s, a).subs && Step(s, a).subs[i].Panicked?
  {
    if a.MoveViewer? && a.i in s.subs {
      if Looking(s.subs[a.i]) {
        PanickedByLooking(s, a.i, a.ok, i);
      } else if Connector(s.subs[a.i]) {
        PanickedByConnector(s, a.i, a.ok, a.params, i);
      } else {
        PanickedByLocal(s, a.i, i);
      }
    }
  }

  /** No timer tears down, and none that has the lock is about to. */
  predicate NoTeardown(s: Sys) {
    forall t :: t in s.timers ==> !s.timers[t].Holding? && (s.timers[t].Locked? ==> t !in TimerStep(s, t).timers)
  }

  lemma StreamingByViewer(s: Sys, i: nat, ok: bool, p: Params)
    requires s.cell.state.Streaming? && i in s.subs
    ensures ViewerStep(s, i, ok, p).cell.state.Streaming?
  {
  }

  lemma StreamingStays(s: Sys, a: Action)
    requires s.cell.state.Streaming? && forall t :: t in s.timers ==> !s.timers[t].Holding?
    ensures Step(s, a).cell.state.Streaming?
  {
    if a.MoveViewer? && a.i in s.subs { StreamingByViewer(s, a.i, a.ok, a.params); }
  }

  /** The count of that call is never given back, so no timer tears down. */
  lemma PanickedKeepsSession(s: Sys, a: Action)
    requires Inv(s) && Panics(s)
    ensures Panics(Step(s, a)) && NoTeardown(s) && (s.cell.state.Streaming? ==> Step(s, a).cell.state.Streaming?)
  {
    var i :| i in s.subs && s.subs[i].Panicked?;
    PanickedStep(s, a, i);
    assert i in s.subs.Keys && |s.subs.Keys| == |s.subs| && s.subs.Keys != {};
    forall t | t in s.timers
      ensures !s.timers[t].Holding?
    {
      assert ViewerTask(s.cell, s.lock, TearingDown(s), i, s.subs[i]);
      if s.timers[t].Holding? { assert PastLock(s, t) && TearingDown(s); }
    }
    if s.cell.state.Streaming? { StreamingStays(s, a); }
  }

  lemma {:induction false} PanickedForever(s: Sys, acts: seq<Action>)
    requires Inv(s) && Panics(s)
    ensures Panics(Exec(s, acts)) && NoTeardown(Exec(s, acts))
    ensures s.cell.state.Streaming? ==> Exec(s, acts).cell.state.Streaming?
    decreases |acts|
  {
    if acts == [] {
      PanickedKeepsSession(s, MoveLoop);
    } else {
      PanickedKeepsSession(s, acts[0]);
      InvStep(s, acts[0]);
      PanickedForever(Step(s, acts[0]), acts[1..]);
    }
  }

  /** Once an `expect` has failed, no session is ever torn down again: no timer decides to,
      and a state that is Streaming stays so, however long nobody watches. */
  lemma NeverTornDownAgain(s: Sys, acts: seq<Action>)
    requires Reachable(s) && Panics(s)
    ensures NoTeardown(Exec(s, acts))
    ensures s.cell.state.Streaming? ==> Exec(s, acts).cell.state.Streaming?
  {
    ReachableInv(s);
    PanickedForever(s, acts);
  }

  // ---- concrete runs ----

  lemma Starts()
    ensures Reachable(Init())
  {
    assert Exec(Init(), []) == Init();
  }

  lemma ReachStep(s: Sys, a: Action)
    requires Reachable(s)
    ensures Reachable(Step(s, a))
  {
    var acts :| Exec(Init(), acts) == s;
    ExecAppend(Init(), acts, [a]);
    assert [a][1..] == [];
    assert Exec(Init(), acts + [a]) == Step(s, a);
  }

  /** Viewer `i` makes a move, every answer from outside being favourable. */
  function V(s: Sys, i: nat): Sys { Step(s, MoveViewer(i, true, 0)) }

  lemma ReachMove(s: Sys, i: nat)
    requires Reachable(s)
    ensures Reachable(V(s, i))
  {
    ReachStep(s, MoveViewer(i, true, 0));
  }

  // Viewer 0 is connecting and viewer 1 waits for it.
  const ONE_WAITS: Sys :=
    Sys(false, Cell(Connecting, None, None, None), Free, Idle, 2, [Attached, Attached], None,
        map[0 := Dialing(0), 1 := Waiting], map[], map[], {}, 2, 1, 0, 0)

  // Both hold a Subscription.
  const BOTH_LIVE: Sys :=
    Sys(false, Cell(Streaming, Some(0), Some(0), Some(0)), Free, Streaming, 2, [Attached, Attached], None,
        map[0 := Live(0, 0), 1 := Live(0, 0)], map[0 := AwaitEnd(0)], map[], {}, 2, 1, 1, 0)

  // Both have left and the event loop has seen it: the idle timer is armed.
  const ALL_LEFT: Sys :=
    Sys(false, Cell(Streaming, Some(0), Some(0), Some(0)), Free, Streaming, 0, [], Some(0),
        map[], map[0 := AwaitEnd(0)], map[0 := Armed], {}, 2, 1, 1, 1)

  lemma OneWaits()
    ensures Reachable(ONE_WAITS)
  {
    var s := Init();
    Starts();
    ReachStep(s, Arrive);
    var s1 := Step(s, Arrive);
    ReachMove(s1, 0);
    var s2 := V(s1, 0);
    ReachMove(s2, 0);
    var s3 := V(s2, 0);
    assert s3.subs == map[0 := Dialing(0)];
    ReachStep(s3, Arrive);
    var s4 := Step(s3, Arrive);
    ReachMove(s4, 1);
    var s5 := V(s4, 1);
    ReachMove(s5, 1);
    var s6 := V(s5, 1);
    ReachMove(s6, 1);
    var s7 := V(s6, 1);
    assert s7.subs == map[0 := Dialing(0), 1 := Waiting];
    assert s7 == ONE_WAITS;
  }

  lemma BothLive()
    ensures Reachable(BOTH_LIVE)
  {
    OneWaits();
    ReachMove(ONE_WAITS, 0);
    var s1 := V(ONE_WAITS, 0);
    ReachMove(s1, 0);
    assert s1.subs[1].Waiting?;
    var s2 := V(s1, 0);
    assert s2.watch == Streaming;
    ReachMove(s2, 0);
    var s3 := V(s2, 0);
    ReachMove(s3, 0);
    var s4 := V(s3, 0);
    ReachMove(s4, 0);
    var s5 := V(s4, 0);
    assert s5.subs == map[0 := Live(0, 0), 1 := Waiting];
    ReachMove(s5, 1);
    var s6 := V(s5, 1);
    ReachMove(s6, 1);
    var s7 := V(s6, 1);
    assert s7.subs == BOTH_LIVE.subs;
    assert s7 == BOTH_LIVE;
  }

  // Both have left and the event loop has noticed nothing yet.
  const BOTH_GONE: Sys :=
    Sys(false, Cell(Streaming, Some(0), Some(0), Some(0)), Free, Streaming, 2, [Attached, Attached, Detached, Detached], None,
        map[], map[0 := AwaitEnd(0)], map[], {}, 2, 1, 1, 0)

  lemma BothGone()
    ensures Reachable(BOTH_GONE)
  {
    BothLive();
    ReachMove(BOTH_LIVE, 0);
    var s1 := V(BOTH_LIVE, 0);
    assert s1.subs == map[1 := Live(0, 0)];
    ReachMove(s1, 1);
    var s2 := V(s1, 1);
    assert s2.subs == map[] && s2.queue == [Attached, Attached, Detached, Detached];
    assert s2 == BOTH_GONE;
  }

  lemma AllLeft()
    ensures Reachable(ALL_LEFT)
  {
    BothGone();
    ReachStep(BOTH_GONE, MoveLoop);
    var s3 := Step(BOTH_GONE, MoveLoop);
    assert s3 == BOTH_GONE.(queue := [Attached, Detached, Detached]);
    ReachStep(s3, MoveLoop);
    var s4 := Step(s3, MoveLoop);
    assert s4 == BOTH_GONE.(queue := [Detached, Detached]);
    ReachStep(s4, MoveLoop);
    var s5 := Step(s4, MoveLoop);
    assert s5 == BOTH_GONE.(queue := [Detached], count := 1);
    ReachStep(s5, MoveLoop);
    var s6 := Step(s5, MoveLoop);
    assert s6.timers == map[0 := Armed];
    assert s6 == ALL_LEFT;
  }

  // ALL_LEFT, and viewer 2 has come and gone without the event loop noticing yet.
  const COME_AND_GONE: Sys := ALL_LEFT.(count := 1, queue := [Attached, Detached], nextSub := 3)

  lemma ComeAndGone()
    ensures Reachable(COME_AND_GONE)
  {
    AllLeft();
    ReachStep(ALL_LEFT, Arrive);
    var s1 := Step(ALL_LEFT, Arrive);
    ReachMove(s1, 2);
    var s2 := V(s1, 2);
    ReachMove(s2, 2);
    var s3 := V(s2, 2);
    ReachMove(s3, 2);
    var s4 := V(s3, 2);
    assert s4.subs == map[2 := Live(0, 0)];
    ReachMove(s4, 2);
    var s5 := V(s4, 2);
    assert s5.subs == map[] && s5.queue == [Attached, Detached];
  }

  /** Two timers can be on their way at once: timer 0 takes the lock before the event loop
      aborts it, which is too late, and arms timer 1. */
  lemma OlderTimerTearsDown() returns (u: Sys)
    ensures Reachable(u) && u.cell.state.Streaming?
    ensures u.idleTimer == Some(1) && u.timers == map[0 := Locked, 1 := Armed]
    ensures 0 in TimerStep(u, 0).timers && TimerStep(TimerStep(u, 0), 0).cell == EmptyCell()
  {
    ComeAndGone();
    ReachStep(COME_AND_GONE, MoveTimer(0));
    var s1 := Step(COME_AND_GONE, MoveTimer(0));
    ReachStep(s1, MoveTimer(0));
    var s2 := Step(s1, MoveTimer(0));
    assert s2.timers == map[0 := Locked];
    ReachStep(s2, MoveLoop);
    var s3 := Step(s2, MoveLoop);
    ReachStep(s3, MoveLoop);
    u := Step(s3, MoveLoop);
    assert u.timers == map[0 := Locked, 1 := Armed];
    assert TimerStep(u, 0).timers[0] == Holding;
  }
}
