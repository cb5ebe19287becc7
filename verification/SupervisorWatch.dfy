/** The state watch: when it parts from the state, and what viewers that trust it run into. */
module SupervisorWatch {
  import opened Wrappers
  import opened Supervisor
  import opened SupervisorInv
  import opened SupervisorRuns

  // ---- when a stale Streaming is left there ----

  /** A Streaming on the watch is true, and nobody has trusted one that was not. */
  ghost predicate Truthful(s: Sys) {
    && (s.watch.Streaming? ==> s.cell.state.Streaming?)
    && (forall i :: i in s.subs ==> !s.subs[i].Panicked? && (s.subs[i].Attaching? ==> s.cell.state.Streaming?))
  }

  lemma TruthfulByLooking(s: Sys, i: nat, ok: bool)
    requires Session(s) && Truthful(s) && i in s.subs && Looking(s.subs[i])
    ensures Truthful(LookStep(s, i, ok))
  {
  }

  lemma TruthfulByConnector(s: Sys, i: nat, ok: bool, p: Params)
    requires Session(s) && Tasks(s) && Truthful(s) && i in s.subs && Connector(s.subs[i])
    ensures Truthful(ConnectStep(s, i, ok, p))
  {
    assert ViewerTask(s.cell, s.lock, TearingDown(s), i, s.subs[i]);
  }

  lemma TruthfulByDog(s: Sys, c: Chan, ok: bool)
    requires Truthful(s) && c in s.dogs
    ensures Truthful(DogStep(s, c, ok))
  {
  }

  lemma TruthfulByTearDown(s: Sys, t: nat)
    requires Session(s) && Tasks(s) && Truthful(s) && t in s.timers && s.timers[t].Holding? && !LeavesStale(s, MoveTimer(t))
    ensures Truthful(TimerStep(s, t))
  {
    assert PastLock(s, t);
    forall i | i in s.subs
      ensures Early(s.subs[i])
    {
      assert ViewerTask(s.cell, s.lock, TearingDown(s), i, s.subs[i]);
    }
  }

  lemma TruthfulByTimer(s: Sys, t: nat)
    requires Truthful(s) && t in s.timers && !s.timers[t].Holding?
    ensures Truthful(TimerStep(s, t))
  {
  }

  /** Kept by every step but one that leaves a stale Streaming. */
  lemma TruthfulStep(s: Sys, a: Action)
    requires Session(s) && Tasks(s) && Truthful(s) && !LeavesStale(s, a)
    ensures Truthful(Step(s, a))
  {
    if a.MoveViewer? && a.i in s.subs {
      if Looking(s.subs[a.i]) {
        TruthfulByLooking(s, a.i, a.ok);
      } else if Connector(s.subs[a.i]) {
        TruthfulByConnector(s, a.i, a.ok, a.params);
      }
    } else if a.MoveDog? && a.c in s.dogs {
      TruthfulByDog(s, a.c, a.ok);
    } else if a.MoveTimer? && a.t in s.timers {
      if s.timers[a.t].Holding? { TruthfulByTearDown(s, a.t); } else { TruthfulByTimer(s, a.t); }
    }
  }

  lemma {:induction false} TruthfulExec(s: Sys, acts: seq<Action>)
    requires Inv(s) && Truthful(s) && Careful(s, acts)
    ensures Truthful(Exec(s, acts))
    decreases |acts|
  {
    if acts == [] {
    } else {
      TruthfulStep(s, acts[0]);
      InvStep(s, acts[0]);
      TruthfulExec(Step(s, acts[0]), acts[1..]);
    }
  }

  /** Reached by a run in which no stale Streaming is left on the watch. */
  ghost predicate ReachableCarefully(s: Sys) {
    exists acts :: Careful(Init(), acts) && Exec(Init(), acts) == s
  }

  /** Then the watch shows Streaming only while the state is, and no `expect` has failed. */
  lemma StreamingIsTrue(s: Sys)
    requires ReachableCarefully(s)
    ensures Reachable(s) && Truthful(s)
  {
    var acts :| Careful(Init(), acts) && Exec(Init(), acts) == s;
    TruthfulExec(Init(), acts);
  }

  lemma ViewersLeaveNothingStale(s: Sys, i: nat, ok: bool, p: Params)
    requires Tasks(s) && s.watch.Streaming? && s.cell.state.Streaming? && i in s.subs
    ensures ViewerStep(s.(watcher := true), i, ok, p).watch == ViewerStep(s, i, ok, p).watch
  {
    assert ViewerTask(s.cell, s.lock, TearingDown(s), i, s.subs[i]);
  }

  lemma DogsWatch(s: Sys, c: Chan, ok: bool)
    requires s.watch.Streaming? && c in s.dogs
    ensures DogStep(s, c, ok).watch.Streaming?
  {
  }

  lemma DogsLeaveNothingStale(s: Sys, c: Chan, ok: bool)
    requires s.watch.Streaming? && c in s.dogs
    ensures DogStep(s.(watcher := true), c, ok).watch == DogStep(s, c, ok).watch
  {
    DogsWatch(s, c, ok);
    DogsWatch(s.(watcher := true), c, ok);
  }

  /** The action is a teardown that ends a Streaming on the watch with nobody there to
      receive the Idle. */
  predicate TeardownUnheard(s: Sys, a: Action) {
    a.MoveTimer? && a.t in s.timers && s.timers[a.t].Holding? && s.watch.Streaming? && !s.watcher
  }

  lemma NobodyWaits(s: Sys, t: nat)
    requires Session(s) && Tasks(s) && t in s.timers && s.timers[t].Holding?
    ensures forall i :: i in s.subs ==> !s.subs[i].Waiting?
  {
    assert PastLock(s, t);
    forall i | i in s.subs
      ensures !s.subs[i].Waiting?
    {
      assert ViewerTask(s.cell, s.lock, TearingDown(s), i, s.subs[i]);
    }
  }

  /** Nothing else leaves a stale Streaming on the watch. */
  lemma StaleIffTeardownUnheard(s: Sys, a: Action)
    requires Session(s) && Tasks(s) && Truthful(s)
    ensures LeavesStale(s, a) <==> TeardownUnheard(s, a)
  {
    if !s.watch.Streaming? {
    } else if a.MoveViewer? {
      if a.i in s.subs { ViewersLeaveNothingStale(s, a.i, a.ok, a.params); }
    } else if a.MoveDog? {
      if a.c in s.dogs { DogsLeaveNothingStale(s, a.c, a.ok); }
    } else if a.MoveTimer? && a.t in s.timers && s.timers[a.t].Holding? {
      NobodyWaits(s, a.t);
    }
  }

  // ---- when watch and state part ----

  predicate InStep(s: Sys) { s.watch == s.cell.state }

  lemma PartsByLooking(s: Sys, i: nat, ok: bool, p: Params)
    requires InStep(s) && i in s.subs && Looking(s.subs[i])
    ensures InStep(LookStep(s, i, ok)) <==> !(Announces(s, MoveViewer(i, ok, p)) && NobodyListens(s))
    ensures !InStep(LookStep(s, i, ok)) ==> LookStep(s, i, ok).watch == s.watch
  {
  }

  lemma PartsByConnector(s: Sys, i: nat, ok: bool, p: Params)
    requires Tasks(s) && InStep(s) && i in s.subs && Connector(s.subs[i])
    ensures InStep(ConnectStep(s, i, ok, p)) <==> !(Announces(s, MoveViewer(i, ok, p)) && NobodyListens(s))
    ensures !InStep(ConnectStep(s, i, ok, p)) ==> ConnectStep(s, i, ok, p).watch == s.watch
  {
    assert ViewerTask(s.cell, s.lock, TearingDown(s), i, s.subs[i]);
  }

  lemma PartsByLocal(s: Sys, i: nat, ok: bool, p: Params)
    requires InStep(s) && i in s.subs && Local(s.subs[i])
    ensures InStep(LocalStep(s, i)) && !Announces(s, MoveViewer(i, ok, p))
  {
  }

  lemma PartsByDog(s: Sys, c: Chan, ok: bool)
    requires Session(s) && InStep(s) && c in s.dogs && !s.dogs[c].Redialed?
    ensures InStep(DogStep(s, c, ok))
  {
  }

  lemma PartsByRedialed(s: Sys, c: Chan, ok: bool)
    requires Session(s) && InStep(s) && c in s.dogs && s.dogs[c].Redialed?
    ensures InStep(DogStep(s, c, ok))
  {
  }

  lemma PartsByTimer(s: Sys, t: nat)
    requires Session(s) && InStep(s) && t in s.timers
    ensures InStep(TimerStep(s, t)) <==> !(Announces(s, MoveTimer(t)) && NobodyListens(s))
    ensures !InStep(TimerStep(s, t)) ==> TimerStep(s, t).watch == s.watch
  {
    if s.timers[t].Holding? { assert PastLock(s, t); }
  }

  lemma PartsByViewer(s: Sys, i: nat, ok: bool, p: Params)
    requires Tasks(s) && InStep(s) && i in s.subs
    ensures InStep(ViewerStep(s, i, ok, p)) <==> !(Announces(s, MoveViewer(i, ok, p)) && NobodyListens(s))
    ensures !InStep(ViewerStep(s, i, ok, p)) ==> ViewerStep(s, i, ok, p).watch == s.watch
  {
    if Looking(s.subs[i]) {
      PartsByLooking(s, i, ok, p);
    } else if Connector(s.subs[i]) {
      PartsByConnector(s, i, ok, p);
    } else {
      PartsByLocal(s, i, ok, p);
    }
  }

  lemma PartsIff(s: Sys, a: Action)
    requires Session(s) && Tasks(s) && InStep(s)
    ensures InStep(Step(s, a)) <==> !(Announces(s, a) && NobodyListens(s))
    ensures !InStep(Step(s, a)) ==> Step(s, a).watch == s.watch
  {
    if a.MoveViewer? && a.i in s.subs {
      PartsByViewer(s, a.i, a.ok, a.params);
    } else if a.MoveDog? && a.c in s.dogs {
      if s.dogs[a.c].Redialed? { PartsByRedialed(s, a.c, a.ok); } else { PartsByDog(s, a.c, a.ok); }
    } else if a.MoveTimer? && a.t in s.timers {
      PartsByTimer(s, a.t);
    }
  }

  /** The watch stops showing the state exactly with a change of the state that nobody is
      there to receive: a connect begun, failed or done, or a teardown. */
  lemma WatchPartsIff(s: Sys, a: Action)
    requires Reachable(s) && s.watch == s.cell.state
    ensures Step(s, a).watch != Step(s, a).cell.state <==> Announces(s, a) && NobodyListens(s)
    ensures Step(s, a).watch != Step(s, a).cell.state ==> Step(s, a).watch == s.watch
  {
    ReachableInv(s);
    PartsIff(s, a);
  }

  lemma HeardIsCareful(s: Sys, a: Action)
    requires Session(s) && Tasks(s) && Truthful(s) && !(Announces(s, a) && NobodyListens(s))
    ensures !LeavesStale(s, a)
  {
    StaleIffTeardownUnheard(s, a);
    if TeardownUnheard(s, a) { NobodyWaits(s, a.t); }
  }

  lemma {:induction false} HeardRun(s: Sys, acts: seq<Action>)
    requires Inv(s) && AllHeard(s, acts)
    ensures InStep(s) ==> InStep(Exec(s, acts))
    ensures Truthful(s) ==> Careful(s, acts)
    decreases |acts|
  {
    if acts == [] {
    } else {
      if InStep(s) { PartsIff(s, acts[0]); }
      if Truthful(s) {
        HeardIsCareful(s, acts[0]);
        TruthfulStep(s, acts[0]);
      }
      InvStep(s, acts[0]);
      HeardRun(Step(s, acts[0]), acts[1..]);
    }
  }

  /** So from any state in which the watch shows the state it goes on to, as long as every
      change is received, for example because one receiver stays. */
  lemma WatchShowsState(s: Sys, acts: seq<Action>)
    requires Reachable(s) && s.watch == s.cell.state && AllHeard(s, acts)
    ensures Exec(s, acts).watch == Exec(s, acts).cell.state
  {
    ReachableInv(s);
    HeardRun(s, acts);
  }

  lemma {:induction false} LongLivedReceiverHears(s: Sys, acts: seq<Action>)
    requires s.watcher && Watch(false) !in acts
    ensures AllHeard(s, acts)
    decreases |acts|
  {
    if acts == [] {
    } else {
      WatcherStays(s, acts[0]);
      LongLivedReceiverHears(Step(s, acts[0]), acts[1..]);
    }
  }

  lemma WatcherStays(s: Sys, a: Action)
    requires s.watcher && a != Watch(false)
    ensures Step(s, a).watcher
  {
    if a.MoveViewer? {
      if a.i in s.subs && Connector(s.subs[a.i]) { ConnectorKeepsWatcher(s, a.i, a.ok, a.params); }
    }
  }

  lemma ConnectorKeepsWatcher(s: Sys, i: nat, ok: bool, p: Params)
    requires i in s.subs && Connector(s.subs[i])
    ensures ConnectStep(s, i, ok, p).watcher == s.watcher
  {
  }

  // ---- what becomes of a viewer that waits ----

  /** A viewer waits for a connect that is running, as long as the watch shows the state. */
  lemma WaiterHasConnector(s: Sys, i: nat)
    requires Reachable(s) && s.watch == s.cell.state && i in s.subs && s.subs[i].Waiting? && s.watch.Connecting?
    ensures exists j :: j in s.subs && j != i && FirstConnect(s.subs[j])
  {
    SessionConsistent(s);
    var j :| j in s.subs && FirstConnect(s.subs[j]);
  }

  /** It is refused although the connect is still running exactly if it reads Idle in
      Connecting. */
  lemma RefusedMeanwhileIff(s: Sys, i: nat, ok: bool, p: Params)
    requires Reachable(s) && i in s.subs && s.subs[i].Waiting?
    ensures Step(s, MoveViewer(i, ok, p)).subs[i].Leaving? && (exists j :: j in s.subs && FirstConnect(s.subs[j])) <==>
      s.watch.Idle? && s.cell.state.Connecting?
  {
    SessionConsistent(s);
  }

  /** And it waits for nobody exactly if it reads Connecting in another state. */
  lemma WaitsForNobodyIff(s: Sys, i: nat, ok: bool, p: Params)
    requires Reachable(s) && i in s.subs && s.subs[i].Waiting?
    ensures Step(s, MoveViewer(i, ok, p)).subs[i].Waiting? && !(exists j :: j in s.subs && FirstConnect(s.subs[j])) <==>
      s.watch.Connecting? && !s.cell.state.Connecting?
  {
    SessionConsistent(s);
  }

  /** While the watch shows the state, the first starts with a connect begun and the second
      with one that ends, exactly if nobody is there to receive it. */
  lemma WrongAnswersBeginIff(s: Sys, a: Action)
    requires Reachable(s) && s.watch == s.cell.state
    ensures var u := Step(s, a);
      u.watch.Idle? && u.cell.state.Connecting? <==>
        a.MoveViewer? && a.i in s.subs && s.subs[a.i].Entering? && s.lock.Free? && s.cell.state.Idle? && a.ok && NobodyListens(s)
    ensures var u := Step(s, a);
      u.watch.Connecting? && !u.cell.state.Connecting? <==>
        a.MoveViewer? && a.i in s.subs && (s.subs[a.i].DialFailed? || s.subs[a.i].Dialed?) && s.lock.Free? && NobodyListens(s)
  {
    WatchPartsIff(s, a);
    ReachableInv(s);
    if a.MoveViewer? && a.i in s.subs {
      assert ViewerTask(s.cell, s.lock, TearingDown(s), a.i, s.subs[a.i]);
    } else if a.MoveTimer? && a.t in s.timers && s.timers[a.t].Holding? {
      assert PastLock(s, a.t);
    }
  }

  /** Without a receiver a viewer is refused while another one is still connecting. */
  lemma RefusedMeanwhile() returns (u: Sys)
    ensures Reachable(u) && u.cell.state.Connecting? && u.subs == map[0 := Dialing(0), 1 := Leaving]
  {
    OneWaits();
    ReachMove(ONE_WAITS, 1);
    u := V(ONE_WAITS, 1);
  }

  lemma ConnectLost(s: Sys) returns (u: Sys)
    requires Reachable(s) && s.lock.Free? && s.cell == EmptyCell().(state := Connecting) && s.watch.Connecting?
    requires s.subs == map[0 := Dialing(0), 1 := Joining]
    ensures Reachable(u) && u.cell == EmptyCell() && u.watch.Connecting? && u.subs == map[0 := Leaving, 1 := Waiting]
  {
    ReachStep(s, Watch(false));
    var s1 := Step(s, Watch(false));
    ReachStep(s1, MoveViewer(0, false, 0));
    var s2 := Step(s1, MoveViewer(0, false, 0));
    assert s2.subs == map[0 := DialFailed, 1 := Joining];
    ReachMove(s2, 0);
    var s3 := V(s2, 0);
    assert s3.subs == map[0 := Leaving, 1 := Joining] && s3.watch == Connecting;
    ReachMove(s3, 1);
    u := V(s3, 1);
  }

  /** And when a receiver leaves at the wrong time, a viewer waits on a connect that failed. */
  lemma WaitsForNobody() returns (u: Sys)
    ensures Reachable(u) && u.cell == EmptyCell() && u.watch.Connecting? && u.subs == map[0 := Leaving, 1 := Waiting]
  {
    var s := Init();
    Starts();
    ReachStep(s, Watch(true));
    var s0 := Step(s, Watch(true));
    ReachStep(s0, Arrive);
    var s1 := Step(s0, Arrive);
    ReachMove(s1, 0);
    var s2 := V(s1, 0);
    ReachMove(s2, 0);
    var s3 := V(s2, 0);
    assert s3.subs == map[0 := Dialing(0)] && s3.watch == Connecting;
    ReachStep(s3, Arrive);
    var s4 := Step(s3, Arrive);
    ReachMove(s4, 1);
    var s5 := V(s4, 1);
    ReachMove(s5, 1);
    var s6 := V(s5, 1);
    assert s6.subs == map[0 := Dialing(0), 1 := Joining];
    u := ConnectLost(s6);
  }

  // ---- when an `expect` fails ----

  // Both left and the idle timer ran out with nobody on the watch: it still shows Streaming.
  const TORN_DOWN: Sys :=
    Sys(false, EmptyCell(), Free, Streaming, 0, [], Some(0), map[], map[0 := AwaitEnd(0)], map[], {0}, 2, 1, 1, 1)

  lemma TornDown()
    ensures Reachable(TORN_DOWN)
  {
    AllLeft();
    ReachStep(ALL_LEFT, MoveTimer(0));
    var s1 := Step(ALL_LEFT, MoveTimer(0));
    ReachStep(s1, MoveTimer(0));
    var s2 := Step(s1, MoveTimer(0));
    ReachStep(s2, MoveTimer(0));
    var s3 := Step(s2, MoveTimer(0));
    assert s3.timers == map[0 := Holding];
    ReachStep(s3, MoveTimer(0));
    var s4 := Step(s3, MoveTimer(0));
    assert s4.timers == map[] && s4.dropped == {0};
    assert s4 == TORN_DOWN;
  }

  // Moves of viewers alone.

  predicate ViewersOnly(acts: seq<Action>) {
    forall k :: 0 <= k < |acts| ==> acts[k].Arrive? || acts[k].MoveViewer?
  }

  ghost predicate ViewersReach(s: Sys, u: Sys) {
    exists acts :: ViewersOnly(acts) && Exec(s, acts) == u
  }

  lemma ViewersStep(s: Sys, u: Sys, a: Action)
    requires ViewersReach(s, u) && (a.Arrive? || a.MoveViewer?)
    ensures ViewersReach(s, Step(u, a))
  {
    var acts :| ViewersOnly(acts) && Exec(s, acts) == u;
    ExecAppend(s, acts, [a]);
    assert [a][1..] == [];
    assert ViewersOnly(acts + [a]) && Exec(s, acts + [a]) == Step(u, a);
  }

  /** The session is over, the watch still shows Streaming, and nobody waits on it. */
  ghost predicate StaleWatch(s: Sys) {
    && s.lock.Free? && s.cell == EmptyCell() && s.watch.Streaming? && !s.watcher
    && forall i :: i in s.subs ==> i < s.nextSub && !s.subs[i].Waiting?
  }

  /** Then a new viewer starts a connect, and nobody hears of it. */
  lemma NewConnect(s: Sys) returns (u: Sys)
    requires StaleWatch(s)
    ensures ViewersReach(s, u) && u.lock.Free? && u.watch.Streaming?
    ensures u.cell == Cell(Connecting, None, None, None) && u.nextSub !in u.subs
  {
    var i := s.nextSub;
    assert ViewersOnly([]) && Exec(s, []) == s;
    ViewersStep(s, s, Arrive);
    var s1 := Step(s, Arrive);
    ViewersStep(s, s1, MoveViewer(i, true, 0));
    var s2 := V(s1, i);
    assert s2.subs[i] == Entering && forall j :: j in s2.subs && j != i ==> s2.subs[j] == s.subs[j];
    ViewersStep(s, s2, MoveViewer(i, true, 0));
    u := V(s2, i);
  }

  /** And another one sees Connecting, trusts the watch and finds no parameters. */
  lemma TrustsStale(s: Sys, t: Sys) returns (u: Sys)
    requires ViewersReach(s, t) && t.lock.Free? && t.watch.Streaming?
    requires t.cell == Cell(Connecting, None, None, None) && t.nextSub !in t.subs
    ensures ViewersReach(s, u) && Panics(u)
  {
    var j := t.nextSub;
    ViewersStep(s, t, Arrive);
    var t1 := Step(t, Arrive);
    ViewersStep(s, t1, MoveViewer(j, true, 0));
    var t2 := V(t1, j);
    ViewersStep(s, t2, MoveViewer(j, true, 0));
    var t3 := V(t2, j);
    ViewersStep(s, t3, MoveViewer(j, true, 0));
    var t4 := V(t3, j);
    ViewersStep(s, t4, MoveViewer(j, true, 0));
    var t5 := V(t4, j);
    ViewersStep(s, t5, MoveViewer(j, true, 0));
    u := V(t5, j);
    assert u.subs[j] == Panicked;
  }

  /** So a stale watch is fatal: two viewers later an `expect` fails. */
  lemma StaleIsFatal(s: Sys) returns (acts: seq<Action>)
    requires StaleWatch(s)
    ensures ViewersOnly(acts) && Panics(Exec(s, acts))
  {
    var t := NewConnect(s);
    var u := TrustsStale(s, t);
    acts :| ViewersOnly(acts) && Exec(s, acts) == u;
  }

  /** Without a receiver, four viewers and one idle timeout are enough. */
  lemma TrustingViewerPanics() returns (u: Sys)
    ensures Reachable(u) && Panics(u)
  {
    TornDown();
    var before :| Exec(Init(), before) == TORN_DOWN;
    var after := StaleIsFatal(TORN_DOWN);
    ExecAppend(Init(), before, after);
    u := Exec(Init(), before + after);
  }

  /** As long as no stale Streaming is left on the watch, both `expect`s of `subscribe` hold. */
  lemma CarefulNeverPanics(s: Sys, acts: seq<Action>)
    requires ReachableCarefully(s) && Careful(s, acts)
    ensures !Panics(Exec(s, acts))
  {
    StreamingIsTrue(s);
    ReachableInv(s);
    TruthfulExec(s, acts);
  }

  lemma {:induction false} ViewersAreCareful(s: Sys, acts: seq<Action>)
    requires Inv(s) && Truthful(s) && ViewersOnly(acts)
    ensures Careful(s, acts)
    decreases |acts|
  {
    if acts == [] {
    } else {
      assert acts[0].Arrive? || acts[0].MoveViewer?;
      StaleIffTeardownUnheard(s, acts[0]);
      TruthfulStep(s, acts[0]);
      InvStep(s, acts[0]);
      ViewersAreCareful(Step(s, acts[0]), acts[1..]);
    }
  }

  lemma UnheardIsFatal(s: Sys, a: Action) returns (acts: seq<Action>)
    requires Inv(s) && TeardownUnheard(s, a)
    ensures ViewersOnly(acts) && Panics(Exec(Step(s, a), acts))
  {
    NobodyWaits(s, a.t);
    acts := StaleIsFatal(Step(s, a));
  }

  /** When the two `expect`s of `subscribe` are lost: while no stale Streaming has been left
      they hold, and after the next step viewers alone can make one fail if and only if that
      step is a teardown nobody hears. */
  lemma PanicsIffTeardownUnheard(s: Sys, a: Action)
    requires ReachableCarefully(s)
    ensures !Panics(s)
    ensures (exists acts :: ViewersOnly(acts) && Panics(Exec(Step(s, a), acts))) <==> TeardownUnheard(s, a)
  {
    StreamingIsTrue(s);
    ReachableInv(s);
    if TeardownUnheard(s, a) {
      var acts := UnheardIsFatal(s, a);
    } else {
      StaleIffTeardownUnheard(s, a);
      TruthfulStep(s, a);
      InvStep(s, a);
      forall acts | ViewersOnly(acts)
        ensures !Panics(Exec(Step(s, a), acts))
      {
        ViewersAreCareful(Step(s, a), acts);
        TruthfulExec(Step(s, a), acts);
      }
    }
  }

  /** So one receiver is enough, from before the first idle timeout on. */
  lemma SafeWithReceiver(s: Sys, acts: seq<Action>)
    requires ReachableCarefully(s) && s.watcher && Watch(false) !in acts
    ensures !Panics(Exec(s, acts))
  {
    StreamingIsTrue(s);
    ReachableInv(s);
    LongLivedReceiverHears(s, acts);
    HeardRun(s, acts);
    CarefulNeverPanics(s, acts);
  }
}
