/** The inductive invariant of the supervisor, kept by every action whatever the state watch
    shows. */
module SupervisorInv {
  import opened Wrappers
  import opened Supervisor

  function Dets(q: seq<Event>): nat {
    if q == [] then 0 else (if q[0].Detached? then 1 else 0) + Dets(q[1..])
  }

  /** The viewer holds the Connecting slot: it runs the first connect of a session. */
  predicate FirstConnect(v: Sub) { v.Dialing? || v.Dialed? || v.DialFailed? }

  predicate Early(v: Sub) { v.Counted? || v.Entering? }

  predicate HasChan(v: Sub) { v.Dialing? || v.Dialed? || v.Installing? || v.Spawning? || v.Live? }

  /** The viewer's channel has no watchdog yet. */
  predicate Unguarded(v: Sub) { v.Dialing? || v.Dialed? || v.Installing? || v.Spawning? }

  /** The viewer holds the handle its connect returned. */
  predicate Holds(v: Sub) { v.Dialed? || v.Installing? }

  /** Every viewer is counted until the event loop has seen its Detached event. */
  ghost predicate Viewers(s: Sys) {
    s.count == |s.subs| + Dets(s.queue)
  }

  /** Channel identities are fresh: no watchdog guards a channel not yet published. */
  predicate ViewerIds(nextChan: Chan, guarded: set<Chan>, v: Sub) {
    && (HasChan(v) ==> v.chan < nextChan)
    && (Unguarded(v) ==> v.chan !in guarded)
  }

  ghost predicate Ids(s: Sys) {
    && (forall i :: i in s.subs ==> i < s.nextSub && ViewerIds(s.nextChan, s.dogs.Keys, s.subs[i]))
    && (forall c :: c in s.dogs ==> c < s.nextChan)
    && (forall t :: t in s.timers ==> t < s.nextTimer)
    && (s.idleTimer.Some? ==> s.idleTimer.value < s.nextTimer)
    && (s.cell.rtpTx.Some? ==> s.cell.rtpTx.value < s.nextChan)
  }

  predicate PastLock(s: Sys, t: nat) { t in s.timers && (s.timers[t].Locked? || s.timers[t].Holding?) }

  /** Inside the lock, but having changed nothing: the cell is as others left it. */
  predicate Settled(s: Sys) {
    s.lock.Free? || (s.lock.HeldByTimer? && s.lock.timer in s.timers && s.timers[s.lock.timer].Locked?)
  }

  /** A timer holds the lock and will tear down. */
  predicate TearingDown(s: Sys) {
    s.lock.HeldByTimer? && s.lock.timer in s.timers && s.timers[s.lock.timer].Holding?
  }

  ghost predicate Session(s: Sys) {
    && (Settled(s) ==>
          && (s.cell.state.Streaming? <==> s.cell.rtpTx.Some?)
          && (s.cell.state.Streaming? <==> s.cell.stop.Some?)
          && (s.cell.state.Streaming? <==> s.cell.h264.Some?))
    && (s.lock.HeldBySub? ==>
          && s.lock.sub in s.subs && s.subs[s.lock.sub].Installing?
          && s.cell == Cell(Streaming, None, None, None))
    && (TearingDown(s) ==>
          s.cell.state.Streaming? && s.cell.rtpTx.Some? && s.cell.stop.Some? && s.cell.h264.Some?)
    && (s.lock.HeldByTimer? ==> PastLock(s, s.lock.timer))
    && (forall t :: PastLock(s, t) ==> s.lock == HeldByTimer(t))
  }

  /** What a viewer's position says about the cell and the lock. */
  predicate ViewerTask(c: Cell, lock: Lock, tearing: bool, i: nat, v: Sub) {
    && (v.Installing? ==> lock == HeldBySub(i))
    && (tearing ==> Early(v))
    && (FirstConnect(v) ==> c.state.Connecting?)
    && (v.Spawning? ==> c.state.Streaming? && c.rtpTx == Some(v.chan))
    && (v.Live? ==> c.state.Streaming? && c.rtpTx == Some(v.chan) && c.h264 == Some(v.params))
  }

  ghost predicate Tasks(s: Sys) {
    && (forall i :: i in s.subs ==> ViewerTask(s.cell, s.lock, TearingDown(s), i, s.subs[i]))
    // One first connect at a time, and one new session waiting for its watchdog.
    && (forall i, j :: i in s.subs && j in s.subs && FirstConnect(s.subs[i]) && FirstConnect(s.subs[j]) ==> i == j)
    && (forall i, j :: i in s.subs && j in s.subs && s.subs[i].Spawning? && s.subs[j].Spawning? ==> i == j)
  }

  /** Connecting is never left behind: somebody is running the connect. */
  ghost predicate Progress(s: Sys) {
    s.cell.state.Connecting? ==> exists i :: i in s.subs && FirstConnect(s.subs[i])
  }

  /** Issued, not dropped, and not the handle of the session. */
  predicate InHand(s: Sys, h: Handle) {
    h < s.nextHandle && h !in s.dropped && s.cell.stop != Some(h)
  }

  /** No handle has two owners. (Two viewers never hold handles at once: see Tasks.) */
  ghost predicate Owners(s: Sys) {
    && (forall h :: h in s.dropped ==> h < s.nextHandle)
    && (s.cell.stop.Some? ==> s.cell.stop.value < s.nextHandle && s.cell.stop.value !in s.dropped)
    && (forall i :: i in s.subs && Holds(s.subs[i]) ==> InHand(s, s.subs[i].handle))
    && (forall c :: c in s.dogs && s.dogs[c].Redialed? ==> InHand(s, s.dogs[c].handle))
    && (forall c, d :: c in s.dogs && d in s.dogs && s.dogs[c].Redialed? && s.dogs[d].Redialed? && c != d ==>
          s.dogs[c].handle != s.dogs[d].handle)
    && (forall i, c :: i in s.subs && c in s.dogs && Holds(s.subs[i]) && s.dogs[c].Redialed? ==>
          s.subs[i].handle != s.dogs[c].handle)
  }

  ghost predicate Owned(s: Sys, h: Handle) {
    || h in s.dropped
    || s.cell.stop == Some(h)
    || (exists i :: i in s.subs && Holds(s.subs[i]) && s.subs[i].handle == h)
    || (exists c :: c in s.dogs && s.dogs[c].Redialed? && s.dogs[c].handle == h)
  }

  /** No issued handle is lost. */
  ghost predicate AllOwned(s: Sys) {
    forall h: Handle :: h < s.nextHandle ==> Owned(s, h)
  }

  predicate WasAborted(x: Timer) { x.Running? && x.aborted }

  /** In front of the lock and not aborted: `abort` can still have an effect on it. */
  predicate Stoppable(s: Sys, t: nat) { t in s.timers && !PastLock(s, t) && !WasAborted(s.timers[t]) }

  ghost predicate Timers(s: Sys) {
    // Only the timer in the event loop's variable can still be stopped ...
    && (forall t: nat :: Stoppable(s, t) ==> s.idleTimer == Some(t))
    // ... and as long as the timer named there can fire, the queue starts with an Attached event.
    && (s.idleTimer.Some? && s.idleTimer.value in s.timers ==>
          && (s.queue != [] ==> s.queue[0].Attached?)
          && (s.queue == [] ==> forall i :: i in s.subs ==> s.subs[i].Counted?))
    // The sender of a last Attached event has not sent its Detached event.
    && (s.queue != [] && s.queue[|s.queue| - 1].Attached? ==> exists i :: i in s.subs && !s.subs[i].Counted?)
    // A session without viewers has an idle timer that was not aborted.
    && (!s.cell.state.Idle? && s.subs == map[] && Dets(s.queue) == 0 ==>
          exists t :: t in s.timers && !WasAborted(s.timers[t]))
  }

  ghost predicate Inv(s: Sys) {
    Viewers(s) && Ids(s) && Session(s) && Tasks(s) && Progress(s) && Owners(s) && AllOwned(s) && Timers(s)
  }

  // ---- each group is kept by every action ----

  lemma {:induction false} DetsAppend(q: seq<Event>, e: Event)
    ensures Dets(q + [e]) == Dets(q) + if e.Detached? then 1 else 0
  {
    if q == [] {
    } else {
      assert (q + [e])[1..] == q[1..] + [e];
      DetsAppend(q[1..], e);
    }
  }

  lemma {:induction false} DetsOfLast(q: seq<Event>)
    requires q != [] && q[|q| - 1].Detached?
    ensures Dets(q) > 0
  {
    if |q| <= 1 {
    } else {
      DetsOfLast(q[1..]);
    }
  }

  lemma NoViewers(s: Sys)
    requires Viewers(s) && s.count <= 0
    ensures s.subs == map[] && Dets(s.queue) == 0
  {
    assert s.subs.Keys == {};
  }

  lemma SizeReplaced<T(!new)>(m: map<nat, T>, i: nat)
    requires i in m
    ensures forall v: T {:trigger m[i := v]} :: |m[i := v]| == |m|
  {
    forall v: T {:trigger m[i := v]}
      ensures |m[i := v]| == |m|
    {
      assert m[i := v].Keys == m.Keys;
    }
  }

  lemma SizeAdded<T>(m: map<nat, T>, i: nat, v: T)
    requires i !in m
    ensures |m[i := v]| == |m| + 1
  {
    assert m[i := v].Keys == m.Keys + {i};
  }

  lemma SizeRemoved<T>(m: map<nat, T>, i: nat)
    requires i in m
    ensures |m - {i}| == |m| - 1
  {
    assert m.Keys == (m - {i}).Keys + {i};
  }

  // ---- moves of a viewer ----

  predicate OthersSame(s: Sys, i: nat, u: Sys) {
    && (forall j :: j in s.subs && j != i ==> j in u.subs && u.subs[j] == s.subs[j])
    && (forall j :: j in u.subs && j != i ==> j in s.subs)
  }

  lemma ViewersByLocal(s: Sys, i: nat)
    requires Viewers(s) && i in s.subs && Local(s.subs[i])
    ensures Viewers(LocalStep(s, i))
  {
    SizeReplaced(s.subs, i);
    SizeRemoved(s.subs, i);
    DetsAppend(s.queue, Attached);
    DetsAppend(s.queue, Detached);
  }

  lemma ViewersByLooking(s: Sys, i: nat, ok: bool)
    requires Viewers(s) && i in s.subs && Looking(s.subs[i])
    ensures Viewers(LookStep(s, i, ok))
  {
    SizeReplaced(s.subs, i);
  }

  lemma ViewersByConnector(s: Sys, i: nat, ok: bool, p: Params)
    requires Viewers(s) && i in s.subs && Connector(s.subs[i])
    ensures Viewers(ConnectStep(s, i, ok, p))
  {
    SizeReplaced(s.subs, i);
  }

  lemma IdsByLocal(s: Sys, i: nat)
    requires Ids(s) && i in s.subs && Local(s.subs[i])
    ensures Ids(LocalStep(s, i))
  {
  }

  lemma IdsByEntering(s: Sys, i: nat, ok: bool)
    requires Ids(s) && i in s.subs && s.subs[i].Entering?
    ensures Ids(LookStep(s, i, ok))
  {
  }

  lemma IdsByLooking(s: Sys, i: nat, ok: bool)
    requires Ids(s) && i in s.subs && Looking(s.subs[i]) && !s.subs[i].Entering?
    ensures Ids(LookStep(s, i, ok))
  {
  }

  lemma IdsByConnector(s: Sys, i: nat, ok: bool, p: Params)
    requires Ids(s) && i in s.subs && Connector(s.subs[i]) && !s.subs[i].Spawning?
    ensures Ids(ConnectStep(s, i, ok, p))
  {
  }

  lemma IdsBySpawning(s: Sys, i: nat, ok: bool, p: Params)
    requires Ids(s) && Session(s) && Tasks(s) && i in s.subs && s.subs[i].Spawning?
    ensures Ids(ConnectStep(s, i, ok, p))
  {
    forall j | j in s.subs && j != i
      ensures !Unguarded(s.subs[j])
    {
      assert ViewerTask(s.cell, s.lock, TearingDown(s), i, s.subs[i]);
      assert ViewerTask(s.cell, s.lock, TearingDown(s), j, s.subs[j]);
    }
  }

  lemma TasksByLocal(s: Sys, i: nat)
    requires Tasks(s) && i in s.subs && Local(s.subs[i])
    ensures Tasks(LocalStep(s, i))
  {
  }

  lemma TasksByEntering(s: Sys, i: nat, ok: bool)
    requires Session(s) && Tasks(s) && i in s.subs && s.subs[i].Entering?
    ensures Tasks(LookStep(s, i, ok))
  {
  }

  lemma TasksByWaiting(s: Sys, i: nat, ok: bool)
    requires Tasks(s) && i in s.subs && s.subs[i].Waiting?
    ensures Tasks(LookStep(s, i, ok))
  {
  }

  lemma TasksByAttaching(s: Sys, i: nat, ok: bool)
    requires Session(s) && Tasks(s) && i in s.subs && s.subs[i].Attaching?
    ensures Tasks(LookStep(s, i, ok))
  {
  }

  lemma TasksByInstalling(s: Sys, i: nat, ok: bool, p: Params)
    requires Session(s) && Tasks(s) && i in s.subs && (s.subs[i].Dialed? || s.subs[i].Installing?)
    ensures Tasks(ConnectStep(s, i, ok, p))
  {
  }

  lemma TasksByConnector(s: Sys, i: nat, ok: bool, p: Params)
    requires Session(s) && Tasks(s) && i in s.subs && Connector(s.subs[i])
    requires !s.subs[i].Dialed? && !s.subs[i].Installing?
    ensures Tasks(ConnectStep(s, i, ok, p))
  {
  }

  lemma OwnersByConnector(s: Sys, i: nat, ok: bool, p: Params)
    requires Owners(s) && i in s.subs && Connector(s.subs[i]) && !s.subs[i].Installing?
    ensures Owners(ConnectStep(s, i, ok, p))
  {
  }

  lemma OwnersByInstalling(s: Sys, i: nat, ok: bool, p: Params)
    requires Owners(s) && Session(s) && Tasks(s) && i in s.subs && s.subs[i].Installing?
    ensures Owners(ConnectStep(s, i, ok, p))
  {
    forall j | j in s.subs && j != i
      ensures !Holds(s.subs[j])
    {
      assert ViewerTask(s.cell, s.lock, TearingDown(s), i, s.subs[i]);
      assert ViewerTask(s.cell, s.lock, TearingDown(s), j, s.subs[j]);
    }
  }

  lemma SessionByLocal(s: Sys, i: nat)
    requires Session(s) && Tasks(s) && i in s.subs && Local(s.subs[i])
    ensures Session(LocalStep(s, i))
  {
    assert ViewerTask(s.cell, s.lock, TearingDown(s), i, s.subs[i]);
    var u := LocalStep(s, i);
    assert forall t :: PastLock(u, t) <==> PastLock(s, t);
  }

  lemma SessionByEntering(s: Sys, i: nat, ok: bool)
    requires Session(s) && i in s.subs && s.subs[i].Entering?
    ensures Session(LookStep(s, i, ok))
  {
    var u := LookStep(s, i, ok);
    assert forall t :: PastLock(u, t) <==> PastLock(s, t);
  }

  lemma SessionByLooking(s: Sys, i: nat, ok: bool)
    requires Session(s) && i in s.subs && Looking(s.subs[i]) && !s.subs[i].Entering?
    ensures Session(LookStep(s, i, ok))
  {
    var u := LookStep(s, i, ok);
    assert forall t :: PastLock(u, t) <==> PastLock(s, t);
  }

  lemma SessionByConnector(s: Sys, i: nat, ok: bool, p: Params)
    requires Session(s) && Tasks(s) && i in s.subs && Connector(s.subs[i])
    ensures Session(ConnectStep(s, i, ok, p))
  {
    assert ViewerTask(s.cell, s.lock, TearingDown(s), i, s.subs[i]);
    var u := ConnectStep(s, i, ok, p);
    assert forall t :: PastLock(u, t) <==> PastLock(s, t);
  }

  lemma ProgressByViewer(s: Sys, i: nat, u: Sys)
    requires Progress(s) && i in s.subs && OthersSame(s, i, u)
    requires u.cell.state.Connecting? ==>
      (s.cell.state.Connecting? && !FirstConnect(s.subs[i])) || (i in u.subs && FirstConnect(u.subs[i]))
    ensures Progress(u)
  {
    if u.cell.state.Connecting? {
      if i in u.subs && FirstConnect(u.subs[i]) {
      } else {
        var j :| j in s.subs && FirstConnect(s.subs[j]);
        assert j in u.subs && u.subs[j] == s.subs[j];
      }
    }
  }

  lemma OwnedByInstalling(s: Sys, i: nat, ok: bool, p: Params, h: Handle)
    requires i in s.subs && s.subs[i].Installing? && Owned(s, h)
    ensures Owned(ConnectStep(s, i, ok, p), h)
  {
    var u := ConnectStep(s, i, ok, p);
    if j :| j in s.subs && Holds(s.subs[j]) && s.subs[j].handle == h {
      if j != i { assert u.subs[j] == s.subs[j]; }
    }
  }

  lemma OwnedByConnector(s: Sys, i: nat, ok: bool, p: Params, h: Handle)
    requires Ids(s) && i in s.subs && Connector(s.subs[i]) && !s.subs[i].Installing?
    requires (h < s.nextHandle ==> Owned(s, h)) && h < ConnectStep(s, i, ok, p).nextHandle
    ensures Owned(ConnectStep(s, i, ok, p), h)
  {
    var u := ConnectStep(s, i, ok, p);
    if h == s.nextHandle {
      assert Holds(u.subs[i]) && u.subs[i].handle == h;
    } else if j :| j in s.subs && Holds(s.subs[j]) && s.subs[j].handle == h {
      assert Holds(u.subs[j]) && u.subs[j].handle == h;
    } else if c :| c in s.dogs && s.dogs[c].Redialed? && s.dogs[c].handle == h {
      assert u.dogs[c] == s.dogs[c];
    }
  }

  /** A move that leaves handles and watchdogs alone. */
  lemma OwnedByFrame(s: Sys, i: nat, u: Sys)
    requires AllOwned(s) && i in s.subs && !Holds(s.subs[i]) && OthersSame(s, i, u)
    requires u.dropped == s.dropped && u.cell.stop == s.cell.stop && u.dogs == s.dogs && u.nextHandle == s.nextHandle
    requires Owners(s) && (i in u.subs ==> !Holds(u.subs[i]))
    ensures Owners(u) && AllOwned(u)
  {
    assert forall h :: InHand(u, h) <==> InHand(s, h);
    forall h: Handle | h < u.nextHandle
      ensures Owned(u, h)
    {
      assert Owned(s, h);
      if j :| j in s.subs && Holds(s.subs[j]) && s.subs[j].handle == h {
        assert j in u.subs && u.subs[j] == s.subs[j];
      }
    }
  }

  lemma TimersByLocal(s: Sys, i: nat)
    requires Timers(s) && i in s.subs && Local(s.subs[i])
    ensures Timers(LocalStep(s, i))
  {
    DetsAppend(s.queue, Attached);
    DetsAppend(s.queue, Detached);
    var u := LocalStep(s, i);
    if !s.subs[i].Live? && !s.subs[i].Leaving? {
      assert i in u.subs && !u.subs[i].Counted?;
    }
  }

  /** A move that leaves timers and queue alone. */
  lemma TimersByFrame(s: Sys, i: nat, u: Sys)
    requires Timers(s) && i in s.subs && !Local(s.subs[i])
    requires u.timers == s.timers && u.idleTimer == s.idleTimer && u.queue == s.queue
    requires i in u.subs && !u.subs[i].Counted? && (u.cell.state.Idle? || i in u.subs)
    requires OthersSame(s, i, u)
    ensures Timers(u)
  {
    assert forall t: nat :: Stoppable(u, t) <==> Stoppable(s, t);
    assert i in s.subs && !s.subs[i].Counted?;
  }

  // ---- moves of a watchdog ----

  /** Between its publications a watchdog moves nothing but itself. */
  lemma DogWaits(s: Sys, c: Chan, ok: bool)
    requires c in s.dogs && !s.dogs[c].Redialed?
    ensures var u := DogStep(s, c, ok);
      u == s.(dogs := u.dogs, nextHandle := u.nextHandle) && u.dogs.Keys <= s.dogs.Keys
  {
  }

  /** And the most it does to the session is to replace its stop handle. */
  lemma DogPublishes(s: Sys, c: Chan, ok: bool)
    requires c in s.dogs && s.dogs[c].Redialed?
    requires s.lock.Free? && s.cell.rtpTx.Some? ==> s.cell.state.Streaming? && s.cell.stop.Some?
    ensures var u := DogStep(s, c, ok);
      && u == s.(cell := s.cell.(stop := u.cell.stop), watch := u.watch, dogs := u.dogs, dropped := u.dropped)
      && (u.watch == s.watch || (u.watch == Streaming && u.cell.state == Streaming))
      && (u.cell.stop.Some? <==> s.cell.stop.Some?) && u.dogs.Keys <= s.dogs.Keys
  {
  }

  lemma AllByFrame(s: Sys, u: Sys)
    requires Viewers(s) && Ids(s) && Session(s) && Tasks(s) && Progress(s) && Timers(s)
    requires u.subs == s.subs && u.queue == s.queue && u.count == s.count && u.lock == s.lock
    requires u.watch == s.watch || (u.watch == Streaming && u.cell.state == Streaming)
    requires u.timers == s.timers && u.idleTimer == s.idleTimer && u.cell == s.cell.(stop := u.cell.stop)
    requires u.cell.stop.Some? <==> s.cell.stop.Some?
    requires u.nextSub == s.nextSub && u.nextChan == s.nextChan && u.nextTimer == s.nextTimer
    requires u.dogs.Keys <= s.dogs.Keys
    ensures Viewers(u) && Ids(u) && Session(u) && Tasks(u) && Progress(u) && Timers(u)
  {
    forall c | c in u.dogs
      ensures c < u.nextChan
    {
      assert c in s.dogs.Keys;
    }
  }

  lemma OwnersByDog(s: Sys, c: Chan, ok: bool)
    requires Owners(s) && c in s.dogs && !s.dogs[c].Redialed? && !s.dogs[c].Redialing?
    ensures Owners(DogStep(s, c, ok))
  {
    var u := DogStep(s, c, ok);
    assert u.cell == s.cell && u.dropped == s.dropped && u.subs == s.subs && u.nextHandle == s.nextHandle;
    assert forall d :: d in u.dogs && u.dogs[d].Redialed? ==> d in s.dogs && u.dogs[d] == s.dogs[d];
  }

  lemma OwnersByDogDial(s: Sys, c: Chan, ok: bool)
    requires Owners(s) && c in s.dogs && s.dogs[c].Redialing?
    ensures Owners(DogStep(s, c, ok))
  {
  }

  lemma OwnersByDogPublish(s: Sys, c: Chan, ok: bool)
    requires Owners(s) && c in s.dogs && s.dogs[c].Redialed?
    ensures Owners(DogStep(s, c, ok))
  {
  }

  lemma OwnedByDog(s: Sys, c: Chan, ok: bool, h: Handle)
    requires c in s.dogs && !s.dogs[c].Redialed? && Owned(s, h)
    ensures Owned(DogStep(s, c, ok), h)
  {
    DogWaits(s, c, ok);
    var u := DogStep(s, c, ok);
    if d :| d in s.dogs && s.dogs[d].Redialed? && s.dogs[d].handle == h {
      assert d in u.dogs && u.dogs[d] == s.dogs[d];
    }
  }

  lemma OwnedByDogDial(s: Sys, c: Chan, ok: bool)
    requires c in s.dogs && s.dogs[c].Redialing? && DogStep(s, c, ok).nextHandle > s.nextHandle
    ensures Owned(DogStep(s, c, ok), s.nextHandle) && DogStep(s, c, ok).nextHandle == s.nextHandle + 1
  {
    var u := DogStep(s, c, ok);
    assert u.dogs[c] == Redialed(s.nextHandle);
  }

  lemma OwnedByDogPublish(s: Sys, c: Chan, ok: bool, h: Handle)
    requires c in s.dogs && s.dogs[c].Redialed? && Owned(s, h)
    ensures Owned(DogStep(s, c, ok), h)
  {
    var u := DogStep(s, c, ok);
    assert u.subs == s.subs;
    if d :| d in s.dogs && d != c && s.dogs[d].Redialed? && s.dogs[d].handle == h {
      assert d in u.dogs && u.dogs[d] == s.dogs[d];
    }
  }

  // ---- moves of an idle timer ----

  /** Until it tears down, a timer moves nothing but itself and the lock. */
  lemma TimerFrame(s: Sys, t: nat)
    requires t in s.timers && !s.timers[t].Holding?
    ensures var u := TimerStep(s, t);
      && u == s.(lock := u.lock, timers := u.timers)
      && (forall r :: r != t ==> (r in u.timers <==> r in s.timers))
      && (forall r :: r in s.timers && r != t ==> u.timers[r] == s.timers[r])
  {
  }

  lemma OwnersKept(s: Sys, u: Sys)
    requires Owners(s) && AllOwned(s)
    requires u.subs == s.subs && u.cell == s.cell && u.dogs == s.dogs && u.dropped == s.dropped && u.nextHandle == s.nextHandle
    ensures Owners(u) && AllOwned(u)
  {
    forall h: Handle | h < u.nextHandle
      ensures Owned(u, h)
    {
      assert Owned(s, h);
    }
  }

  lemma SessionByWaking(s: Sys, t: nat)
    requires Session(s) && t in s.timers && !PastLock(s, t)
    ensures Session(TimerStep(s, t))
  {
    var u := TimerStep(s, t);
    TimerFrame(s, t);
    if u.lock == s.lock {
      assert forall r :: PastLock(u, r) <==> PastLock(s, r);
    } else {
      assert s.lock.Free? && u.lock == HeldByTimer(t) && u.timers[t].Locked?;
      assert forall r :: PastLock(u, r) ==> r == t || PastLock(s, r);
    }
  }

  lemma SessionByLocked(s: Sys, t: nat)
    requires Viewers(s) && Session(s) && Progress(s) && t in s.timers && s.timers[t].Locked?
    ensures Session(TimerStep(s, t))
  {
    var u := TimerStep(s, t);
    TimerFrame(s, t);
    assert PastLock(s, t) && Settled(s);
    assert forall r :: PastLock(u, r) ==> PastLock(s, r);
    if s.count <= 0 { NoViewers(s); }
  }

  lemma SessionByTearDown(s: Sys, t: nat)
    requires Session(s) && t in s.timers && s.timers[t].Holding?
    ensures Session(TimerStep(s, t))
  {
    var u := TimerStep(s, t);
    assert PastLock(s, t);
    assert forall r :: PastLock(u, r) ==> PastLock(s, r);
  }

  lemma TasksByWaking(s: Sys, t: nat)
    requires Session(s) && Tasks(s) && t in s.timers && !s.timers[t].Holding? && !s.timers[t].Locked?
    ensures Tasks(TimerStep(s, t))
  {
    TimerFrame(s, t);
    var u := TimerStep(s, t);
    forall i | i in u.subs
      ensures ViewerTask(u.cell, u.lock, TearingDown(u), i, u.subs[i])
    {
      assert ViewerTask(s.cell, s.lock, TearingDown(s), i, s.subs[i]);
    }
  }

  lemma TasksByLocked(s: Sys, t: nat)
    requires Viewers(s) && Session(s) && Tasks(s) && t in s.timers && s.timers[t].Locked?
    ensures Tasks(TimerStep(s, t))
  {
    TimerFrame(s, t);
    assert PastLock(s, t);
    if s.count <= 0 { NoViewers(s); }
    var u := TimerStep(s, t);
    forall i | i in u.subs
      ensures ViewerTask(u.cell, u.lock, TearingDown(u), i, u.subs[i])
    {
      assert ViewerTask(s.cell, s.lock, TearingDown(s), i, s.subs[i]);
    }
  }

  lemma TasksByTearDown(s: Sys, t: nat)
    requires Session(s) && Tasks(s) && t in s.timers && s.timers[t].Holding?
    ensures Tasks(TimerStep(s, t))
  {
    assert PastLock(s, t) && TearingDown(s);
    forall i | i in s.subs
      ensures Early(s.subs[i]) && !s.subs[i].Installing?
    {
      assert ViewerTask(s.cell, s.lock, TearingDown(s), i, s.subs[i]);
    }
  }

  lemma TimersByWaking(s: Sys, t: nat)
    requires Timers(s) && t in s.timers && !PastLock(s, t)
    ensures Timers(TimerStep(s, t))
  {
    var u := TimerStep(s, t);
    TimerFrame(s, t);
    assert forall r: nat :: Stoppable(u, r) ==> Stoppable(s, r);
    if r :| r in s.timers && !WasAborted(s.timers[r]) {
      assert r in u.timers && !WasAborted(u.timers[r]);
    }
  }

  lemma TimersByLocked(s: Sys, t: nat)
    requires Viewers(s) && Timers(s) && t in s.timers && s.timers[t].Locked?
    ensures Timers(TimerStep(s, t))
  {
    var u := TimerStep(s, t);
    TimerFrame(s, t);
    assert forall r: nat :: Stoppable(u, r) <==> Stoppable(s, r);
    if t in u.timers { assert !WasAborted(u.timers[t]); }
  }

  lemma TimersByTearDown(s: Sys, t: nat)
    requires Timers(s) && t in s.timers && s.timers[t].Holding?
    ensures Timers(TimerStep(s, t))
  {
    var u := TimerStep(s, t);
    assert forall r: nat :: Stoppable(u, r) <==> Stoppable(s, r);
  }

  lemma ProgressByTearDown(s: Sys, t: nat)
    requires Ids(s) && Progress(s) && t in s.timers && s.timers[t].Holding?
    ensures Ids(TimerStep(s, t)) && Progress(TimerStep(s, t))
  {
  }

  lemma OwnersByTearDown(s: Sys, t: nat)
    requires Owners(s) && t in s.timers && s.timers[t].Holding?
    ensures Owners(TimerStep(s, t))
  {
  }

  lemma OwnedByTearDown(s: Sys, t: nat, h: Handle)
    requires t in s.timers && s.timers[t].Holding? && Owned(s, h)
    ensures Owned(TimerStep(s, t), h)
  {
  }

  // ---- the event loop and new viewers ----

  lemma AbortFrame(timers: map<nat, Timer>, t: nat)
    ensures forall r :: r in Abort(timers, t) ==> r in timers
    ensures forall r :: r in timers && (r != t || timers[r].Locked? || timers[r].Holding?) ==>
      r in Abort(timers, t) && Abort(timers, t)[r] == timers[r]
    ensures t in Abort(timers, t) ==>
      WasAborted(Abort(timers, t)[t]) || (Abort(timers, t)[t] == timers[t] && (timers[t].Locked? || timers[t].Holding?))
  {
  }

  lemma LoopFrame(s: Sys)
    requires Ids(s) && s.queue != []
    ensures var u := LoopStep(s);
      && u == s.(queue := s.queue[1..], count := u.count, idleTimer := u.idleTimer, timers := u.timers, nextTimer := u.nextTimer)
      && (forall t :: t in s.timers && PastLock(s, t) ==> t in u.timers && u.timers[t] == s.timers[t])
      && (forall t :: PastLock(u, t) <==> PastLock(s, t))
  {
    if s.idleTimer.Some? { AbortFrame(s.timers, s.idleTimer.value); }
  }

  lemma ViewersByLoop(s: Sys)
    requires Viewers(s) && s.queue != []
    ensures Viewers(LoopStep(s))
  {
  }

  lemma IdsByAttached(s: Sys)
    requires Ids(s) && s.queue != [] && s.queue[0].Attached?
    ensures Ids(LoopStep(s))
  {
    if s.idleTimer.Some? { AbortFrame(s.timers, s.idleTimer.value); }
  }

  lemma IdsByDetached(s: Sys)
    requires Ids(s) && s.queue != [] && s.queue[0].Detached?
    ensures Ids(LoopStep(s))
  {
  }

  lemma SessionByFrame(s: Sys, u: Sys)
    requires Session(s) && Tasks(s) && Progress(s)
    requires u.subs == s.subs && u.cell == s.cell && u.lock == s.lock && u.watch == s.watch
    requires forall t :: PastLock(s, t) ==> t in u.timers && u.timers[t] == s.timers[t]
    requires forall t :: PastLock(u, t) <==> PastLock(s, t)
    ensures Session(u) && Tasks(u) && Progress(u)
  {
    assert TearingDown(u) == TearingDown(s) && Settled(u) == Settled(s);
  }

  lemma QueueWithoutViewers(s: Sys)
    requires Timers(s) && s.subs == map[] && Dets(s.queue) == 0
    ensures s.queue == []
  {
    if s.queue != [] && s.queue[|s.queue| - 1].Detached? { DetsOfLast(s.queue); }
  }

  lemma TimersByAttached(s: Sys)
    requires Timers(s) && s.queue != [] && s.queue[0].Attached?
    ensures Timers(LoopStep(s))
  {
    if s.subs == map[] && Dets(s.queue) == 0 { QueueWithoutViewers(s); }
  }

  lemma TimersByDetached(s: Sys)
    requires Viewers(s) && Ids(s) && Timers(s) && s.queue != [] && s.queue[0].Detached?
    ensures Timers(LoopStep(s))
  {
    var rest := s.(count := s.count - 1, queue := s.queue[1..]);
    if rest.count <= 0 {
      NoViewers(rest);
      if rest.queue != [] && rest.queue[|rest.queue| - 1].Detached? { DetsOfLast(rest.queue); }
      assert rest.queue == [];
      assert s.nextTimer in LoopStep(s).timers;
    }
  }

  lemma SessionByArrival(s: Sys)
    requires Viewers(s) && Ids(s) && Session(s)
    ensures var u := ArriveStep(s); Viewers(u) && Ids(u) && Session(u)
  {
    SizeAdded(s.subs, s.nextSub, Counted);
  }

  lemma TasksByArrival(s: Sys)
    requires Ids(s) && Tasks(s)
    ensures Tasks(ArriveStep(s))
  {
  }

  lemma OwnersByArrival(s: Sys)
    requires Ids(s) && Progress(s) && Owners(s) && AllOwned(s) && Timers(s)
    ensures var u := ArriveStep(s); Progress(u) && Owners(u) && AllOwned(u) && Timers(u)
  {
    var u := ArriveStep(s);
    assert forall i :: i in s.subs ==> i in u.subs && u.subs[i] == s.subs[i];
    forall h: Handle | h < u.nextHandle
      ensures Owned(u, h)
    {
      assert Owned(s, h);
    }
  }

  // ---- every move keeps the invariant ----

  lemma LocalFrame(s: Sys, i: nat)
    requires i in s.subs && Local(s.subs[i])
    ensures var u := LocalStep(s, i);
      && OthersSame(s, i, u) && u.cell == s.cell
      && u.dropped == s.dropped && u.dogs == s.dogs && u.nextHandle == s.nextHandle
      && (i in u.subs ==> !Holds(u.subs[i]))
  {
  }

  lemma ProgressByLocal(s: Sys, i: nat)
    requires Progress(s) && Owners(s) && AllOwned(s) && i in s.subs && Local(s.subs[i])
    ensures Progress(LocalStep(s, i)) && Owners(LocalStep(s, i)) && AllOwned(LocalStep(s, i))
  {
    LocalFrame(s, i);
    ProgressByViewer(s, i, LocalStep(s, i));
    OwnedByFrame(s, i, LocalStep(s, i));
  }

  lemma InvByLocal(s: Sys, i: nat)
    requires Inv(s) && i in s.subs && Local(s.subs[i])
    ensures Inv(LocalStep(s, i))
  {
    SessionByLocal(s, i);
    ViewersByLocal(s, i);
    IdsByLocal(s, i);
    TasksByLocal(s, i);
    TimersByLocal(s, i);
    ProgressByLocal(s, i);
  }

  lemma LookFrame(s: Sys, i: nat, ok: bool)
    requires i in s.subs && Looking(s.subs[i])
    ensures var u := LookStep(s, i, ok);
      u == s.(cell := s.cell.(state := u.cell.state), watch := u.watch, subs := u.subs, nextChan := u.nextChan)
  {
  }

  lemma LookMoves(s: Sys, i: nat, ok: bool)
    requires i in s.subs && Looking(s.subs[i])
    ensures var u := LookStep(s, i, ok);
      && OthersSame(s, i, u) && i in u.subs && !u.subs[i].Counted? && !Holds(u.subs[i])
      && (u.cell.state.Connecting? ==> s.cell.state.Connecting? || FirstConnect(u.subs[i]))
  {
  }

  lemma ProgressByLooking(s: Sys, i: nat, ok: bool)
    requires Progress(s) && Owners(s) && AllOwned(s) && Timers(s) && i in s.subs && Looking(s.subs[i])
    ensures var u := LookStep(s, i, ok); Progress(u) && Owners(u) && AllOwned(u) && Timers(u)
  {
    var u := LookStep(s, i, ok);
    LookFrame(s, i, ok);
    LookMoves(s, i, ok);
    ProgressByViewer(s, i, u);
    OwnedByFrame(s, i, u);
    TimersByFrame(s, i, u);
  }

  lemma InvByLooking(s: Sys, i: nat, ok: bool)
    requires Inv(s) && i in s.subs && Looking(s.subs[i])
    ensures Inv(LookStep(s, i, ok))
  {
    ViewersByLooking(s, i, ok);
    if s.subs[i].Entering? {
      SessionByEntering(s, i, ok);
      IdsByEntering(s, i, ok);
      TasksByEntering(s, i, ok);
    } else {
      SessionByLooking(s, i, ok);
      IdsByLooking(s, i, ok);
      if s.subs[i].Waiting? { TasksByWaiting(s, i, ok); } else { TasksByAttaching(s, i, ok); }
    }
    ProgressByLooking(s, i, ok);
  }

  lemma ConnectFrame(s: Sys, i: nat, ok: bool, p: Params)
    requires i in s.subs && Connector(s.subs[i])
    ensures var u := ConnectStep(s, i, ok, p);
      && OthersSame(s, i, u) && i in u.subs && !u.subs[i].Counted?
      && u.timers == s.timers && u.idleTimer == s.idleTimer && u.queue == s.queue
      && (u.cell.state.Connecting? ==> s.cell.state.Connecting? && (FirstConnect(s.subs[i]) ==> FirstConnect(u.subs[i])))
  {
  }

  lemma ProgressByConnector(s: Sys, i: nat, ok: bool, p: Params)
    requires Progress(s) && Timers(s) && i in s.subs && Connector(s.subs[i])
    ensures var u := ConnectStep(s, i, ok, p); Progress(u) && Timers(u)
  {
    var u := ConnectStep(s, i, ok, p);
    ConnectFrame(s, i, ok, p);
    ProgressByViewer(s, i, u);
    TimersByFrame(s, i, u);
  }

  lemma OwnersByConnect(s: Sys, i: nat, ok: bool, p: Params)
    requires Inv(s) && i in s.subs && Connector(s.subs[i])
    ensures var u := ConnectStep(s, i, ok, p); Owners(u) && AllOwned(u)
  {
    if s.subs[i].Installing? {
      OwnersByInstalling(s, i, ok, p);
    } else {
      OwnersByConnector(s, i, ok, p);
    }
    forall h: Handle | h < ConnectStep(s, i, ok, p).nextHandle
      ensures Owned(ConnectStep(s, i, ok, p), h)
    {
      if s.subs[i].Installing? { OwnedByInstalling(s, i, ok, p, h); } else { OwnedByConnector(s, i, ok, p, h); }
    }
  }

  lemma InvByConnector(s: Sys, i: nat, ok: bool, p: Params)
    requires Inv(s) && i in s.subs && Connector(s.subs[i])
    ensures Inv(ConnectStep(s, i, ok, p))
  {
    SessionByConnector(s, i, ok, p);
    ViewersByConnector(s, i, ok, p);
    if s.subs[i].Dialed? || s.subs[i].Installing? {
      TasksByInstalling(s, i, ok, p);
    } else {
      TasksByConnector(s, i, ok, p);
    }
    ProgressByConnector(s, i, ok, p);
    OwnersByConnect(s, i, ok, p);
    if s.subs[i].Spawning? {
      IdsBySpawning(s, i, ok, p);
    } else {
      IdsByConnector(s, i, ok, p);
    }
  }

  lemma InvByViewer(s: Sys, i: nat, ok: bool, p: Params)
    requires Inv(s) && i in s.subs
    ensures Inv(ViewerStep(s, i, ok, p))
  {
    if Looking(s.subs[i]) {
      InvByLooking(s, i, ok);
    } else if Connector(s.subs[i]) {
      InvByConnector(s, i, ok, p);
    } else {
      InvByLocal(s, i);
    }
  }

  lemma AllOwnedByDog(s: Sys, c: Chan, ok: bool)
    requires AllOwned(s) && c in s.dogs
    ensures AllOwned(DogStep(s, c, ok))
  {
    var u := DogStep(s, c, ok);
    if u.nextHandle > s.nextHandle { OwnedByDogDial(s, c, ok); }
    forall h: Handle | h < u.nextHandle
      ensures Owned(u, h)
    {
      if h < s.nextHandle {
        if s.dogs[c].Redialed? { OwnedByDogPublish(s, c, ok, h); } else { OwnedByDog(s, c, ok, h); }
      }
    }
  }

  lemma InvByDog(s: Sys, c: Chan, ok: bool)
    requires Inv(s) && c in s.dogs
    ensures Inv(DogStep(s, c, ok))
  {
    if s.dogs[c].Redialed? {
      DogPublishes(s, c, ok);
      OwnersByDogPublish(s, c, ok);
    } else {
      DogWaits(s, c, ok);
      if s.dogs[c].Redialing? { OwnersByDogDial(s, c, ok); } else { OwnersByDog(s, c, ok); }
    }
    AllByFrame(s, DogStep(s, c, ok));
    AllOwnedByDog(s, c, ok);
  }

  lemma InvByTearDown(s: Sys, t: nat)
    requires Inv(s) && t in s.timers && s.timers[t].Holding?
    ensures Inv(TimerStep(s, t))
  {
    var u := TimerStep(s, t);
    SessionByTearDown(s, t);
    TasksByTearDown(s, t);
    ProgressByTearDown(s, t);
    TimersByTearDown(s, t);
    OwnersByTearDown(s, t);
    forall h: Handle | h < u.nextHandle
      ensures Owned(u, h)
    {
      OwnedByTearDown(s, t, h);
    }
  }

  lemma InvByTimer(s: Sys, t: nat)
    requires Inv(s) && t in s.timers
    ensures Inv(TimerStep(s, t))
  {
    if s.timers[t].Holding? {
      InvByTearDown(s, t);
    } else {
      TimerFrame(s, t);
      OwnersKept(s, TimerStep(s, t));
      if s.timers[t].Locked? {
        SessionByLocked(s, t);
        TasksByLocked(s, t);
        TimersByLocked(s, t);
      } else {
        SessionByWaking(s, t);
        TasksByWaking(s, t);
        TimersByWaking(s, t);
      }
    }
  }

  lemma InvByLoop(s: Sys)
    requires Inv(s) && s.queue != []
    ensures Inv(LoopStep(s))
  {
    LoopFrame(s);
    ViewersByLoop(s);
    SessionByFrame(s, LoopStep(s));
    OwnersKept(s, LoopStep(s));
    if s.queue[0].Attached? {
      IdsByAttached(s);
      TimersByAttached(s);
    } else {
      IdsByDetached(s);
      TimersByDetached(s);
    }
  }

  lemma InvByArrival(s: Sys)
    requires Inv(s)
    ensures Inv(ArriveStep(s))
  {
    SessionByArrival(s);
    TasksByArrival(s);
    OwnersByArrival(s);
  }

  lemma InvByWatch(s: Sys, on: bool)
    requires Inv(s)
    ensures Inv(s.(watcher := on))
  {
    OwnersKept(s, s.(watcher := on));
  }

  lemma InvStep(s: Sys, a: Action)
    requires Inv(s)
    ensures Inv(Step(s, a))
  {
    if a.Arrive? {
      InvByArrival(s);
    } else if a.Watch? {
      InvByWatch(s, a.on);
    } else if a.MoveViewer? && a.i in s.subs {
      InvByViewer(s, a.i, a.ok, a.params);
    } else if a.MoveDog? && a.c in s.dogs {
      InvByDog(s, a.c, a.ok);
    } else if a.MoveTimer? && a.t in s.timers {
      InvByTimer(s, a.t);
    } else if a.MoveLoop? && s.queue != [] {
      InvByLoop(s);
    } else {
      assert Step(s, a) == s;
    }
  }

  /** Whatever the schedule and whatever the camera answers, the invariant holds. */
  lemma {:induction false} InvExec(s: Sys, acts: seq<Action>)
    requires Inv(s)
    ensures Inv(Exec(s, acts))
    decreases |acts|
  {
    if acts == [] {
    } else {
      InvStep(s, acts[0]);
      InvExec(Step(s, acts[0]), acts[1..]);
    }
  }
}
