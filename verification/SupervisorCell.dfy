/** The supervisor's shared fields as the tasks rewrite them in place. Every critical
    section is a method, and its contract says that it does to the fields what the
    corresponding move of the transition system does to the cell. */
module SupervisorCell {
  import opened Wrappers
  import opened Supervisor

  function One(h: Option<Handle>): set<Handle> {
    if h.Some? then {h.value} else {}
  }

  class SessionState {
    var state: State
    var rtpTx: Option<Chan>
    var stop: Option<Handle>
    var h264: Option<Params>

    function View(): Cell
      reads this
    {
      Cell(state, rtpTx, stop, h264)
    }

    constructor ()
      ensures View() == EmptyCell()
    {
      state, rtpTx, stop, h264 := Idle, None, None, None;
    }

    /** The first critical section of `subscribe`. */
    method Enter(budgetAllows: bool) returns (next: State, refused: bool)
      modifies this
      ensures next == old(state) && refused == (old(state).Idle? && !budgetAllows)
      ensures forall s: Sys, i: nat, p: Params {:trigger ViewerStep(s, i, budgetAllows, p)} ::
                i in s.subs && s.subs[i].Entering? && s.lock.Free? && s.cell == old(View()) ==>
                  ViewerStep(s, i, budgetAllows, p).cell == View()
    {
      next, refused := state, false;
      if state.Idle? {
        if budgetAllows {
          state := Connecting;
        } else {
          refused := true;
        }
      }
    }

    /** After a failed first connect. */
    method RollBack() returns (sent: bool)
      modifies this
      ensures sent == old(state).Connecting?
      ensures forall s: Sys, i: nat, ok: bool, p: Params {:trigger ViewerStep(s, i, ok, p)} ::
                i in s.subs && s.subs[i].DialFailed? && s.lock.Free? && s.cell == old(View()) ==>
                  ViewerStep(s, i, ok, p).cell == View()
    {
      sent := state.Connecting?;
      if sent {
        state := Idle;
      }
    }

    /** After a successful first connect; `replaced` is the handle the assignment drops. */
    method Publish(chan: Chan, handle: Handle, params: Params) returns (replaced: Option<Handle>)
      modifies this
      ensures replaced == old(stop)
      ensures forall s: Sys, i: nat, ok: bool, p: Params {:trigger ViewerStep(s, i, ok, p)} ::
                i in s.subs && s.subs[i] == Dialed(chan, handle, params) && s.lock.Free? && s.cell == old(View()) ==>
                  var u := ViewerStep(s, i, ok, p);
                  && ViewerStep(u, i, ok, p).cell == View()
                  && ViewerStep(u, i, ok, p).dropped == s.dropped + One(replaced)
    {
      state := Streaming;
      rtpTx := Some(chan);
      replaced := stop;
      stop := Some(handle);
      if h264.None? {
        h264 := Some(params);
      }
    }

    /** What a viewer reads once a session exists; None where an `expect` would fail. */
    method Attach() returns (r: Option<(Chan, Params)>)
      ensures forall s: Sys, i: nat, ok: bool, p: Params {:trigger ViewerStep(s, i, ok, p)} ::
                i in s.subs && s.subs[i].Attaching? && s.lock.Free? && s.cell == View() ==>
                  ViewerStep(s, i, ok, p).subs[i] == if r.Some? then Live(r.value.0, r.value.1) else Panicked
    {
      if h264.Some? && rtpTx.Some? {
        r := Some((rtpTx.value, h264.value));
      } else {
        r := None;
      }
    }

    /** The watchdog's section after a reconnect; `gone` is the handle that is dropped. */
    method Republish(chan: Chan, handle: Handle) returns (current: bool, gone: Option<Handle>)
      modifies this
      ensures current == (old(rtpTx) == Some(chan))
      ensures forall s: Sys, ok: bool {:trigger DogStep(s, chan, ok)} ::
                chan in s.dogs && s.dogs[chan] == Redialed(handle) && s.lock.Free? && s.cell == old(View()) ==>
                  && DogStep(s, chan, ok).cell == View()
                  && DogStep(s, chan, ok).dropped == s.dropped + One(gone)
                  && (chan in DogStep(s, chan, ok).dogs <==> current)
    {
      current := rtpTx == Some(chan);
      if current {
        gone := stop;
        stop := Some(handle);
        state := Streaming;
      } else {
        gone := Some(handle);
      }
    }

    /** The idle timer's section, given the viewer count it loads inside the lock. */
    method TearDown(count: int) returns (torn: bool, gone: Option<Handle>)
      modifies this
      ensures forall s: Sys, t: nat {:trigger TimerStep(s, t)} ::
                t in s.timers && s.timers[t].Locked? && s.lock == HeldByTimer(t)
                && s.cell == old(View()) && s.count == count ==>
                  var u := TimerStep(s, t);
                  && torn == (t in u.timers)
                  && (torn ==> TimerStep(u, t).cell == View())
                  && (torn ==> TimerStep(u, t).dropped == s.dropped + One(gone))
                  && (!torn ==> u.cell == View() && gone.None?)
    {
      torn, gone := false, None;
      if count > 0 {
        return;
      }
      if state.Streaming? || state.Connecting? {
        torn, gone := true, stop;
        stop := None;
        rtpTx := None;
        state := Idle;
        h264 := None;
      }
    }
  }

  /** The event loop with its variable and the count it owns the decrements of. */
  class ViewerLoop {
    var count: int
    var idleTimer: Option<nat>
    var nextTimer: nat

    constructor ()
      ensures count == 0 && idleTimer == None && nextTimer == 0
    {
      count, idleTimer, nextTimer := 0, None, 0;
    }

    /** Handles one event: which timer it aborts, which one it starts. */
    method Handle(ev: Event) returns (aborted: Option<nat>, started: Option<nat>)
      modifies this
      ensures aborted == if ev.Attached? then old(idleTimer) else None
      ensures forall s: Sys {:trigger LoopStep(s)} ::
                s.queue != [] && s.queue[0] == ev && s.count == old(count)
                && s.idleTimer == old(idleTimer) && s.nextTimer == old(nextTimer) ==>
                  var u := LoopStep(s);
                  && u.count == count && u.idleTimer == idleTimer && u.nextTimer == nextTimer
                  && u.timers == (if aborted.Some? then Abort(s.timers, aborted.value) else s.timers)
                                 + (if started.Some? then map[started.value := Armed] else map[])
    {
      aborted, started := None, None;
      match ev {
        case Attached =>
          aborted, idleTimer := idleTimer, None;
        case Detached =>
          count := count - 1;
          if count <= 0 {
            started, idleTimer := Some(nextTimer), Some(nextTimer);
            nextTimer := nextTimer + 1;
          }
      }
    }
  }
}
