/** The stream supervisor as a transition system.
    A state holds everything the tasks share (session cell, lock, state watch, viewer
    count, event queue, idle-timer handle) and the program counter of every task: the
    `subscribe` calls, one watchdog per session and the idle timers. An action is one
    region between two lock or await points of one task. */
module Supervisor {
  import opened Wrappers

  type Chan = nat    // identity of a broadcast channel
  type Handle = nat  // identity of a StopHandle
  type Params = nat  // negotiated H.264 parameters, only ever copied

  datatype State = Idle | Connecting | Streaming

  datatype Event = Attached | Detached

  /** The fields behind the state mutex. */
  datatype Cell = Cell(state: State, rtpTx: Option<Chan>, stop: Option<Handle>, h264: Option<Params>)

  /** Who is inside the state mutex between two actions. All other critical sections
      touch at most one thing other tasks can see in the meantime and are a single action. */
  datatype Lock = Free | HeldBySub(sub: nat) | HeldByTimer(timer: nat)

  /** Where a viewer is: inside `subscribe`, holding its `Subscription`, or leaving. */
  datatype Sub =
    | Counted                                        // viewer_count incremented
    | Entering                                       // Attached sent, wants the lock
    | Joining                                        // saw Connecting, not yet on the watch
    | Waiting                                        // reading the state watch
    | Dialing(chan: Chan)                            // first connect in flight
    | Dialed(chan: Chan, handle: Handle, params: Params)
    | DialFailed
    | Installing(chan: Chan, handle: Handle, params: Params) // lock held, Streaming published
    | Spawning(chan: Chan, handle: Handle)           // lock released, watchdog not spawned
    | Attaching                                      // wants the lock to read the session
    | Live(chan: Chan, params: Params)               // holds a Subscription
    | Leaving                                        // owes a Detached event
    | Panicked                                       // an `expect` failed

  /** Where the reconnect watchdog of a channel is. */
  datatype Dog =
    | AwaitEnd(handle: Handle)
    | SawEnd
    | Sleeping
    | Woken
    | Checked
    | Redialing
    | Redialed(handle: Handle)

  /** Where an idle timer is. `abort` removes a suspended task; one that a worker thread is
      running goes on to its next suspension, and behind the lock there is none. */
  datatype Timer =
    | Armed                   // asleep
    | Running(aborted: bool)  // woken, not yet at the lock
    | Parked                  // suspended at the lock
    | Locked                  // has the lock, has not loaded the viewer count
    | Holding                 // has the lock and is going to tear down

  datatype Sys = Sys(
    watcher: bool,            // a receiver of the state watch exists besides waiting viewers
    cell: Cell,
    lock: Lock,
    watch: State,
    count: int,
    queue: seq<Event>,
    idleTimer: Option<nat>,   // the event loop's variable
    subs: map<nat, Sub>,
    dogs: map<Chan, Dog>,
    timers: map<nat, Timer>,
    dropped: set<Handle>,     // handles whose Drop has run
    nextSub: nat,
    nextChan: Chan,
    nextHandle: Handle,
    nextTimer: nat)

  function EmptyCell(): Cell { Cell(Idle, None, None, None) }

  function Init(): Sys {
    Sys(false, EmptyCell(), Free, Idle, 0, [], None, map[], map[], map[], {}, 0, 0, 0, 0)
  }

  /** A scheduling choice. Which region a task runs next follows from where it is; `ok`
      and `params` are what the outside answers: whether the reconnect budget allows an
      attempt, whether a connect succeeded and with which parameters, whether a session
      ended on its own (and was not torn down), whether the auth flag is clear. `Watch`
      is a receiver of the state watch coming or going. */
  datatype Action =
    | Arrive
    | MoveViewer(i: nat, ok: bool, params: Params)
    | MoveDog(c: Chan, ok: bool)
    | MoveTimer(t: nat)
    | MoveLoop
    | Watch(on: bool)

  /** tokio's watch `send`: without a receiver the value stays as it was. */
  function Send(s: Sys, v: State): State {
    if s.watcher || exists i :: i in s.subs && s.subs[i].Waiting? then v else s.watch
  }

  /** Assigning `stop` drops the handle it held. */
  function DropStop(s: Sys): set<Handle> {
    if s.cell.stop.Some? then s.dropped + {s.cell.stop.value} else s.dropped
  }

  // What the critical sections do to the cell.

  function RolledBack(c: Cell): Cell {
    if c.state.Connecting? then c.(state := Idle) else c
  }

  function Installed(c: Cell, chan: Chan, h: Handle, p: Params): Cell {
    c.(rtpTx := Some(chan), stop := Some(h), h264 := if c.h264.Some? then c.h264 else Some(p))
  }

  function Republished(c: Cell, h: Handle): Cell {
    c.(stop := Some(h), state := Streaming)
  }

  /** `subscribe` begins: fetch_add on the viewer count. */
  function ArriveStep(s: Sys): Sys {
    s.(count := s.count + 1, subs := s.subs[s.nextSub := Counted], nextSub := s.nextSub + 1)
  }

  /** The viewer runs the first connect or publishes its result. */
  predicate Connector(v: Sub) { v.Dialing? || v.DialFailed? || v.Dialed? || v.Installing? || v.Spawning? }

  /** The viewer's next move looks at the session. */
  predicate Looking(v: Sub) { v.Entering? || v.Waiting? || v.Attaching? }

  predicate Local(v: Sub) { !Connector(v) && !Looking(v) }

  function LookStep(s: Sys, i: nat, ok: bool): Sys
    requires i in s.subs && Looking(s.subs[i])
  {
    match s.subs[i]
    case Entering =>
      if !s.lock.Free? then s
      else if s.cell.state.Streaming? then s.(subs := s.subs[i := Attaching])
      else if s.cell.state.Connecting? then s.(subs := s.subs[i := Joining])
      else if !ok then s.(subs := s.subs[i := Leaving])
      else s.(cell := s.cell.(state := Connecting), watch := Send(s, Connecting),
              subs := s.subs[i := Dialing(s.nextChan)], nextChan := s.nextChan + 1)
    case Waiting =>
      if s.watch.Streaming? then s.(subs := s.subs[i := Attaching])
      else if s.watch.Idle? then s.(subs := s.subs[i := Leaving])
      else s
    case Attaching =>
      if !s.lock.Free? then s
      else if s.cell.h264.Some? && s.cell.rtpTx.Some?
      then s.(subs := s.subs[i := Live(s.cell.rtpTx.value, s.cell.h264.value)])
      else s.(subs := s.subs[i := Panicked])
  }

  function ConnectStep(s: Sys, i: nat, ok: bool, p: Params): Sys
    requires i in s.subs && Connector(s.subs[i])
  {
    match s.subs[i]
    case Dialing(c) =>
      if ok then s.(subs := s.subs[i := Dialed(c, s.nextHandle, p)], nextHandle := s.nextHandle + 1)
      else s.(subs := s.subs[i := DialFailed])
    case DialFailed =>
      if !s.lock.Free? then s
      else s.(cell := RolledBack(s.cell), watch := if s.cell.state.Connecting? then Send(s, Idle) else s.watch,
              subs := s.subs[i := Leaving])
    case Dialed(c, h, q) =>
      if !s.lock.Free? then s
      else s.(lock := HeldBySub(i), cell := s.cell.(state := Streaming), watch := Send(s, Streaming),
              subs := s.subs[i := Installing(c, h, q)])
    case Installing(c, h, q) =>
      s.(lock := Free, cell := Installed(s.cell, c, h, q), dropped := DropStop(s), subs := s.subs[i := Spawning(c, h)])
    case Spawning(c, h) => s.(dogs := s.dogs[c := AwaitEnd(h)], subs := s.subs[i := Attaching])
  }

  function LocalStep(s: Sys, i: nat): Sys
    requires i in s.subs && Local(s.subs[i])
  {
    match s.subs[i]
    case Counted => s.(queue := s.queue + [Attached], subs := s.subs[i := Entering])
    case Joining => s.(subs := s.subs[i := Waiting])
    case Live(_, _) => s.(queue := s.queue + [Detached], subs := s.subs - {i})
    case Leaving => s.(queue := s.queue + [Detached], subs := s.subs - {i})
    case Panicked => s
  }

  function ViewerStep(s: Sys, i: nat, ok: bool, p: Params): Sys
    requires i in s.subs
  {
    if Looking(s.subs[i]) then LookStep(s, i, ok)
    else if Connector(s.subs[i]) then ConnectStep(s, i, ok, p)
    else LocalStep(s, i)
  }

  function DogStep(s: Sys, c: Chan, ok: bool): Sys
    requires c in s.dogs
  {
    match s.dogs[c]
    case AwaitEnd(_) => if ok then s.(dogs := s.dogs[c := SawEnd]) else s.(dogs := s.dogs - {c})
    case SawEnd => if s.count <= 0 then s.(dogs := s.dogs - {c}) else s.(dogs := s.dogs[c := Sleeping])
    case Sleeping =>
      if !s.lock.Free? then s
      else if s.cell.rtpTx != Some(c) then s.(dogs := s.dogs - {c})
      else s.(dogs := s.dogs[c := Woken])
    case Woken => if s.count <= 0 then s.(dogs := s.dogs - {c}) else s.(dogs := s.dogs[c := Checked])
    case Checked => if ok then s.(dogs := s.dogs[c := Redialing]) else s.(dogs := s.dogs - {c})
    case Redialing =>
      if ok then s.(dogs := s.dogs[c := Redialed(s.nextHandle)], nextHandle := s.nextHandle + 1)
      else s.(dogs := s.dogs[c := Sleeping])
    case Redialed(h) =>
      if !s.lock.Free? then s
      else if s.cell.rtpTx != Some(c) then s.(dropped := s.dropped + {h}, dogs := s.dogs - {c})
      else s.(cell := Republished(s.cell, h), watch := Send(s, Streaming), dropped := DropStop(s),
              dogs := s.dogs[c := AwaitEnd(h)])
  }

  function TimerStep(s: Sys, t: nat): Sys
    requires t in s.timers
  {
    match s.timers[t]
    case Armed => s.(timers := s.timers[t := Running(false)])
    case Running(aborted) =>
      if s.lock.Free? then s.(lock := HeldByTimer(t), timers := s.timers[t := Locked])
      else if aborted then s.(timers := s.timers - {t})
      else s.(timers := s.timers[t := Parked])
    case Parked =>
      if s.lock.Free? then s.(lock := HeldByTimer(t), timers := s.timers[t := Locked]) else s
    case Locked =>
      if s.count > 0 || s.cell.state.Idle? then s.(lock := Free, timers := s.timers - {t})
      else s.(timers := s.timers[t := Holding])
    case Holding =>
      s.(lock := Free, cell := EmptyCell(), watch := Send(s, Idle), dropped := DropStop(s), timers := s.timers - {t})
  }

  /** The timers after `abort` on timer `t`. */
  function Abort(timers: map<nat, Timer>, t: nat): map<nat, Timer> {
    if t !in timers then timers
    else match timers[t]
      case Armed => timers - {t}
      case Running(_) => timers[t := Running(true)]
      case Parked => timers - {t}
      case Locked => timers
      case Holding => timers
  }

  function LoopStep(s: Sys): Sys
    requires s.queue != []
  {
    match s.queue[0]
    case Attached =>
      s.(queue := s.queue[1..], idleTimer := None,
         timers := if s.idleTimer.Some? then Abort(s.timers, s.idleTimer.value) else s.timers)
    case Detached =>
      if s.count - 1 <= 0
      then s.(queue := s.queue[1..], count := s.count - 1, idleTimer := Some(s.nextTimer),
              timers := s.timers[s.nextTimer := Armed], nextTimer := s.nextTimer + 1)
      else s.(queue := s.queue[1..], count := s.count - 1)
  }

  /** A task that is gone or blocked leaves the state as it is. */
  function Step(s: Sys, a: Action): Sys {
    match a
    case Arrive => ArriveStep(s)
    case MoveViewer(i, ok, p) => if i in s.subs then ViewerStep(s, i, ok, p) else s
    case MoveDog(c, ok) => if c in s.dogs then DogStep(s, c, ok) else s
    case MoveTimer(t) => if t in s.timers then TimerStep(s, t) else s
    case MoveLoop => if s.queue != [] then LoopStep(s) else s
    case Watch(on) => s.(watcher := on)
  }

  /** The action publishes a state on the watch that nobody is there to receive. */
  predicate LosesSend(s: Sys, a: Action) {
    Step(s.(watcher := true), a).watch != Step(s, a).watch
  }

  /** The one loss that matters: a Streaming on the watch that is over. */
  predicate LeavesStale(s: Sys, a: Action) { s.watch.Streaming? && LosesSend(s, a) }

  /** A run, given by its scheduling choices. */
  function Exec(s: Sys, acts: seq<Action>): Sys
    decreases |acts|
  {
    if acts == [] then s else Exec(Step(s, acts[0]), acts[1..])
  }

  /** A run in which no stale Streaming is left on the watch. */
  predicate Careful(s: Sys, acts: seq<Action>)
    decreases |acts|
  {
    acts == [] || (!LeavesStale(s, acts[0]) && Careful(Step(s, acts[0]), acts[1..]))
  }

  /** The action publishes a state that is not the one before. */
  predicate Announces(s: Sys, a: Action) {
    match a
    case MoveViewer(i, ok, _) =>
      i in s.subs && s.lock.Free? &&
      (match s.subs[i]
       case Entering => s.cell.state.Idle? && ok
       case DialFailed => s.cell.state.Connecting?
       case Dialed(_, _, _) => true
       case _ => false)
    case MoveTimer(t) => t in s.timers && s.timers[t].Holding?
    case _ => false
  }

  predicate NobodyListens(s: Sys) {
    !s.watcher && forall i :: i in s.subs ==> !s.subs[i].Waiting?
  }

  /** A run in which every change of the state is received. */
  predicate AllHeard(s: Sys, acts: seq<Action>)
    decreases |acts|
  {
    acts == [] || (!(Announces(s, acts[0]) && NobodyListens(s)) && AllHeard(Step(s, acts[0]), acts[1..]))
  }
}
