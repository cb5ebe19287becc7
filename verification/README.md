# Verification of the Buddy3D camera proxy

This project models the parts of the proxy in which mistakes are hardest to see, and
proves what they guarantee. `dafny verify dfyconfig.toml` checks all of it.

**The stream supervisor** (`Supervisor`, `SupervisorInv`, `SupervisorRuns`, `SupervisorWatch`,
`SupervisorCell`). Any number of `subscribe` calls, the viewer-event loop, idle-timer tasks
and one reconnect watchdog per session share a mutex-protected cell, an atomic viewer count,
a FIFO event queue and a state watch. The model is a transition system: a state holds the
shared data and the position of every task, an action is one region between two lock or
await points of one task. What the outside answers (whether a connect succeeds, whether a
session ends, whether the budget and the auth flag allow an attempt, when a timer fires) is
part of the action, so "for all runs" means for all schedules and all answers. Receivers of
the state watch come and go as actions of their own. Regions inside the mutex that publish on
the watch and then go on changing the cell are two actions with the lock held in between. The
idle timer's section is three, because it also loads the viewer count, and because aborting a
timer has no effect once it has the lock: a timer is asleep, being run by a worker thread
(aborted or not), parked at the lock, past it, or tearing down. The other critical sections
touch at most one thing that the mutex does not protect and are one action. `SupervisorInv` is
the inductive invariant, kept by every action, `SupervisorRuns` what follows from it for
reachable states and whole runs, `SupervisorWatch` what the state watch shows, and
`SupervisorCell` the shared fields rewritten in place, each critical section tied to its action.

A state is reachable if some run leads to it from the start, any run whatever: with or without
receivers of the watch, and after a failed `expect` too. A few results about the watch ask for
more and say so; a run is careful if none of its steps leaves a Streaming on the watch that is
no longer true.

An abort of the idle timer that comes too late leaves a timer beside the one in `idle_timer`;
`OutlivesHandleIff` says exactly when, and `OlderTimerTearsDown` shows such a timer end the
session. A handle is never overwritten while its timer can fire.

tokio's `send` leaves the value of a watch as it was when there is no receiver, and `new` drops
the only receiver it creates (`src/supervisor/mod.rs:103`). `WatchPartsIff` gives the steps after
which the watch no longer shows the state: a connect begun, failed or done, or a teardown, with
nobody there to receive it. A viewer that finds Connecting and reads Idle is refused although the
connect is running; one that reads Connecting in another state waits for nobody.
`WrongAnswersBeginIff` says which step begins either, and `RefusedMeanwhile` and `WaitsForNobody`
are runs that get there.

A stale Streaming does more harm. `PanicsIffTeardownUnheard` says, step by step: up to any point
of a careful run the two `expect`s of `subscribe` hold, and after the next step viewers alone
can make one fail if and only if that step is a teardown that finds Streaming on the watch and
nobody there to receive the Idle, although the wait is there, by its comment
(`src/supervisor/mod.rs:246-248`), to avoid reading an empty cell. So one receiver that stays is
enough, from before the first idle timeout on (`SafeWithReceiver`). The MQTT state watcher is
one, from when its task subscribes (`src/mqtt/state.rs:32`); MQTT is optional, and without it
four viewers and one idle teardown reach a failing `expect` (`TrustingViewerPanics`). The call
that fails has no Subscription to drop, so its part of the viewer count is never given back: the
count is exact if and only if no `expect` has failed (`ViewerCountExact`), and after that no
session is ever torn down (`NeverTornDownAgain`).

**The H.264 reassembler** (`H264`, `H264Sender`, `H264Loss`, `H264Garbage`). The decoder of RFC
6184, a sender for it, and two families of results: what comes out when any subset of a
sender's packets is lost, and what comes out of arbitrary packets. The first is exact. From any
state, with any losses, the output is the units whose packets all arrived, in order and byte
for byte, if and only if there is no splice: an end fragment that arrives with the number
expected after packets were lost between it and what opened the pending unit. A splice needs a
lost run around which the 16-bit sequence numbers wrap, and `WrappingLossCorrupts` and
`WrappingLossJoins` show what it puts out: a unit with its middle missing, and the start of one
unit joined to the end of another. A run that is lost at the beginning of the stream counts
from the last packet the reassembler saw before, if a unit was pending then.

**The token buckets** (`ReconnectBudget`, `RateLimit`). Both refill lazily; every reading of the
clock is a parameter, in nanoseconds. The reconnect budget refines a bucket that counts every
nanosecond. If a whole period passes between two of its readings, an attempt may begin on an
empty bucket; its failure then still finds a token, if there is room for one at all
(`SaturatesIff`). The limiter divides whole seconds by whole seconds, so what it credits keeps to one token per
period exactly if the period is a whole number of seconds, or the capacity is at most one, or
the period is shorter than a second, and then a refill divides by zero instead
(`TickPanicsIff`). And it keeps its old refill time while it is full, so the bound "capacity
plus one per whole period of the window" holds for the windows from a state exactly if nothing
is ever refilled, or the rate is kept and the bucket is not full or was refilled at this
instant (`BoundedIff`); from a new limiter on it holds exactly if the rate is kept
(`SpentSinceStartIff`).

**The RTSP layer** (`Utf8`, `Text`, `RtspMessage`, `RtspResponse`, `Sdp`, `RtspSession`,
`RtspServer`, `RtspAnswers`). Incremental parsing, the connection loop, and printers and parsers
that undo each other (RFC 2326, sections 6, 7, 10.4 and 10.5; RFC 6184, section 8.2.1). Buffers
are strings of bytes, header text is checked to be well-formed UTF-8 (RFC 3629, section 4), and
trimming removes the white space of all of Unicode. What a connection sends, for
whatever bytes it received, reads back as one message for each answered request
(`SentReadsBack`). A carriage return or line feed alone ends no line there; for clients to which
it does, `SentOneLineIff` says that every header sent is in one line exactly if no accepted
DESCRIBE has such a character in its URI, which the answer repeats, and `BrokenUriBreaks` gives a
DESCRIBE that has.

**The signaling codecs** (`SocketIo`, `Correlator`, `Commands`). The Socket.IO header with its
JSON strings, the correlator of binary attachments, and the hand-written protocol-buffer
encoders against a decoder of the wire format.

`Wrappers`, `Bytes`, `Slices`, `Lists` and `Arithmetic` hold shared types and small facts.

## Model

| member | source | states |
|---|---|---|
| SupervisorInv.InvStep | src/supervisor/mod.rs:182-474 | Every action of every task keeps the invariant: a count of all viewers and queued Detached events, fresh identities, a consistent session cell, positions that agree with the cell and lock, a connector for every Connecting, one owner per handle, one idle timer that can still be stopped |
| SupervisorInv.InvExec | src/supervisor/mod.rs:182-474 | The invariant holds after every run |
| SupervisorRuns.SessionConsistent | src/supervisor/mod.rs:203-243 | In every reachable state with the lock free, Streaming, `rtp_tx`, `stop` and the h264 cell agree; at most one first connect is in flight, and Connecting holds exactly while one is |
| SupervisorWatch.WatchPartsIff | src/supervisor/mod.rs:203-236 | From a reachable state in which the watch shows the state, a step makes them differ if and only if it begins, fails or completes a first connect or tears down, and nobody is there to receive the new state |
| SupervisorWatch.WatchShowsState | src/supervisor/mod.rs:207-207 | So from any reachable state in which the watch shows the state it goes on to, over every run in which every change is received |
| SupervisorRuns.ViewersOnCurrentChannel | src/supervisor/mod.rs:280-292 | Every held Subscription receives from the channel in `rtp_tx` and was given the parameters in the cell |
| SupervisorRuns.SubscriptionNeverStranded | src/supervisor/mod.rs:280-292 | Across any continuation of the run, a Subscription still held is on the session's channel, whatever reconnects, timers and late watchdogs did in between |
| SupervisorRuns.HandleInOnePlace | src/supervisor/mod.rs:209-243 | Every StopHandle ever returned is in exactly one place: dropped, in `stop`, or with one task between connect and its next lock |
| SupervisorRuns.DroppedHandleNeverReturns | src/supervisor/mod.rs:398-411 | A dropped handle is never again the session's |
| SupervisorRuns.RetiredForever | src/supervisor/mod.rs:368-416 | A channel that is no longer the session's, and not about to be published, never becomes it |
| SupervisorRuns.LateWatchdogChangesNothing | src/supervisor/mod.rs:371-411 | Once a session is not a watchdog's, no later move of that watchdog changes the cell or the watch, even after teardowns and new sessions in between |
| SupervisorRuns.ViewerCountExact | src/supervisor/mod.rs:441-442 | The viewer count is never negative and at least subscribe calls in progress, held Subscriptions and queued Detached events together; it equals their sum if and only if no `expect` has failed |
| SupervisorRuns.NeverTornDownAgain | src/supervisor/mod.rs:460-474 | After a failed `expect`, over any run, no timer tears down or is about to, and a Streaming state stays so |
| SupervisorRuns.TeardownOnlyWithoutViewers | src/supervisor/mod.rs:460-465 | A timer that decides to tear down finds no viewer, no queued Detached and a Streaming session, never Connecting |
| SupervisorRuns.TeardownKeepsViewersOut | src/supervisor/mod.rs:460-474 | While a teardown holds the lock, every viewer present has not yet entered `subscribe`'s first critical section |
| SupervisorRuns.OneIdleTimer | src/supervisor/mod.rs:428-474 | At most one idle timer can still be stopped, and it is the one in the event loop's variable; at most one is past the lock; any other was aborted while a worker thread was running it |
| SupervisorRuns.ArmedHandleNeverDiscarded | src/supervisor/mod.rs:435-452 | An event handled while the timer in `idle_timer` can fire is Attached and uses that handle; the timer is gone afterwards unless it was running or past the lock |
| SupervisorRuns.DetachedNeverFindsArmedTimer | src/supervisor/mod.rs:441-452 | When a Detached event is handled no timer can be stopped, and the handle its assignment may overwrite is that of a timer that is gone |
| SupervisorRuns.OutlivesHandleIff | src/supervisor/mod.rs:435-461 | The timer in `idle_timer` outlives its handle in a step if and only if that step is the event loop handling an event while the timer is being run or past the lock |
| SupervisorRuns.OlderTimerTearsDown | src/supervisor/mod.rs:435-461 | A run in which timer 0 has the lock when it is aborted, timer 1 is armed, and timer 0 tears the session down |
| SupervisorWatch.WaiterHasConnector | src/supervisor/mod.rs:245-271 | In every reachable state in which the watch shows the state, a viewer waiting on Connecting has another viewer running the connect |
| SupervisorWatch.RefusedMeanwhileIff | src/supervisor/mod.rs:250-261 | In every reachable state, a waiting viewer is refused while a first connect is in flight if and only if it reads Idle in Connecting |
| SupervisorWatch.WaitsForNobodyIff | src/supervisor/mod.rs:250-268 | It stays waiting with no first connect in flight if and only if it reads Connecting in another state |
| SupervisorWatch.WrongAnswersBeginIff | src/supervisor/mod.rs:203-235 | From a reachable state in which the watch shows the state, the first begins exactly with an Entering that starts a connect, the second exactly with the end of one, nobody there to receive it |
| SupervisorWatch.RefusedMeanwhile | src/supervisor/mod.rs:245-261 | A run without receivers in which a viewer is refused while another one is connecting |
| SupervisorWatch.WaitsForNobody | src/supervisor/mod.rs:216-268 | A run in which the receiver leaves and a viewer waits on a connect that has failed |
| SupervisorRuns.UnwatchedSessionEnds | src/supervisor/mod.rs:446-474 | From every reachable Streaming state without viewers, some pending idle timer, run to its end, leaves the supervisor Idle with the handle dropped |
| SupervisorWatch.StreamingIsTrue | src/supervisor/mod.rs:245-260 | After every careful run the watch shows Streaming only while the state is, whoever goes on to attach does so in a Streaming session, and no `expect` has failed |
| SupervisorWatch.CarefulNeverPanics | src/supervisor/mod.rs:280-286 | From any state a careful run leads to, no careful run makes an `expect` fail |
| SupervisorWatch.StaleIffTeardownUnheard | src/supervisor/mod.rs:460-470 | While the watch shows Streaming only in Streaming, of all moves only a teardown that finds it there with no receiver leaves a stale one, and every such teardown does |
| SupervisorWatch.TrustingViewerPanics | src/supervisor/mod.rs:103-103 | Without a receiver, a run in which a viewer trusts a stale Streaming and fails an `expect` |
| SupervisorWatch.PanicsIffTeardownUnheard | src/supervisor/mod.rs:245-286 | After every careful run no `expect` has failed, and after the next step viewers alone can make one fail if and only if that step is a teardown that finds Streaming on the watch and no receiver |
| SupervisorWatch.SafeWithReceiver | src/mqtt/state.rs:32-32 | From a state a careful run leads to, with a receiver that stays, no run makes an `expect` fail |
| SupervisorCell.SessionState.constructor | src/supervisor/mod.rs:110-115 | The cell starts Idle and empty |
| SupervisorCell.SessionState.Enter | src/supervisor/mod.rs:189-207 | The first critical section of `subscribe` does to the fields what the Entering move does, and refuses exactly when Idle and out of budget |
| SupervisorCell.SessionState.RollBack | src/supervisor/mod.rs:216-221 | After a failed connect the fields become those of the DialFailed move |
| SupervisorCell.SessionState.Publish | src/supervisor/mod.rs:232-238 | After a connect the fields and the dropped handle are those of the two publishing moves |
| SupervisorCell.SessionState.Attach | src/supervisor/mod.rs:280-292 | What a viewer reads is what the Attaching move gives it, None standing for a failing `expect` |
| SupervisorCell.SessionState.Republish | src/supervisor/mod.rs:398-411 | The watchdog's section changes the fields, drops the handle and goes on or exits as the Redialed move does |
| SupervisorCell.SessionState.TearDown | src/supervisor/mod.rs:460-474 | The idle timer's section tears down, or not, as the moves past the lock do |
| SupervisorCell.ViewerLoop.constructor | src/supervisor/mod.rs:105-109 | The count starts at zero and no idle timer is held |
| SupervisorCell.ViewerLoop.Handle | src/supervisor/mod.rs:432-456 | One event changes count and `idle_timer`, aborts and arms timers as the event-loop move does |
| H264.Reassembler.constructor | src/snapshot/h264.rs:43-46 | A new reassembler has no buffer and has seen no sequence number |
| H264.Reassembler.Push | src/snapshot/h264.rs:51-127 | One packet, updating the fields in place, is one step of the decoder function, on which the results below rest |
| H264.Reassembler.Units | src/snapshot/h264.rs:74-89 | The loop over an aggregation packet yields its units in order and stops at the first one that does not fit |
| H264Loss.LossExactIff | src/snapshot/h264.rs:51-127 | Packetize any list of single NAL units, STAP-A and FU-A groups and lose any subset of the packets, from any state in which a pending unit came with a sequence number: out come, in order and byte for byte, exactly the groups whose packets all arrived, if and only if there is no splice |
| H264Loss.SpliceWraps | src/snapshot/h264.rs:56-63 | A splice needs a lost run whose length is a positive multiple of 65536 |
| H264Loss.LossExactness | src/snapshot/h264.rs:51-127 | So without such a run the output is exact |
| H264Loss.PendingIff | src/snapshot/h264.rs:56-121 | In the middle of a stream with losses a unit is pending if and only if something opened one and every arrival since went on with it in sequence |
| H264Loss.RoundTrip | src/snapshot/h264.rs:51-127 | Without loss, reassembly undoes packetization from any first sequence number |
| H264Loss.CompleteFragments | src/snapshot/h264.rs:90-121 | The last fragment of a unit whose fragments all arrived puts out that unit |
| H264Loss.IncompleteFragments | src/snapshot/h264.rs:90-121 | The last fragment of any other fragmented unit puts out something if and only if it is a splice |
| H264Sender.UnitsRoundTrip | src/snapshot/h264.rs:74-89 | Splitting an aggregation packet undoes joining |
| H264Loss.NoWrappingGapMeaning | src/snapshot/h264.rs:56-63 | The gap condition says, arrival by arrival, that the number of packets lost before it is zero or no multiple of 65536 |
| H264Loss.WrappingLossIsInvisible | src/snapshot/h264.rs:58-63 | Losing a multiple of 65536 packets in a row leaves the packets of a stream in which they never existed |
| H264Loss.WrappingLossCorrupts | src/snapshot/h264.rs:58-63 | So a unit of that many fragments comes out with the lost pieces missing instead of not at all |
| H264Loss.WrappingLossJoins | src/snapshot/h264.rs:58-63 | And the start of one unit comes out joined to the end of the next |
| H264Garbage.EmptyPacketsIgnored | src/snapshot/h264.rs:52-54 | Packets without payload change neither state nor output of any stream |
| H264Garbage.PendingIsOneRun | src/snapshot/h264.rs:58-121 | After any packets, a buffer is pending if and only if the latest start fragment begins an unended run of consecutive sequence numbers, and it is the rebuilt header followed by that run's FU-A payloads |
| H264Garbage.FragmentsEmitOneRun | src/snapshot/h264.rs:90-121 | An FU-A packet emits a unit if and only if it ends such a run in sequence, and the unit is that run's bytes |
| H264Garbage.StapUnitsWellFormed | src/snapshot/h264.rs:77-88 | What is taken from an aggregation packet is a list of well-formed length-prefixed units, and no whole unit follows |
| H264Garbage.StapUnitsLongest | src/snapshot/h264.rs:77-88 | It is the longest such list |
| Bytes.Low5IsMask | src/snapshot/h264.rs:98-98 | `& 0x1F` is the arithmetic function the decoder uses, for all bytes |
| Bytes.High3IsMask | src/snapshot/h264.rs:103-103 | So is `& 0xE0` |
| Bytes.FlagsAreMasks | src/snapshot/h264.rs:96-97 | The tests of the start and end bits are the predicates the decoder uses |
| Bytes.HeaderIsMask | src/snapshot/h264.rs:98-104 | The header rebuilt from indicator and fragment header with bit operations is the sum the decoder builds |
| Bytes.Or80IsMask | src/prusa/commands.rs:69-71 | Setting the continuation bit is the function the encoder uses |
| ReconnectBudget.ReconnectBudget.constructor | src/reconnect_budget.rs:31-38 | The bucket starts full |
| ReconnectBudget.ReconnectBudget.DoRefill | src/reconnect_budget.rs:69-88 | Refilling in place is the function of bucket and the two clock readings that RefillExact and LazyRefinesEager are about |
| ReconnectBudget.ReconnectBudget.Wait | src/reconnect_budget.rs:41-48 | Refills, reads the clock a third time and returns the wait that WaitTimeExact is about |
| ReconnectBudget.ReconnectBudget.RecordSuccess | src/reconnect_budget.rs:50-53 | Refills and earns one token, up to capacity |
| ReconnectBudget.ReconnectBudget.RecordFailure | src/reconnect_budget.rs:55-58 | Refills and spends one token |
| ReconnectBudget.ReconnectBudget.Tokens | src/reconnect_budget.rs:60-63 | Refills and returns the tokens |
| ReconnectBudget.RefillExact | src/reconnect_budget.rs:72-87 | Below capacity a refill credits exactly the whole periods elapsed and keeps the remainder, unless the bucket becomes full |
| ReconnectBudget.RefillTwice | src/reconnect_budget.rs:60-88 | A refill at t1 and then t2 leaves the bucket of a refill at t2 alone: reading never changes the pacing |
| ReconnectBudget.LazyRefinesEager | src/reconnect_budget.rs:69-88 | At every instant the lazy bucket agrees with one that counts every nanosecond |
| ReconnectBudget.EagerAfterRefill | src/reconnect_budget.rs:69-88 | And no refill before that, however long between its readings, changes what it shows |
| ReconnectBudget.WaitTimeExact | src/reconnect_budget.rs:40-48 | With no records in between, a refill finds a token if and only if the wait has passed, for any clock readings |
| ReconnectBudget.WindowBound | src/reconnect_budget.rs:1-8 | A caller with one attempt at a time that starts only at wait zero fails at most capacity + successes + one per whole period of any window, if the capacity is positive or no attempt is under way when the window begins |
| ReconnectBudget.WindowBoundIff | src/reconnect_budget.rs:1-8 | And the bound holds for all windows from a state only then |
| ReconnectBudget.FailuresTakeTokens | src/reconnect_budget.rs:55-58 | With a positive capacity that caller's saturating subtraction never saturates |
| ReconnectBudget.SaturatesIff | src/reconnect_budget.rs:40-58 | From a new bucket it can saturate if and only if the capacity is zero |
| RateLimit.RateLimiter.constructor | src/rate_limit.rs:60-66 | The bucket starts full |
| RateLimit.RateLimiter.DoTick | src/rate_limit.rs:92-99 | The refill in place is the function of bucket and the two clock readings the bounds are proved about, and fails where that divides by zero |
| RateLimit.RateLimiter.TryAcquire | src/rate_limit.rs:70-79 | One turn of the loop takes a token if there is one after the refill, and otherwise says how long to sleep |
| RateLimit.RateLimiter.Acquire | src/rate_limit.rs:68-83 | With nobody else at the bucket and any time between the clock readings, `acquire` sleeps at most once, exactly if no token is there, and until one period after the last refill; after a sleep it panics exactly for periods shorter than a second |
| RateLimit.RateLimiter.Refund | src/rate_limit.rs:85-90 | Returns a token unless the bucket is full |
| RateLimit.RateLimiter.Complete | src/rate_limit.rs:41-47 | Only a server or network error keeps the token |
| RateLimit.RateLimiter.Tokens | src/rate_limit.rs:101-105 | Refills and returns the tokens |
| RateLimit.TickPanicsIff | src/rate_limit.rs:95-95 | A refill divides by zero in some run if and only if the period is shorter than a second and the capacity at least one |
| RateLimit.CreditInRateIff | src/rate_limit.rs:92-99 | What a refill credits is at most one token per period, for every bucket and elapsed time, if and only if the period is a whole number of seconds, or the capacity at most one, or the period shorter than a second |
| RateLimit.SpentSinceStartIff | src/rate_limit.rs:1-8 | Under all interleavings of permits, outstanding and spent permits together stay within the capacity plus one per whole period since the start, if and only if the refill keeps the rate in that sense |
| RateLimit.BoundedIff | src/rate_limit.rs:68-99 | From any state, that bound holds for all windows if and only if nothing is ever refilled, or the rate is kept and the bucket is not full or was refilled at this instant |
| RateLimit.SpentInWindow | src/rate_limit.rs:68-99 | Where the rate is kept, at most one more than that from any state |
| RateLimit.IdleBucketGivesOneMore | src/rate_limit.rs:92-99 | A bucket full for a period grants capacity + 1 permits at one instant |
| RateLimit.RestedBucketGivesOneMore | src/rate_limit.rs:92-99 | One full for any shorter time grants capacity + 1 permits before a period has passed |
| RateLimit.EarlyPairsBreakBound | src/rate_limit.rs:95-95 | With capacity at least two and a period that is no whole number of seconds, from any state some run exceeds the bound |
| Utf8.Append | src/rtsp/message.rs:93-93 | Well-formedness is decided piece by piece, so joining well-formed texts is well-formed and a bad tail is not hidden |
| Utf8.CutAtAscii | src/rtsp/message.rs:93-109 | And the parts of a well-formed text around an ASCII character are well-formed |
| Utf8.ValidUpToLongest | src/rtsp/message.rs:93-93 | The position in the error for malformed text is the length of its longest well-formed prefix |
| Text.TrimTrims | src/rtsp/message.rs:119-119 | Trimming leaves a text without white space of any kind at either end, made of the same characters |
| RtspMessage.ParseRequest | src/rtsp/message.rs:86-142 | The parser with its loop over header lines computes the function the results below are about, every error with its text |
| RtspMessage.ParseStable | src/rtsp/message.rs:86-142 | A parsed request, and every error but Incomplete, is unchanged by bytes appended to the buffer |
| RtspMessage.ParseMinimal | src/rtsp/message.rs:86-131 | Every proper prefix of the bytes a request takes is Incomplete |
| RtspMessage.FindInLonger | src/rtsp/message.rs:144-148 | The blank line found first stays the one found first in a longer buffer |
| Text.FindFirst | src/rtsp/message.rs:144-148 | The search returns the first occurrence, and None exactly if there is none |
| RtspResponse.Format | src/rtsp/message.rs:195-208 | The printer, appending piece by piece, prints the status line, header lines, blank line and body of FormatParses |
| RtspResponse.FormatParses | src/rtsp/message.rs:195-208 | A response without CRLF in its fields and without its own content-length or cseq header, followed by anything, parses back to exactly its bytes, all header fields, its CSeq and its body |
| RtspResponse.StreamRoundTrip | src/rtsp/message.rs:86-208 | Any number of them in a row parses into as many messages with their CSeqs and bodies, nothing left over |
| Sdp.ExtractH264Params | src/rtsp/sdp.rs:58-102 | The nested loops compute the extraction function of the round trip |
| Sdp.ExtractedClean | src/rtsp/sdp.rs:58-102 | Whatever is extracted from any text is trimmed and free of `;` and line feeds |
| Sdp.RoundTripIffClean | src/rtsp/sdp.rs:28-102 | Extracting from a printed SDP returns the parameters, for every u8 payload type and mode, if and only if both strings are trimmed and free of `;` and line feeds |
| RtspSession.Session.constructor | src/rtsp/session.rs:52-58 | A session starts in Init without id and channel |
| RtspSession.Session.HandleRequest | src/rtsp/session.rs:62-167 | One request, updating the fields in place, gives the state, response and action of the session function |
| RtspSession.TransportRoundTrip | src/rtsp/session.rs:113-116 | The printed Transport header parses to the pair it was printed from |
| RtspSession.SetupAnswersWithGrantedPair | src/rtsp/session.rs:88-120 | The Transport header of an accepted SETUP's response reads as the pair granted to the request |
| RtspServer.Connection.constructor | src/rtsp/server.rs:131-133 | A connection starts with an empty buffer, a new session and no subscription |
| RtspServer.Connection.Receive | src/rtsp/server.rs:136-197 | One read, the end of the stream included, and the inner loop of parsing and dispatching do to buffer, session, subscription and responses what the stream functions say |
| RtspServer.ChunkingInvariance | src/rtsp/server.rs:136-198 | However the bytes before the end of the stream are split into reads, the same requests are handled, the same responses sent and the connection ends, or waits, in the same place |
| RtspServer.DrainServes | src/rtsp/server.rs:146-197 | A connection does to its bytes what serving the parsed requests in order does, and stops for a malformed one, or panics for one too long, only after those before it |
| RtspServer.StreamingStartsIff | src/rtsp/server.rs:183-196 | After any requests, a request starts streaming on a channel if and only if it is a PLAY for the right path and the last accepted DESCRIBE or SETUP was a SETUP granted that lower channel |
| RtspServer.NeverWithoutSession | src/rtsp/session.rs:128-136 | For every byte stream in any chunks, no 454 is ever answered and streaming never lacks a subscription |
| RtspAnswers.SentReadsBack | src/rtsp/server.rs:143-181 | For every byte stream in any chunks, what the connection sent parses into one message for each answered request, in order, with its CSeq and the body, nothing left over |
| RtspAnswers.AnswerOneLineIff | src/rtsp/session.rs:62-167 | The response to a request has a CR or LF in a header if and only if the request is an accepted DESCRIBE with one in its URI |
| RtspAnswers.SentOneLineIff | src/rtsp/server.rs:143-181 | For every byte stream in any chunks, no response sent has one if and only if no answered DESCRIBE for the right path has one in its URI |
| RtspAnswers.BrokenUriBreaks | src/rtsp/session.rs:172-182 | The bytes of an accepted DESCRIBE with a line feed in its URI, whose one response has a header with a line feed |
| RtspAnswers.MadeIdsGood | src/rtsp/server.rs:127-130 | Every session id the server makes is plain text in one line, as these results ask |
| SocketIo.EscapeRoundTrip | src/prusa/signaling/socketio.rs:150-161 | Every string, printed as JSON, reads back as itself, whatever follows |
| SocketIo.HeaderRoundTrip | src/prusa/signaling/socketio.rs:85-161 | What `encode_binary_event` prints, `parse_text` reads back, for every name: count, optional id, name and the placeholder numbers 0, 1, ... |
| Correlator.Correlator.constructor | src/prusa/signaling/socketio.rs:209-211 | A correlator starts with no event pending |
| Correlator.Correlator.FeedTextFrame | src/prusa/signaling/socketio.rs:213-245 | A text frame in place is the correlator function, rejected and without effect while attachments are missing |
| Correlator.Correlator.FeedBinaryFrame | src/prusa/signaling/socketio.rs:247-271 | A binary frame in place is the correlator function |
| Correlator.Correlator.Collect | src/prusa/signaling/socketio.rs:263-265 | The attachments are collected in the order of their numbers |
| Correlator.NeverTooMany | src/prusa/signaling/socketio.rs:252-257 | Whatever frames arrive, received attachments are numbered from 0 without gaps, some are missing, and TooManyBinaries is never the answer |
| Correlator.DeliversWhatWasReceived | src/prusa/signaling/socketio.rs:259-270 | An event is delivered by the frame that was missing, after the ones received before it in order, so the default for a missing attachment is unused |
| Correlator.StrayTextIgnored | src/prusa/signaling/socketio.rs:214-219 | Text frames in mid-event change nothing and deliver nothing |
| Correlator.EventsRoundTrip | src/prusa/signaling/socketio.rs:150-271 | Any sequence of events, sent as header and attachments with stray text in between, is delivered as exactly those events with their attachments in order |
| Commands.Buffer.constructor | src/prusa/commands.rs:17-17 | A new vector is empty |
| Commands.Buffer.EncodeVarint | src/prusa/commands.rs:68-74 | The shifting loop appends the varint of the value and nothing else |
| Commands.Buffer.Extend | src/prusa/commands.rs:23-23 | Appends the given bytes |
| Commands.VarintRoundTrip | src/prusa/commands.rs:68-74 | Every 64-bit value takes at most ten bytes and is read back, whatever follows untouched |
| Commands.VarintLength | src/prusa/commands.rs:68-74 | A varint has at most k bytes if and only if its value is below 128 to the k |
| Commands.VarintMinimal | src/prusa/commands.rs:68-74 | Any other bytes that read as the same value are longer |
| Commands.MessageRoundTrip | src/prusa/commands.rs:9-11 | Any list of numbered fields is read back as it was written |
| Commands.EncodeCameraTrigger | src/prusa/commands.rs:16-25 | The calls in order write the message of TriggerDecodes |
| Commands.TriggerDecodes | src/prusa/commands.rs:16-25 | For every u32 field number, the message is the number's low 29 bits set to 1 and the token in field 11; no decoder accepts it if those bits are zero |
| Commands.TriggerFaithfulIff | src/prusa/commands.rs:16-25 | It means what was asked for if and only if the field number is between 1 and 2^29 - 1 |
| Commands.EncodeSetMode | src/prusa/commands.rs:31-45 | The calls in order write the message of SetModeDecodes |
| Commands.SetModeDecodes | src/prusa/commands.rs:27-45 | Field 3 holds a message whose field 4 is the mode, and field 6 the token, for every mode and token |
| Commands.EncodeSetQuality | src/prusa/commands.rs:51-66 | The calls in order write the message of SetQualityDecodes |
| Commands.SetQualityDecodes | src/prusa/commands.rs:47-66 | Field 4 is empty, field 6 the token, and field 8 holds a message whose field 1 is the quality |

## Left out

- `WebRtcFactory::connect`, ICE and DTLS: a connect returns an error, or a fresh handle and an end signal that may fire at any time.
- `snapshot`, `subscribe_rtp` and the reconnect, error-age and uptime counters: passive reads that no transition depends on.
- The supervisor does not promise that Streaming means a live session (a watchdog may return and leave the state as it is), nor that every concurrent attempt holds a token; neither is claimed.
- SupervisorInv.InvExec: the viewer count is an unbounded integer, not an i32, and shutdown of the supervisor (the watch closing) is not modelled.
- Cancelling a `subscribe` call in progress: the connection task awaits it inline, and a call dropped half-way would leave the count too high.
- SupervisorRuns.UnwatchedSessionEnds: says that the teardown is always still possible, not that a fair scheduler reaches it.
- Backoff: `ExpBackoff` and its jitter only delay an attempt; the model lets every sleep take any time.
- ReconnectBudget.WindowBound: is for a caller with one attempt at a time, because concurrent attempts of `subscribe` and a stale watchdog can share the last token.
- RateLimit.RateLimiter.Acquire: one caller; with several, each turn of the loop is TryAcquire and fairness is not modelled. With capacity 0 it would never return.
- Token counts are unbounded: the u32 sums and the narrowing of the earned count can differ only near 2^32.
- FU-B, MTAP and DON fields: the decoder drops them, and so does the model.
- RtspResponse.FormatParses: printed texts of at most 2^64 - 1 bytes, the range of a length; RtspAnswers.SentReadsBack assumes the same of the responses.
- RtspServer.ChunkingInvariance: `subscribe` gives one answer per connection, reads and writes succeed, and RTP forwarding after PLAY is only named by its channel.
- SocketIo.HeaderRoundTrip: of JSON only arrays of strings and placeholders are parsed, without white space; CONNECT bodies are opaque, and `\u` escapes from U+0080 on, which are never printed, are not read.
- Correlator.EventsRoundTrip: for events with at most 2^32 - 1 attachments, the range of the count.
- `header_to_bytes` and `encode_frame`: fixed layouts that would only add easy members.
- HTTP, WebSocket, MQTT, TLS, configuration, login and token files, health, metrics, discovery payloads and JPEG snapshots: input and output over libraries that are not part of this model.
