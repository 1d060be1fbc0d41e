# Desktop relay, session lifecycle and agent streams: a Dafny model

HankRemote lets a browser drive a desktop through a cloud server. Browser and agent each open a
connection; the server's in-process relay pairs them and forwards opaque frames in both directions.
Around the relay live the stored session (states, key epochs, one-time join credentials), the trust
chain of device certificates, and, on the agent, resumable file transfers, terminal replay and the
env file. This project models that core and proves what it guarantees.

## How the model is laid out

| file | what it models |
|---|---|
| `RelayPipe`, `RelayLane` | the bounded byte queue, and one direction of a session: read pump, queue, write pump |
| `RateWindow` | the fixed-window byte limiter and what a whole history of calls lets through |
| `RelayTypes`, `RelayRegistry`, `RelayObject` | claims and limits; the session table as values and as the mutable object |
| `RelayMachine`, `RelayTheorems`, `RelayLaws` | the whole relay as a transition system, the theorems about its runs, and what timers, pumps and winners of `fail` do in them |
| `Admission`, `RelayAuthorization` | reservations around `Create`; the claim a connecting side is given |
| `JoinProtocol`, `LateJoins` | connection handlers together with the session and the full relay machine; runs of late joins and rejected credentials |
| `RevocationCuts`, `StaleCut` | what a session's revocations do to the connections in the relay; a run in which a stale one closes a newer epoch's |
| `SessionStore`, `SessionLifecycle` | the stored row and its guarded updates; one session under concurrent handlers |
| `LifecycleLaws`, `StaleCommits` | what every operation comes to and where it comes from; operations that come late |
| `CertificateChain`, `Readiness` | the bounded issuer walk; the readiness fold |
| `Transfer` | offset-checked transfers |
| `Terminal`, `TerminalClient` | the agent's sliding replay window and session table; the dashboard's client against it |
| `Text`, `EnvFile`, `AgentConfig` | trimming and splitting; printing and parsing the env file; read-modify-write of it |
| `Chunker`, `PathPolicy` | text chunker; path-prefix policy |
| `Common` | options, frames and byte counts |

Conventions.

- *Steps.* The relay machine takes one step per critical section, channel operation or endpoint
  call. A goroutine that has decided to call `fail` but has not reached the lock is an entry of
  `calls`; what a goroutine still does after it let go of the lock (closing endpoints, emitting
  events) is a task. Any interleaving of steps is a run. Timers, context ends and endpoint errors
  may happen at any time, so every statement about all runs covers every timing.
- *Objects.* A session object is an entry of `table` and its index is the handle that other
  goroutines keep, so an old session and its successor under the same id stay distinct.
- *Mutable state.* Each class method is proved equal to a function of the old state; the invariants
  and theorems are about those functions. A handler of the stored session reads the row, decides,
  and acts later; `pending` holds what is still on its way to the store, the relay or the agent, and
  `relay` the epoch under which the relay has the session registered.
- *Time* is nanoseconds; the zero time is its own constructor. Key epochs wrap at 32 bits where the
  store increments them, and `RunIsSane` shows that no run ever sees a wrapped epoch.

## Findings

- **Late operations of an older epoch.** `OlderEpochExactly` covers every pending operation that
  knows its epoch and gives, for each kind, the exact condition under which it leaves a newer session's
  row and relay alone. Reconnects and transport losses carry their epoch into the store and always do.
  - *Agent events* compare their epoch with the row they read, but the update is guarded by the
    source states alone. `StaleEventWitness` is a run in which a repeated "connected" of epoch 1
    activates epoch 2, and `StaleEventLocksOut` shows what that costs: a side that asks while the row is
    active is given no claim. Exactly a reconnect, a lost transport or a "disconnected" of the current
    epoch makes the row joinable again (`ActiveReopens`).
  - *Failed offers* update by source states and then, in a second call, revoke the session's id at the
    relay whether or not the update was accepted. `StaleOfferExactly` takes the update at step i and the
    revocation at step j of a run, with anything in between: the two leave the newer session alone if
    and only if at i it is not reconnecting (or the store fails) and at j the relay does not have it.
    `StaleOfferFailsSession` is a run in which it fails a reconnecting session,
    `StaleOfferCutsConnection` one in which it cuts the live connection of an active one, and
    `StaleRevocationOvertaken` one in which the session enters the relay between the two calls.
    `RevocationExactly` and `RevocationCloses` say it of the full relay machine: a revocation leaves the
    relay alone if and only if the relay does not have the id, and otherwise, once its call has run, the
    session found there is finished and every endpoint it held is closed, once, whatever epoch was meant.
    `StaleOfferClosesNewer` is a run with both sides of epoch 2 paired and epoch 1's offer failing.
  - *Reservations* of a claim prepared before a reconnect put the old epoch into the relay
    (`StaleReservationBlocks`).
- **An older epoch in the relay keeps the current one out.** Reconnecting does not revoke the relay, so
  this needs nothing stale (`ReconnectLeavesOldEpoch`). In every run a reservation of the current epoch
  leaves the relay with that epoch if and only if it was there already, or the relay had nothing and
  there was room (`CurrentReservationExactly`); what is there stays until the relay ends it or it is
  revoked (`EpochHoldsRelay`).
- **Nothing is checked again after the credential.** A handler uses its credential while its claim's
  epoch is current and the session alive (`UsedWhileCurrent`), then accepts the connection and joins
  without another look at the row. `LateJoinExactly` says exactly when it gets its seat; the row plays
  no part. `EndedSessionPairs` is a run in which the operator ends the session and the relay revokes it,
  and then, in the last two steps, both sides join and are paired.
- **A rejected credential keeps its place.** `handleDesktopDataWebSocket` reserves before it consumes
  the credential and returns without cancelling when that fails
  (internal/cloud/desktop_websocket.go:111-125). `PlaceIsHeld` shows that the session then counts against
  the limits until a call of `fail`, such as the join timer's, or a cancel of its id and epoch, and
  `HeldPlaceBlocksAgent` what it costs: since an agent may have one session, every claim of that agent
  under another id is refused meanwhile. `RejectedCredentialBlocksAgent` is such a run: its last step
  turns away a credential that nobody issued.
- **`Join` never returns nil.** Every session that anyone joined ends with an error
  (`JoinAlwaysReturnsError`), so the normal-closure path at the end of
  `handleDesktopDataWebSocket` (internal/cloud/desktop_websocket.go:136-144) is not reached.
- **The queue budget counts bytes, not frames.** Any number of empty frames can queue up
  (`EmptyFramesQueueWithoutBound`), and empty frames are exactly what breaks the bound: in every run
  at most as many frames with bytes are queued as the budget has bytes (`QueueLength`).
- **A live event can overtake an attach reply.** The dashboard appends any event ahead of its cursor and
  drops a reply once the cursor has moved. `RecoversExactly` gives the exact condition for having the
  output, `OvertakenReplyLosesOutput` a run that loses a byte two bytes behind, and `NoLossNoGap` shows
  that a client that misses no event is safe.
- **The limiter allows twice its rate over a sliding second**, and exactly that (`RateBound`,
  `TwiceIsReached`).
- **A line break in a value reaches other keys.** `persistHomeAssistant` stores the token as it comes and
  the address trimmed only at its ends. The file reads back as meant if and only if the address has no
  inner line break and the token no line break and no white space at its end
  (`PersistHomeAssistant`). Any other key reads back unchanged if and only if the last value with a line
  that binds it is printed before it or binds it to what it is (`KeySurvivesExactly`); without line
  breaks none is touched. `TokenRewrites` covers every key printed before the token, and
  `TokenRewritesRoot` is the case of the agent's file root, which becomes "/".
- **Two uploads to one path can corrupt the file or the reply.** For any number of transfers of one
  source, interleaved in any way, the file is a prefix of the source throughout if and only if no message
  writes past a gap (`ManyTransfersExactly`), and a completion reply is for the right file if and only if
  the file is then such a prefix and as long as the transfer's own count (`DoneIsRightExactly`).
  `TwoUploadsCorrupt` is a run with a gap, `TruncatedCompletes` one without a gap, and both end in a
  completion reply for a wrong file. A transfer alone on its path does neither (`NeverCorrupt`,
  `CompletionIsExact`).
- **White space before "/.." counts.** Going into a directory and back out does not change which path is
  meant if and only if more of the path follows or the front does not end in white space
  (`UpIsIdleExactly`): trimming takes only what stands at the very end, so "x /n/.." names "x " and "x "
  names "x".
- **The chunker needs a limit of at least one.** A pass of its loop shortens the text if and only if
  the limit is at least one; with zero it cuts off an empty chunk and keeps the text
  (`CutMovesExactly`). The only caller passes 1800.

## Model

| member | source | states |
|---|---|---|
| `RelayTheorems.MapHoldsUnfinished` | internal/cloud/desktop_relay.go:317-362 | In every state of every run a session is in the map, under its own id, exactly while it is unfinished, and `done` has been closed once if it is finished and never otherwise |
| `RelayTheorems.EffectsAtMostOnce` | internal/cloud/desktop_relay.go:540-560 | In every run no endpoint is closed twice by the relay, no side-joined, paired or closed event is emitted twice, and none without its cause |
| `RelayTheorems.EffectsExactlyOnce` | internal/cloud/desktop_relay.go:540-560 | When no goroutine has work left, every endpoint that ever joined a finished session has been closed exactly once and its one closed event is out |
| `RelayTheorems.OneClosedEvent` | internal/cloud/desktop_relay.go:540-560 | Two closed events of one session in a log are the same entry, whatever reasons and counters they carry |
| `RelayTheorems.ReportedBytesWereDelivered` | internal/cloud/desktop_relay.go:515-560 | The counters in a closed event never exceed the bytes handed to the endpoints |
| `RelayTheorems.FailTouchesOnlyItsOwn` | internal/cloud/desktop_relay.go:540-552 | In every run a call of `fail` leaves every other session, in particular a successor under the same id, in the map as it is; on a finished session it does nothing and starts nothing |
| `RelayTheorems.FailIsFinal` | internal/cloud/desktop_relay.go:540-569 | After any call of `fail` has run (timer, revoke, pump, context end), its session is finished, out of the map and closed once in every later state |
| `RelayTheorems.JoinAlwaysReturnsError` | internal/cloud/desktop_relay.go:414-422 | A finished session with a joined side has an error, so `Join` never returns nil |
| `RelayTheorems.SessionHistory` | internal/cloud/desktop_relay.go:374-423 | Over any stretch of a run a session keeps its claim, its endpoints, its started flag, and once finished its error and counters: pairing and finishing happen at most once |
| `RelayTheorems.StepEvolves` | internal/cloud/desktop_relay.go:286-423 | The one-step form of that history for every kind of step |
| `RelayTheorems.Capacity` | internal/cloud/desktop_relay.go:338-362 | In every reachable state total sessions, sessions per home and sessions per agent are within their limits |
| `RelayTheorems.NoAbandonedSession` | internal/cloud/desktop_relay.go:317-336 | Every session that counts against a limit has a side that reserved or joined it |
| `RelayTheorems.PlaceIsHeld` | internal/cloud/desktop_websocket.go:111-125 | A session keeps its place in the map, under its claim, until a call of `fail` runs on it or a cancel of its id and epoch does; nothing else gives the capacity back |
| `RelayTheorems.HeldPlaceBlocksAgent` | internal/cloud/desktop_relay.go:338-362 | Until a step that may end it, a held session keeps every claim of the same agent under another id from being reserved or joined, with the limit error for a new id |
| `RelayTheorems.PairedClaimsAgree` | internal/cloud/desktop_relay.go:338-408 | Pumps run exactly when both endpoints are set, and then the two claims have the same session, home, agent, epoch and reconnect flag, and both expiries are equal once stored |
| `RelayTheorems.FifoDelivery` | internal/cloud/desktop_relay.go:194-252 | In each direction: frames read = delivered, then in flight, then queued, then held by the read pump, in order; at most one frame in each pump's hands |
| `RelayTheorems.QueueAccounting` | internal/cloud/desktop_relay.go:202-262 | `queuedBytes` is the bytes queued plus in flight, is within the budget unless it is one outstanding frame, hence at most the larger of budget and frame limit; the session's byte counter trails delivery by at most the frame being counted |
| `RelayTheorems.QueueLength` | internal/cloud/desktop_relay.go:202-213 | In every run the queue holds at most as many frames with bytes as the budget has bytes, so it is longer than the budget only by empty frames |
| `RelayTheorems.NoLostWakeup` | internal/cloud/desktop_relay.go:194-274 | In every interleaving a parked consumer with a queued frame has a token or a producer about to notify, and a parked producer whose frame fits has a token or a consumer about to notify |
| `RelayTheorems.ParkedPumpIsServed` | internal/cloud/desktop_relay.go:216-261 | A parked read pump is never stranded: its session is finished or about to be failed, or the write pump is inside the endpoint's write, or a pump of its direction has a step that waits only for a lock |
| `RelayTheorems.RateBound` | internal/cloud/desktop_relay.go:485-538 | In every run the limiter was asked about every frame read, in order, once; every frame handed on was let through; and the bytes handed on, queued, in flight or delivered, that arrived in any half-open second are at most twice `MaxBytesPerSecond` |
| `RelayLaws.JoinTimerExactly` | internal/cloud/desktop_relay.go:425-448 | In every run the join timer calls `fail`, with the join or the reconnect reason, exactly for a session that is neither paired nor finished, and does nothing to any other |
| `RelayLaws.JoinTimerSettles` | internal/cloud/desktop_relay.go:425-448 | After the timer, once its call has run where it made one, the session is started or finished in every later state |
| `RelayLaws.HardTimerExactly` | internal/cloud/desktop_relay.go:450-463 | In every run the hard timer calls `fail` with its reason and changes nothing else |
| `RelayLaws.ContextEndExactly` | internal/cloud/desktop_relay.go:414-418 | In every run an ended context of a joined side calls `fail` for its session and changes nothing else |
| `RelayLaws.PumpFailsExactly` | internal/cloud/desktop_relay.go:465-523 | In every run a pump step calls `fail` exactly for an oversized frame, a failed or timed-out read, a rate over the limit, a grace that ran out or a failed write, each with its reason, and reports backpressure exactly when a frame first finds the queue over budget |
| `RelayLaws.OneReportPerFrame` | internal/cloud/desktop_relay.go:200-220 | Between two reports of backpressure in one direction a frame has been queued |
| `RelayLaws.TakeExactly` | internal/cloud/desktop_relay.go:233-245 | The write pump takes the oldest frame, and sets out to notify again exactly when it leaves some behind |
| `RelayLaws.TokensExactly` | internal/cloud/desktop_relay.go:212-274 | The two tokens are set by the notifications, taken by the waits, and left alone by every other step |
| `RelayLaws.ClosedEventComesLast` | internal/cloud/desktop_relay.go:553-559 | In every run the closed event of a session comes after the closing of each of its endpoints |
| `RelayMachine.RunIsSafe` | internal/cloud/desktop_relay.go:286-569 | The relay's invariant (table, effects, watched pumps) holds in every state of every run |
| `RelayMachine.StepKeeps` | internal/cloud/desktop_relay.go:286-569 | Every step of every kind keeps that invariant |
| `RelayMachine.RunFailKeepsMachine` | internal/cloud/desktop_relay.go:540-560 | The critical section of `fail` plus the effects it starts keep what is owed equal to what is promised |
| `RelayMachine.JoinKeepsMachine` | internal/cloud/desktop_relay.go:374-412 | So does `Join` with its lifecycle events |
| `RelayMachine.CancelKeepsMachine` | internal/cloud/desktop_relay.go:317-336 | So does `CancelReservation`, which emits nothing |
| `RelayMachine.PumpKeepsMachine` | internal/cloud/desktop_relay.go:465-523 | So does every pump step; a pump that stops leaves a finished session or a pending call of `fail` |
| `RelayMachine.FailOwes` | internal/cloud/desktop_relay.go:546-559 | What a session owes the outside by finishing is exactly the program of the call that finished it |
| `RelayRegistry.ReserveKeeps` | internal/cloud/desktop_relay.go:286-315 | Reserving keeps the table's invariant |
| `RelayRegistry.ReserveFrame` | internal/cloud/desktop_relay.go:286-315 | An accepted reservation changes one session, unfinished, and there only its side's flag |
| `RelayRegistry.ReserveExactly` | internal/cloud/desktop_relay.go:286-315 | A reservation is accepted if and only if the claim is valid and the session under its id agrees and has nobody on that side, or there is none and there is room; each refusal has its error; a side reserved already is accepted again and nothing changes |
| `RelayRegistry.JoinExactly` | internal/cloud/desktop_relay.go:374-408 | A join is accepted under the same condition, and refused with the same errors |
| `RelayRegistry.JoinKeeps` | internal/cloud/desktop_relay.go:374-408 | Joining keeps the table's invariant |
| `RelayRegistry.JoinFrame` | internal/cloud/desktop_relay.go:374-408 | An accepted join fills one free side of an unfinished session and starts the pumps exactly when it completes the pair |
| `RelayRegistry.CancelKeeps` | internal/cloud/desktop_relay.go:317-336 | Cancelling keeps the table's invariant |
| `RelayRegistry.CancelExactly` | internal/cloud/desktop_relay.go:317-336 | A cancel of another epoch does nothing; one of this epoch frees its side, leaves the other alone, and ends the session exactly when nobody holds it |
| `RelayRegistry.FailKeeps` | internal/cloud/desktop_relay.go:540-552 | Failing keeps the table's invariant |
| `RelayRegistry.FailSparesOthers` | internal/cloud/desktop_relay.go:540-552 | `fail` deletes by id, yet never removes any other session, in particular no successor |
| `RelayRegistry.LookupThenPut` | internal/cloud/desktop_relay.go:338-362 | The session a claim leads to is unfinished and agrees with the claim; putting a sane successor of it back keeps the invariant |
| `RelayRegistry.CapacityAfterInsert` | internal/cloud/desktop_relay.go:340-355 | A session admitted by the three tests leaves all three counts within their limits, for every home and agent |
| `RelayObject.InProcessRelay.constructor` | internal/cloud/desktop_relay.go:276-284 | A relay with valid limits starts empty and valid |
| `RelayObject.InProcessRelay.CountSessions` | internal/cloud/desktop_relay.go:341-349 | The counting loop returns the sizes of the two sets of sessions |
| `RelayObject.InProcessRelay.SessionForJoin` | internal/cloud/desktop_relay.go:338-362 | Finds, makes or refuses a session as specified, and changes nothing when it refuses |
| `RelayObject.InProcessRelay.Reserve` | internal/cloud/desktop_relay.go:286-315 | Keeps `Valid` and does to the table what the specification says, with its error |
| `RelayObject.InProcessRelay.Join` | internal/cloud/desktop_relay.go:374-408 | The same for the critical section of `Join` |
| `RelayObject.InProcessRelay.CancelReservation` | internal/cloud/desktop_relay.go:317-336 | The same for `CancelReservation` |
| `RelayObject.InProcessRelay.Fail` | internal/cloud/desktop_relay.go:540-552 | The same for `fail`: it wins exactly when the session was unfinished, and then exactly its id leaves the map |
| `RelayTypes.AgreesIsEquivalence` | internal/cloud/desktop_relay.go:358-372 | Claim agreement is reflexive, symmetric and transitive |
| `RelayTypes.InvalidExactly` | internal/cloud/desktop_relay.go:70-76 | A claim is invalid if and only if it has one of the listed faults: an id out of form, epoch zero, an expiry that is over, a reconnect window that is over or outlasts the session, or one without a reconnect |
| `RelayTypes.LimitsExactly` | internal/cloud/desktop_relay.go:36-50 | Which limits are refused, and that the defaults are not |
| `RelayTypes.TimestampEqualIffStoredEqual` | internal/cloud/desktop_relay.go:364-372 | Two timestamps are equal to the relay exactly when a column of microsecond precision cannot tell them apart |
| `RelayPipe.PipeObject.TryEnqueue` | internal/cloud/desktop_relay.go:202-215 | The lock step of `enqueue`: admits exactly when idle or within budget, appends at the end |
| `RelayPipe.PipeObject.TryNext` | internal/cloud/desktop_relay.go:233-245 | The lock step of `next`: takes the oldest frame and says whether more wait |
| `RelayPipe.PipeObject.Complete` | internal/cloud/desktop_relay.go:254-260 | The lock step of `complete`, with its clamp |
| `RelayPipe.PipeObject.NotifyAvailable` | internal/cloud/desktop_relay.go:269-274 | A notification sets the one token and disturbs nothing else |
| `RelayPipe.PipeObject.NotifySpace` | internal/cloud/desktop_relay.go:269-274 | The same for the space channel |
| `RelayLane.FifoStep` | internal/cloud/desktop_relay.go:194-252 | Every step of either pump keeps the frames in order and accounted for |
| `RelayLane.BacklogStep` | internal/cloud/desktop_relay.go:202-262 | Every step keeps `queuedBytes` equal to queued plus in-flight bytes |
| `RelayLane.WithinBudgetStep` | internal/cloud/desktop_relay.go:202-213 | Every step keeps the backlog within the budget or equal to one outstanding frame |
| `RelayLane.FrameSizesStep` | internal/cloud/desktop_relay.go:481-491 | Every step keeps queued and in-flight frames within the frame limit |
| `RelayLane.CounterStep` | internal/cloud/desktop_relay.go:507-521 | Every step keeps the byte counter equal to the bytes delivered, up to the frame not counted yet |
| `RelayLane.WakeupsStep` | internal/cloud/desktop_relay.go:194-274 | Every step keeps both wake-up conditions |
| `RelayLane.MeteredStep` | internal/cloud/desktop_relay.go:465-491 | Every step keeps the limiter's history that of the frames read |
| `RelayLane.AdmittedStep` | internal/cloud/desktop_relay.go:485-491 | Every step keeps that only frames the limiter let through get past the read pump |
| `RelayLane.PastRate` | internal/cloud/desktop_relay.go:485-538 | The bytes of those frames that arrived in any second are at most twice the limit |
| `RelayLane.ClampNeverFires` | internal/cloud/desktop_relay.go:254-260 | The clamp to zero in `complete` never changes anything |
| `RelayLane.BacklogBound` | internal/cloud/desktop_relay.go:202-213 | The backlog is at most the larger of queue budget and frame limit |
| `RelayLane.QueueLength` | internal/cloud/desktop_relay.go:202-213 | Whatever the accounting allows, frames with bytes are at most the bytes of the budget |
| `RelayLane.ParkedIsServed` | internal/cloud/desktop_relay.go:216-261 | While the read pump is parked and the write pump lives, the write pump is inside the endpoint's write or one of them can move by itself |
| `RelayLane.LaneRunIsSafe` | internal/cloud/desktop_relay.go:465-523 | The lane's whole invariant holds in every state of every run of two pumps |
| `RelayLane.DeliveredIsPrefix` | internal/cloud/desktop_relay.go:465-523 | What the destination accepted is always a prefix of what the source handed over |
| `RelayLane.EmptyFramesQueueWithoutBound` | internal/cloud/desktop_relay.go:202-213 | For every n there is a run with n empty frames queued, no bytes queued and no rate used |
| `RateWindow.RateLimiter.AllowBytes` | internal/cloud/desktop_relay.go:525-538 | The limiter's state and answer are those of the specification, charging refused sizes too |
| `RateWindow.SpanInvariant` | internal/cloud/desktop_relay.go:525-538 | How much a one-second span has seen, by where the window in force opened |
| `RateWindow.AnySecondAtMostTwice` | internal/cloud/desktop_relay.go:525-538 | At most twice the limit passes within any half-open second, for all sizes and times |
| `RateWindow.OneWindowAtMostLimit` | internal/cloud/desktop_relay.go:525-538 | At most the limit passes within one fixed window |
| `RateWindow.TwiceIsReached` | internal/cloud/desktop_relay.go:525-538 | The factor two is met for every limit |
| `RateWindow.LetThroughIsPassed` | internal/cloud/desktop_relay.go:525-538 | Calls that were all let through add up to what passed |
| `RateWindow.RefusalLasts` | internal/cloud/desktop_relay.go:533-537 | After a refusal every later call in the same window is refused: refused sizes are charged |
| `Admission.DesktopService.ReserveAdmission` | internal/cloud/desktop_service.go:280-300 | Both sides reserved, or the map as before; succeeds exactly when there is room and the claim outlives both reservations |
| `Admission.DesktopService.ReleaseAdmission` | internal/cloud/desktop_service.go:296-299 | The rollback restores the map |
| `Admission.DesktopService.Create` | internal/cloud/desktop_service.go:158-184 | For a fresh id: success with both sides reserved, or an error with the session map exactly as before, on every path; and exactly when it succeeds |
| `Admission.ReserveFirst` | internal/cloud/desktop_service.go:284-288 | The first reservation succeeds exactly with a valid claim and room, and makes a session with one reservation |
| `Admission.ReserveSecond` | internal/cloud/desktop_service.go:289-294 | The second can fail only because the claim has expired since |
| `Admission.CancelLast` | internal/cloud/desktop_service.go:292-299 | Taking back the only reservation restores the map |
| `RelayAuthorization.PreparedSidesPair` | internal/cloud/desktop_websocket.go:33-52 | Whichever side joins first on an idle id, the claim prepared for the other side then joins the same relay session and starts the pumps |
| `RelayAuthorization.PreparedClaimIsValid` | internal/cloud/desktop_websocket.go:33-52 | The relay accepts a prepared claim exactly when the reconnect window, if any, is open |
| `RelayAuthorization.PrepareExactly` | internal/cloud/desktop_websocket.go:33-71 | Who is given a claim, condition by condition, and that the claim says what the row says |
| `RelayAuthorization.CreatedSessionTakesBothSides` | internal/cloud/desktop_service.go:280-300 | After a successful Create a claim prepared from the stored row reserves on either side, which changes nothing, and joins |
| `RelayAuthorization.ReservationMeetsStoredClaim` | internal/cloud/desktop_relay.go:364-372 | A claim read back from the store lands on the reservation made before storing, exactly while the epoch is the same and the session is not reconnecting |
| `RelayAuthorization.StaleEventLocksOut` | internal/cloud/desktop_websocket.go:64-71 | A run in which a stale event leaves a joinable session active: a side that asks then is given no claim, and a reconnect or a "disconnected", both possible, makes it joinable again |
| `RelayAuthorization.ActiveReopens` | internal/cloud/desktop_control.go:17-26 | A committed operation takes an active row to a joinable state if and only if it is a reconnect, a lost transport or a "disconnected" |
| `JoinProtocol.RunIsSafe` | internal/cloud/desktop_websocket.go:96-145 | In every run of handlers, session and relay: the relay's and the session's invariants hold, every seat is a handler that joined with that claim, no handler has two seats, no two handlers one credential |
| `JoinProtocol.StepSeats` | internal/cloud/desktop_relay.go:286-423 | No step of the relay touches an endpoint, except that an accepted join fills one free seat with its own |
| `JoinProtocol.EveryEndpointUsedACredential` | internal/cloud/desktop_websocket.go:54-62 | Every endpoint that the relay holds for a session has used a credential of its claim's side and epoch |
| `JoinProtocol.OneSeatPerCredential` | internal/cloud/desktop_websocket.go:96-145 | Two seats, in one relay session or in successive ones, never go back to one credential |
| `JoinProtocol.UsedWhileCurrent` | internal/cloud/desktop_websocket.go:119-125 | A handler past its credential used it at a step of the run when its claim's epoch was the session's and the session had not ended |
| `JoinProtocol.LateJoinExactly` | internal/cloud/desktop_websocket.go:126-142 | In every run a handler past its credential gets its seat if and only if its claim is valid and the relay's session under the id agrees and has the side free, or there is none and there is room; whatever the row says |
| `JoinProtocol.ArriveExactly` | internal/cloud/desktop_websocket.go:101-110 | A connecting side becomes a handler exactly when it is given a claim, and keeps claim, credential and time |
| `JoinProtocol.ReservationExactly` | internal/cloud/desktop_websocket.go:111-118 | In every run a handler gets its reservation if and only if its claim is valid and the relay's session under the id agrees and has the side free, or there is none and there is room |
| `JoinProtocol.UseUpExactly` | internal/cloud/desktop_websocket.go:54-62 | A handler gets past its credential if and only if its claim is valid at its time and the credential is its own, unused, unwithdrawn and unexpired; otherwise it is turned away and nothing else changes |
| `LateJoins.EndedSessionPairs` | internal/cloud/desktop_websocket.go:126-142 | For every request that the relay accepts: a run that comes to a state where the session is terminated, its relay session finished and out of the map, and both handlers past their credentials; in the two steps that follow both join, and the relay starts their pumps |
| `LateJoins.RejectedCredentialBlocksAgent` | internal/cloud/desktop_websocket.go:111-125 | For every such request: a run whose last step turns away a handler whose credential nobody issued, leaves its reservation, and leaves every claim of that agent under another id refused |
| `RevocationCuts.RevocationExactly` | internal/cloud/desktop_relay.go:562-569 | In every run a revocation leaves the relay as it is if and only if the relay does not have the id; otherwise a call of `fail` on the session found there is on its way |
| `RevocationCuts.RevocationCloses` | internal/cloud/desktop_relay.go:540-569 | In every run, once that call has run, the session found there is finished for good and every endpoint it held is closed exactly once, whatever epoch the revocation was meant for |
| `StaleCut.StaleOfferClosesNewer` | internal/cloud/desktop_session_handlers.go:456-464 | For every request: a run with epoch 2 paired in the relay and active in the store, whose last two steps are the revocation of epoch 1's failed offer and its call, after which epoch 2's connections are closed |
| `SessionStore.Store.TransitionDesktopSession` | internal/store/desktop_sessions.go:74-131 | Commits exactly when the state is in the source list and the transition is legal; a terminal state needs a reason and withdraws the unused credentials; nothing else changes |
| `SessionStore.Store.BeginDesktopReconnect` | internal/store/desktop_sessions.go:133-190 | Commits exactly under the expected epoch and a live connection; next epoch, old credentials withdrawn, two new ones |
| `SessionStore.Store.MarkDesktopTransportLost` | internal/store/desktop_sessions.go:192-218 | Commits exactly for an active session of the expected epoch |
| `SessionStore.Store.ConsumeDesktopJoinCredential` | internal/store/desktop_sessions.go:220-266 | Uses up one matching credential, or none matches and nothing changes |
| `SessionStore.Store.ExpireDesktopSessions` | internal/store/desktop_sessions.go:496-551 | Every overdue row expires, no other row changes, and the count is that of the overdue rows |
| `SessionLifecycle.RunIsSane` | internal/cloud/desktop_control.go:91-128 | In every run at most one transition into a terminal state has committed, the epoch is one plus the committed reconnects and never wraps, and usable credentials are of the current epoch of a live session |
| `SessionLifecycle.StepKeeps` | internal/cloud/desktop_service.go:191-278 | Every read, update, offer, reservation, revocation, sweep and credential use keeps that invariant, in which no operation is ahead of its session and only a failed offer revokes a session that has not ended |
| `SessionLifecycle.CommitIsGood` | internal/store/desktop_sessions.go:74-218 | Every committed update starts from a live row, keeps credentials current and raises the epoch exactly when it is a reconnect |
| `SessionLifecycle.TerminalIsFinal` | internal/cloud/desktop_control.go:203-213 | Nothing about the row or its history changes after a terminal state, however often events are replayed |
| `SessionLifecycle.StepEpoch` | internal/cloud/desktop_service.go:191-229 | A step changes the epoch only by one and only by committing a reconnect of the current epoch |
| `SessionLifecycle.EpochMonotone` | internal/cloud/desktop_service.go:191-229 | The key epoch never decreases along a run |
| `SessionLifecycle.OnlyCurrentCredentials` | internal/store/desktop_sessions.go:220-266 | In every run a credential can be used only in the current epoch of a live session |
| `SessionLifecycle.CredentialUsedOnce` | internal/store/desktop_sessions.go:220-266 | A credential used in a run can never be used again, whatever claim presents it |
| `LifecycleLaws.CommitExactly` | internal/cloud/desktop_control.go:17-26 | In every run each operation carried out has exactly its written-out outcome: ready takes offered to ready for the agent, connected takes three states to active, disconnected takes active to reconnecting, an error fails and a "terminated" terminates any live session with its reason and withdrawn credentials; offers, failed offers, terminations, losses and reconnects likewise; otherwise the row stays |
| `LifecycleLaws.EveryOpWasAsked` | internal/cloud/desktop_control.go:87-128 | In every run each pending operation was asked for at an earlier step by someone entitled to it: events by the session's own home and agent in its epoch and with their default reasons, reconnects and terminations by its operator, losses of its own active epoch, revocations by a failed offer or an ended session |
| `LifecycleLaws.AskedIsPending` | internal/cloud/desktop_service.go:191-278 | And whatever is so asked for becomes pending |
| `LifecycleLaws.EndingIsPassedOn` | internal/cloud/desktop_control.go:114-126 | A committed error, "terminated" or termination, and a failed offer either way, go on to revoke the session at the relay |
| `LifecycleLaws.EndIsNoticed` | internal/cloud/desktop_control.go:102-110 | A terminal event or a termination of an ended session changes nothing in the store and revokes it at the relay |
| `LifecycleLaws.RevokedTrustIsPassedOn` | internal/store/desktop_trust.go:242-253 | Ending a session by revoked trust goes on to revoke it at the relay |
| `LifecycleLaws.SweepExactly` | internal/store/desktop_sessions.go:496-551 | The sweep ends exactly the rows whose time is over, each with its own reason |
| `LifecycleLaws.RevokedTrustExactly` | internal/store/desktop_trust.go:242-253 | Revoked trust ends exactly a session that has not ended |
| `LifecycleLaws.UseExactly` | internal/store/desktop_sessions.go:220-266 | A credential is used exactly when hash, side and epoch are its own and it is unused, unwithdrawn and unexpired |
| `LifecycleLaws.IdentityStays` | internal/store/desktop_sessions.go:74-218 | In every run home, agent, operator and expiries of a session are those it was created with |
| `StaleCommits.OlderEpochExactly` | internal/cloud/desktop_control.go:87-116 | In every run a pending operation of an older epoch leaves the newer session's row and relay alone if and only if: for an event, the state is outside its source states; for a failed offer's update, the session is not reconnecting; for a reservation, the relay has the session or no room; for a revocation, the relay does not have it; always for reconnects and transport losses |
| `StaleCommits.StaleOfferExactly` | internal/cloud/desktop_session_handlers.go:456-464 | For the update at step i and the revocation at step j of a failed offer of an older epoch, with any steps in between: the two leave the newer session's row and relay alone if and only if at i the store fails or the session is not reconnecting, and at j the relay does not have it |
| `StaleCommits.StaleEventWitness` | internal/cloud/desktop_control.go:87-116 | A concrete run in which a stale "connected" activates the newer session |
| `StaleCommits.StaleOfferFailsSession` | internal/cloud/desktop_session_handlers.go:456-464 | A concrete run in which the failed offer of epoch 2 fails the reconnecting session of epoch 3 |
| `StaleCommits.StaleOfferCutsConnection` | internal/cloud/desktop_session_handlers.go:456-464 | A concrete run in which the failed offer of epoch 2 is refused by the store and still ends the live relay session of epoch 3 |
| `StaleCommits.StaleRevocationOvertaken` | internal/cloud/desktop_session_handlers.go:456-464 | A concrete run in which the update leaves an active session outside the relay alone, the session enters the relay, and the revocation then cuts it off |
| `StaleCommits.StaleReservationBlocks` | internal/cloud/desktop_websocket.go:102-112 | A concrete run whose last step makes the reservation of a claim of epoch 2 in an empty relay while the session is in epoch 3, and keeps epoch 3 out |
| `StaleCommits.ReconnectLeavesOldEpoch` | internal/cloud/desktop_service.go:191-229 | A concrete run in which epoch 2 is in the relay in time, the last two steps reconnect to epoch 3, and epoch 2 keeps it out |
| `StaleCommits.EpochHoldsRelay` | internal/cloud/desktop_relay.go:338-362 | In every run the epoch in the relay stays until the relay ends it or someone revokes |
| `StaleCommits.CurrentReservationExactly` | internal/cloud/desktop_relay.go:338-362 | In every run a reservation of the current epoch leaves the relay with that epoch if and only if it was there already, or the relay had nothing and there was room |
| `CertificateChain.FindVoucher` | internal/cloud/desktop_session_handlers.go:418-425 | Some stored, unrevoked, unexpired identity vouches for the certificate, if and only if the loop says so |
| `CertificateChain.ChainIsActive` | internal/cloud/desktop_session_handlers.go:398-438 | The bounded walk accepts if and only if there is a complete issuer chain of at most nine active certificates with pairwise distinct identities |
| `CertificateChain.ChainIsUnique` | internal/cloud/desktop_session_handlers.go:398-438 | Two chains above one certificate are the same chain |
| `CertificateChain.RevocationReachesBelow` | internal/cloud/desktop_session_handlers.go:398-438 | Revoking any identity on a chain leaves the certificate at its bottom untrusted |
| `CertificateChain.TrustedEarlier` | internal/cloud/desktop_session_handlers.go:398-438 | What is trusted now was trusted at every earlier time, with the same stored identities |
| `CertificateChain.TrustedUntil` | internal/cloud/desktop_session_handlers.go:398-438 | Trust lasts exactly as long as every link of the chain has a voucher that has not expired |
| `CertificateChain.TrustNeedsIdentity` | internal/cloud/desktop_session_handlers.go:418-425 | Behind a trusted certificate stands a stored identity with its id, public key and bytes, of this home and generation, unrevoked and unexpired |
| `CertificateChain.RootIsTrusted` | internal/cloud/desktop_session_handlers.go:429-431 | With such an identity and no issuer a certificate is trusted |
| `CertificateChain.TenAreTooMany` | internal/cloud/desktop_session_handlers.go:401-439 | Ten certificates in a row are refused whatever stands behind them |
| `CertificateChain.CirclesAreRefused` | internal/cloud/desktop_session_handlers.go:413-417 | A certificate whose issuers come back to an identity is refused |
| `Readiness.ReadinessBoard.SetCheck` | internal/cloud/desktop_session_handlers.go:173-178 | First non-empty writer of a check wins |
| `Readiness.ReadinessBoard.ApplyEvent` | internal/cloud/desktop_session_handlers.go:172-217 | One event applies its settings in its own order |
| `Readiness.ReadinessBoard.ApplyEvents` | internal/cloud/desktop_session_handlers.go:133-147 | The loop over the events, newest first, gives the checks of replaying all settings from the oldest, overwriting, and each check the value of the newest event that says anything about it |
| `Readiness.ScanIsReplay` | internal/cloud/desktop_session_handlers.go:172-217 | First-writer-wins from the front equals overwriting from the back, over any base and any settings |
| `Readiness.EventSays` | internal/cloud/desktop_session_handlers.go:172-217 | What an event's settings come to for each check, by a table read from the check's side, with the second sources for capture and host |
| `Readiness.NewestDecides` | internal/cloud/desktop_session_handlers.go:133-147 | Each check has the value of the newest event that says anything about it, else its base value |
| `Transfer.Client.StartUploadTransfer` | internal/agent/transfers.go:143-176 | Opening cuts the file back to the offset or refuses an offset beyond it |
| `Transfer.Client.HandleTransferData` | internal/agent/transfers.go:40-67 | A chunk is written only at the held size; a broken write keeps the bytes that arrived and forgets the transfer |
| `Transfer.Client.HandleTransferComplete` | internal/agent/transfers.go:69-104 | Completion forgets the transfer and replies by the final offset |
| `Transfer.RejectedChangesNothing` | internal/agent/transfers.go:52-58 | A rejected chunk changes nothing; a chunk is taken if and only if it stands at the held size |
| `Transfer.OpenExactly` | internal/agent/transfers.go:143-176 | Opening succeeds exactly at an offset within the file, cuts it there, replaces an earlier transfer of the id, and touches no other path or transfer |
| `Transfer.DataExactly` | internal/agent/transfers.go:40-67 | A chunk is refused, written at the held size, or written in part with the transfer forgotten; no other path or transfer is touched |
| `Transfer.WriteAtBytes` | internal/agent/transfers.go:60-66 | What a write does to each byte of a file |
| `Transfer.CompleteExactly` | internal/agent/transfers.go:69-104 | Completing forgets the transfer whatever it answers, answers by found, offset and close, and touches no file and no other transfer |
| `Transfer.NeverCorrupt` | internal/agent/transfers.go:40-67 | Once a transfer has begun at an offset up to which the file is the source's: for any messages in any order and number, with breaks and re-openings anywhere, the file is a prefix of the source |
| `Transfer.BeginsFaithfulExactly` | internal/agent/files/service.go:1236-1282 | An opened transfer stands on the source if and only if what it keeps of the file is the source's; at offset zero it always does |
| `Transfer.WriteExactly` | internal/agent/transfers.go:60-66 | Writing genuine bytes keeps a prefix of the source a prefix if and only if the gap before them, if any, is zero in the source |
| `Transfer.MessageExactly` | internal/agent/transfers.go:40-104 | With any number of transfers of one source on a path, a message keeps the file a prefix of the source if and only if it does not write past such a gap |
| `Transfer.ManyTransfersExactly` | internal/agent/transfers.go:40-104 | Any number of transfers of one source on a path, interleaved in any way: the file is a prefix of the source throughout if and only if no message writes past a gap |
| `Transfer.DoneIsRightExactly` | internal/agent/transfers.go:69-104 | With any transfers on the path, a completion reply is for the right file if and only if the file is a prefix of the source as long as the transfer's own count |
| `Transfer.TruncatedCompletes` | internal/agent/transfers.go:143-176 | A concrete run without any gap in which a second opening empties the file and the first transfer still gets its completion reply |
| `Transfer.TwoUploadsCorrupt` | internal/agent/transfers.go:143-176 | A concrete run of two uploads to one path that ends in a completion reply for a corrupt file |
| `Transfer.CompletionIsExact` | internal/agent/transfers.go:69-104 | A completion reply is sent exactly when the final offset equals the bytes held, and then the file is the source up to it |
| `Transfer.StreamDownload` | internal/agent/transfers.go:178-237 | Any schedule of short reads sends consecutive chunks of the source, never past the requested end; the announced offset is that end; reads that all move finish |
| `Transfer.StreamRebuildsSlice` | internal/agent/transfers.go:178-237 | A whole stream fed to a receiver at its first offset makes the file the source up to the stream's end |
| `Transfer.ResumeKeepsAll` | internal/agent/files/service.go:1236-1282 | Opening at the held size keeps everything held |
| `Transfer.ResumedTransferCompletes` | internal/agent/transfers.go:143-237 | After any history: resume at the held size, stream on, complete; the reply is sent and the file is exactly the source up to the stream's end |
| `Terminal.TerminalSession.Append` | internal/agent/terminal.go:105-121 | The window stays output[base..cursor] within the limit, with the base as far back as the limit allows |
| `Terminal.TerminalSession.Attach` | internal/agent/terminal.go:182-200 | Returns the longest retained suffix after the given cursor, for any cursor |
| `Terminal.ReattachExactly` | internal/agent/terminal.go:182-200 | A reply completes what came before its cursor to the whole output if and only if the cursor is at most the limit behind, and otherwise misses exactly the dropped bytes |
| `TerminalClient.TerminalStore.ReceiveEvent` | web/dashboard/src/api/terminalStore.ts:124-134 | Appends any event ahead of the cursor and moves the cursor to it, with or without a gap |
| `TerminalClient.TerminalStore.ReceiveAttached` | web/dashboard/src/api/terminalStore.ts:82-90 | Appends a reply exactly when the cursor has not moved since the request |
| `TerminalClient.RecoversExactly` | web/dashboard/src/api/terminalStore.ts:75-134 | In every run of client and agent, with late and lost events and any number of attaches in flight, the client has the printed output up to its cursor, each byte once and in order, if and only if no delivered event started ahead of its cursor and no reply it took came from more than the limit behind |
| `TerminalClient.OrderIsContent` | web/dashboard/src/api/terminalStore.ts:75-134 | In that case its output is, byte for byte, what was printed up to its cursor |
| `TerminalClient.NoStraddle` | internal/agent/terminal.go:109-121 | No event straddles a client's cursor, so an event ahead of it starts there or leaves a gap |
| `TerminalClient.NoLossNoGap` | web/dashboard/src/api/terminalStore.ts:124-134 | A client that misses no event and whose replies come from within the limit always has the output |
| `TerminalClient.OvertakenReplyLosesOutput` | web/dashboard/src/api/terminalStore.ts:82-90 | A concrete run, step by step: a client two bytes behind has a full answer on its way that would do, a live event overtakes it, the answer arrives and is dropped, and the first byte is lost for good |
| `Terminal.TerminalManager.Open` | internal/agent/terminal.go:69-103 | Opens exactly when enabled, the id is free, there is room and the shell starts |
| `Terminal.TerminalManager.Close` | internal/agent/terminal.go:202-221 | Removes the session and shuts its terminal once |
| `Terminal.TerminalManager.RemoveExited` | internal/agent/terminal.go:147-157 | Acts only on the very session it was started for |
| `Terminal.TerminalManager.CloseAll` | internal/agent/terminal.go:233-243 | Every session that was there is shut exactly once |
| `EnvFile.RoundTrip` | internal/agent/config_manager.go:567-607 | Parsing the printed form gives the map back if and only if the map is well-formed |
| `EnvFile.ParseIsWellFormed` | internal/agent/config_manager.go:567-591 | Whatever the file holds, what is read from it is well-formed |
| `EnvFile.ParsePrintedLine` | internal/agent/config_manager.go:578-589 | A printed line of a good key and value parses back to them |
| `EnvFile.ParseLineExactly` | internal/agent/config_manager.go:578-589 | A line binds if and only if, trimmed, it is not empty, does not start with '#' and has an '='; the key is what stands before the first '=', trimmed, the value all that follows |
| `EnvFile.OnlyCountingLines` | internal/agent/config_manager.go:578-589 | All other lines can be dropped without changing what is read |
| `EnvFile.IdleLine` | internal/agent/config_manager.go:578-589 | In a file, any one of them can be taken out |
| `EnvFile.LastLineWins` | internal/agent/config_manager.go:589 | Of two lines with one key the later one is read |
| `EnvFile.SortedKeys` | internal/agent/config_manager.go:598-602 | Lists the keys in strictly increasing order, all of them |
| `EnvFile.SortedIsUnique` | internal/agent/config_manager.go:598-602 | There is only one such listing, so the text is determined by the map |
| `EnvFile.Print` | internal/agent/config_manager.go:597-607 | The text is one line a sorted key and reads back as the map exactly when that is well-formed |
| `EnvFile.ParsePrinted` | internal/agent/config_manager.go:567-607 | For any values, with or without line breaks, parsing the printed text is reading back value by value |
| `EnvFile.ReadBackAt` | internal/agent/config_manager.go:567-607 | What is read back for a key is the last word about it, in its own line or in a line of some value |
| `EnvFile.KeySurvivesExactly` | internal/agent/config_manager.go:567-607 | A key with a good value, or one not in the map, reads back as it is if and only if the last value with a line that binds it is printed before it or binds it to what it is |
| `AgentConfig.ConfigManager.ReadEnvFile` | internal/agent/config_manager.go:567-591 | The loop computes the parse of the file, which is well-formed |
| `AgentConfig.ConfigManager.WriteEnvFile` | internal/agent/config_manager.go:597-607 | The file then reads back as the map exactly when that is well-formed |
| `AgentConfig.ConfigManager.PersistFileConfigs` | internal/agent/config_manager.go:548-565 | Every key outside the SMB keys (and the folder keys, when asked) reads back unchanged; the legacy keys are gone; the JSON lists are there exactly when given |
| `AgentConfig.ConfigManager.PersistHomeAssistant` | internal/agent/config_manager.go:417-431 | The file reads back as meant if and only if the trimmed address has no line break and the token no line break and no white space at its end; any other key is unchanged if and only if no value spoils it, and none is without line breaks |
| `AgentConfig.HomeAssistantWellFormed` | internal/agent/config_manager.go:417-431 | The new map is well-formed if and only if the two texts are, and no other key changes in it |
| `AgentConfig.TokenRewrites` | internal/agent/config_manager.go:417-431 | A token with a second line rewrites any key that is printed before it |
| `AgentConfig.TokenRewritesRoot` | internal/agent/config_manager.go:417-431 | For example the agent's file root, which the handler does not touch |
| `AgentConfig.DecimalReads` | internal/agent/config_manager.go:427-429 | The printed timeout reads as the number |
| `AgentConfig.ConsolidateKeepsRest` | internal/agent/config_manager.go:457-499 | Replacing legacy keys by a JSON list takes them out, leaves the other keys alone and the map well-formed |
| `Chunker.ChunkAssistantText` | internal/cloud/assistant_indexing.go:462-483 | Chunks are trimmed, non-empty and within the limit, each cut where the rule says, separated only by white space; with white space deleted they are the argument; the number of cuts is bounded by the length over a third of the limit |
| `Chunker.CutPrefersLineBreaks` | internal/cloud/assistant_indexing.go:470-476 | A cut is the last line break past the first third of the window if there is one, else the last blank there, else the limit |
| `Chunker.CutIsInside` | internal/cloud/assistant_indexing.go:470-476 | Each cut takes off at least a third of the limit and at least one character, at most the limit |
| `Chunker.Cut` | internal/cloud/assistant_indexing.go:477-478 | A cut of a trimmed text gives a non-empty trimmed chunk and a non-empty shorter trimmed rest |
| `Chunker.CutMovesExactly` | internal/cloud/assistant_indexing.go:469-479 | A pass of the loop shortens the text if and only if the limit is at least one; at zero the chunk is empty and the text stays |
| `PathPolicy.PrefixIsAncestor` | internal/cloud/file_policy.go:168-176 | The string test holds if and only if the prefix's list of names begins the path's |
| `PathPolicy.RenderIsInjective` | internal/cloud/file_policy.go:168-171 | Different cleaned paths have different strings |
| `PathPolicy.UpUndoes` | internal/cloud/file_policy.go:168-171 | A name and ".." after it, anywhere in a path, change nothing |
| `PathPolicy.UpAtRoot` | internal/cloud/file_policy.go:168-171 | ".." at the root stays at the root |
| `PathPolicy.IdlePieces` | internal/cloud/file_policy.go:168-171 | Empty and "." pieces, anywhere in a path, change nothing |
| `PathPolicy.CleanIsNormal` | internal/cloud/file_policy.go:168-171 | Clean names are their own normal form |
| `PathPolicy.NamesOfRendered` | internal/cloud/file_policy.go:168-171 | A cleaned path that does not end in white space denotes the names it was rendered from |
| `PathPolicy.UpIsIdleExactly` | internal/cloud/file_policy.go:168-171 | In path strings, going into a directory and back out changes nothing if and only if more of the path follows or the front does not end in white space |
| `PathPolicy.AnyPrefix` | internal/cloud/file_policy.go:151-155 | The loop finds a listed directory that is the path or above it, if and only if there is one |
| `PathPolicy.Decide` | internal/cloud/file_policy.go:136-166 | The decision in terms of directories: the action's own switch first, block beats allow, an empty allow list allows all |
| `PathPolicy.BlockReachesDescendants` | internal/cloud/file_policy.go:150-155 | What covers a directory covers every path below it |
| `PathPolicy.RootCoversAll` | internal/cloud/file_policy.go:173-176 | A prefix that denotes the root matches every path |
| `PathPolicy.DetoursChangeNothing` | internal/cloud/file_policy.go:136-176 | The decision about a path with a detour through a directory is the decision about the path without it |

## Left out

- PostgreSQL, SQL text, migrations and pruning: each store call is one guarded atomic update.
- HTTP handlers, cookies, WebSocket and JSON libraries, metrics, audit rows and logging.
- Signatures, hashing, key parsing and certificate encoding: decoding a certificate is a given partial function, credentials are compared by a given hash.
- JoinProtocol.RunIsSafe: one session id is watched at a time; other ids join the relay without handlers of their own.
- Real time, fairness and liveness: timers and context ends may happen at any step, so no deadline of the join, reconnect, hard-expiry, idle or grace timers is claimed; `ParkedPumpIsServed` is about enabled steps only.
- A claim that the join timer spares a session that pairs at the same moment: the test and the call of `fail` are two steps.
- The loops of `enqueue`, `next`, `readPump` and `writePump` are modelled as positions of the two pumps in `RelayLane`, since they wait for each other between critical sections; only the critical sections are class methods.
- Handlers of agent events, Reconnect, Terminate, offers, joins and relay closes are read steps and commit steps of `SessionLifecycle`, not methods. There the relay is the epoch registered under the session's id, which may end at any step; `JoinProtocol` has the full relay machine in its place, with the session's revocations as steps of it.
- The relay's snapshots, connected flags and the unavailable stand-in relay, and which side's slot a refused `Join` closes in its caller.
- Ownership of a reservation across successive sessions that share id and epoch: `CancelReservation` matches on id, epoch and side only.
- Admission.DesktopService.Create: models the part after the identity and permission checks; ids are fresh, the two tokens arrive already trimmed, and nothing else uses the relay during the call.
- SessionStore.Store.ConsumeDesktopJoinCredential: takes the first matching credential of the row; the hash column's uniqueness across sessions is not modelled.
- Session reasons are taken as already trimmed, and reason-code, metadata and permission validation of events is left out.
- Letters and digits of resource ids are ASCII and white space is Latin-1; UTF-8 boundaries in the chunker and the terminal are not modelled, text being a sequence of characters.
- `filepath.Clean` is rooted lexical normalisation over names; Windows separators are not modelled.
- File-system errors other than a broken write or close, SMB sources, and the temporary file and rename of the env writer; a missing env file is an empty one.
- Transfer.NeverCorrupt: one transfer id per path and chunks cut from one source; for several ids on one path `ManyTransfersExactly` has the condition.
- Transfer.CompletionIsExact: the same, one transfer id per path; for several `DoneIsRightExactly` has the condition.
- Transfer.ResumedTransferCompletes: the same, one transfer id per path.
- Errors of the store are the one step `StoreFails` of `SessionLifecycle`; which errors come together, as when a cancelled request fails both an offer and its update, is not modelled.
- SessionStore.Store.TransitionDesktopSession: the row has no activation and termination times, and no audit event is appended.
- TerminalClient.TerminalStore.ReceiveEvent: connection status, exit codes and errors of the dashboard's snapshot are left out, text is bytes, and events reach a client in their order, each at most once.
- Cleanup by id alone in move jobs and in `deleteDownload`.
- AgentConfig.ConfigManager.PersistFileConfigs: the JSON texts are inputs without line breaks or trailing white space, as the encoder makes them.
- Terminal.TerminalManager.CloseAll: the closes follow each other without another operation in between; process signals and exit codes are left out.
- Chunker.ChunkAssistantText: a limit below one is excluded for non-blank text, where the loop does not end.
- Upload size limits, policy parsing and the mapping from commands to policy checks.
- Prompt matching, language-model providers, media search, calendar parsing, OAuth, token and ticket registries, alerts and retry delays: few deep properties.
