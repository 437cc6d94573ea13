# Millennium OES: a verified model of the order pipeline

This project models the order pipeline of `millennium-oes` in Dafny and proves properties of it:
the engine that processes submit, cancel, replace and fill events; the write-ahead log it appends
to and replays; the single-producer single-consumer ring that feeds it; the FIX tag=value codec
that talks to the broker; and the rolling risk metrics.

`dafny verify dfyconfig.toml` checks everything.

| file | models | holds |
|---|---|---|
| `Arith.dfy`, `Bits.dfy`, `Words.dfy` | machine arithmetic | division facts, bitwise operators, wrap-around, little-endian fields |
| `Crc32.dfy`, `CrcValues.dfy`, `Wal.dfy` | `wal/wal.go` | checksum, values of it, record codec, scanner, log object |
| `Orders.dfy`, `Symbols.dfy` | `engine/types.go`, payload codec and symbol hash of `engine/engine.go` | orders, events, stored payload; the hash and what it tells apart |
| `Ring.dfy` | `engine/ringbuffer.go` | interleaved protocol, ring object |
| `Interleaved.dfy`, `InterleavedRuns.dfy`, `EveryInterleaving.dfy` | `engine/engine.go` over `engine/ringbuffer.go` | producer, ring and event loop step by step; every interleaving as a run of the engine with its queue; the results about runs for every interleaving |
| `Engine.dfy`, `Pipeline.dfy` | `engine/engine.go` | handlers, producer calls and event loop as functions on states |
| `OrderEngine.dfy` | `engine/engine.go` | the engine object with its arrays, ring and log |
| `Replay.dfy` | `ReplayWAL` | rebuilding the store from a log |
| `Fills.dfy`, `Averages.dfy`, `Conservation.dfy`, `Lifecycle.dfy`, `Runs.dfy`, `Guarantees.dfy`, `Ids.dfy`, `Simulation.dfy`, `EngineLogs.dfy`, `Outcomes.dfy`, `Calls.dfy` | `engine/engine.go` with the log | results about fills, about whole runs, about every turn of a run and about what calls publish |
| `Torn.dfy` | `Open` of `wal/wal.go` with the engine | what is appended behind a torn record |
| `Fix.dfy` | `fix/client.go` | message printing, framing and parsing, client object |
| `Risk.dfy`, `RiskLaws.dfy` | `risk/tracker.go` | drawdown, return window, history, tracker object; what the figures mean |

## How the pieces fit

Code that updates things in place is a class whose methods are tied to functions on values: the
state of the engine is `Engine.State`, that of engine and queue together `Pipeline.World`. The
state carries a *trace*: records appended to the log and orders handed to the broker, in the
order it happened. `Runs` lets the environment take any step at any time (submissions, cancels,
fills, kill switch, P&L changes, one turn of the event loop with any broker answer and any clock,
and a crash between any two effects of the event in hand followed by a restart), so a lemma about
every run is a lemma about every reachable state. `Runs` takes a submission and a turn as one step
each; `Interleaved` breaks them up into the kill-switch load, the id counter, the loads, stores and
slot accesses of the ring, the handler's own look at the switch, and what it does then. Every
interleaving of these is a run (`InterleavedRuns.InterleavingIsRun`), so `EveryInterleaving` has the
results about runs for them as well.

`Outcomes`, `Calls`, `Symbols`, `CrcValues` and `RiskLaws` tell what the operations do without the
functions that compute it: by the codes, constants and formulas of the source and the standards.

Inputs of the model: the clock, the day of the month, the broker's answers and the daily P&L.

## Where the obvious statement is false

- *An append is always readable later.* `Open` keeps a torn tail. `Torn.OrdersSurviveIff`: the
  record of every order survives being appended exactly when no bytes are left over after the
  records the scanner finds. `Torn.TornRestartLosesOrder`: after a restart on a torn file the next
  order of another slot or time reaches the broker, but its record is never read back in its place.
- *A record reads back.* The length is cut to 16 bits. `Wal.RecordReadsBackIff`: exactly when the
  data is shorter than 65536 bytes.
- *Submitted ids are distinct and nonzero.* Two things break it. The counter is a 32-bit word:
  in one life of the process the ids taken are nonzero and distinct exactly while fewer than 2^32
  are taken (`Ids.IdsOfOneLifeAreGoodIff`), and two calls get the same id exactly when a multiple
  of 2^32 ids was taken between them (`Ids.SameIdIff`). And a restart recovers the counter from the
  logged orders only: an id can be handed out after a restart exactly when the log at the crash
  holds no order at or above it (`Ids.IssuedAgainIff`). A rejected or unprocessed order is not in
  the log, so two calls around a crash can both get id 1 (`Ids.RestartRepeatsId`).
  The other run results stop submitting once the counter has come round to zero.
- *The ring works for ever.* Order, loss and overwriting never go wrong
  (`Ring.ConsumedIsPrefixOfPublished`, for runs of any length), but the positions are compared as
  64-bit words: a consume comes back empty exactly when nothing is unread or 2^64 events have been
  published (`Ring.AnswersAreExact`), so no run ever consumes 2^64 events
  (`Ring.NoRunConsumesAWord`).
- *Replay restores the full state* (`millennium-oes/PRESENTATION.md:152`).
  `Simulation.ReplayFollowsIff`: the log keeps agreeing with the engine exactly when an event is
  not a submission the broker refuses, a cancel that takes a leg with it, a replace that changes
  the terms, or a fill that leaves the order incomplete. Two of these cannot happen today: no code
  links orders, and in every run every order stays without legs (`EngineLogs.OrdersStayUnlinked`);
  and no code publishes a replace. Filled quantities and positions are never restored. The comment
  at `millennium-oes/internal/engine/engine.go:505-506` says orders are sent before they are logged;
  the code logs first, and the model follows the code.
- *With the kill switch on, nothing is sent.* The handler looks at the switch
  (`millennium-oes/internal/engine/engine.go:311`) before it logs and sends, and the switch is set
  from another goroutine. `EveryInterleaving.SwitchComesTooLate` has the interleaving in which an
  order goes out with the switch on, `Interleaved.SwitchLetsOneThrough` when: exactly the order
  whose handler was past its look when the switch went on, so at most one.
- *A partly filled order has something left to fill.* A replace that takes the quantity down to
  what is filled leaves the status as it is (`Outcomes.ReplaceUndercuts`).
  `Outcomes.PartlyFilledOverRun`: something is left exactly if no replace since the last fill gave
  a quantity, or the last one gave more than was filled. No code publishes a replace today.
- *A complete order stays complete.* `Lifecycle.CompleteStaysCompleteIff`: exactly when the filled
  quantity does not wrap its 32-bit word, or wraps and is still not below a negative order
  quantity.
- *A sent message is read back.* `Fix.ReadsBackIff`: exactly when the texts hold no separator, the
  tags no `=`, and no field trips the end test of the reader; `Fix.Trips` says which do: four to
  seven characters that start with `10=`, the text `10=` seven characters before the end, or a
  field of at most three characters behind one with `10=` at its end.
- *The online drawdown is the largest fall from a value to a later one.* True for every series
  without negative values, from any start. In general `Risk.DrawdownStaysRightIff`: at every point
  exactly when every update is harmless, which can be tested before it: a negative value must not
  meet a zero peak, nor fall further from the lowest positive value so far than from the peak and
  than the figure already says. The gateway passes positive values only
  (`millennium-oes/internal/gateway/gateway.go:168`).

## Model

| member | source | states |
|---|---|---|
| Guarantees.EndToEndDurability | millennium-oes/internal/engine/engine.go:324-348 | for every run from a well-formed log, with restarts on files without a torn record, and every crash that ends it, between effects or inside an append, each order handed to the broker is found by scanning and replaying the file, with the fields it was sent with and a live or final status |
| Guarantees.SentComesBack | millennium-oes/internal/engine/engine.go:495-526 | replaying the records up to any point after a broker call gives back the order of that call |
| Guarantees.CrashImageReadsBack | millennium-oes/internal/wal/wal.go:126-180 | the scanner reads a crash image, torn or not, as the records completed before the crash |
| Guarantees.FileOfTrace | millennium-oes/internal/wal/wal.go:95-124 | a file that held entries and then received the records of a trace is the encoding of both in order |
| Guarantees.LoggedThenSentInOrder | millennium-oes/internal/engine/engine.go:324-347 | over any run, new-order records have strictly increasing usable ids, each broker call directly follows the record of its own order, and broker calls have strictly increasing ids |
| Ids.AcceptedIdsAreDistinct | millennium-oes/internal/engine/engine.go:124-144 | two accepted submissions get different, nonzero, in-range ids, in order, if every restart between them finds a log with an order at or above the first |
| Ids.StaysAboveIff | millennium-oes/internal/engine/engine.go:511-513 | the counter stays above an id that was handed out exactly when every restart finds such a log |
| Ids.RecoveredAboveIff | millennium-oes/internal/engine/engine.go:495-526 | after replaying any log the counter is above an id exactly when the log holds an order in range at or above it |
| Ids.IssuedAgainIff | millennium-oes/internal/engine/engine.go:124-144 | after a restart some run is answered with an id exactly when the log at the crash holds no order at or above it |
| Ids.RestartRepeatsId | millennium-oes/internal/engine/engine.go:304-321 | a rejected order, a crash and one more call give the same id twice |
| Ids.SubmissionsAreProcessedOnce | millennium-oes/internal/engine/engine.go:239-251 | submissions are processed in strictly increasing id order, so each at most once, if every restart between finds a log with an order at or above the earlier one |
| Ids.IdsOfOneLifeAreGoodIff | millennium-oes/internal/engine/engine.go:124-133 | from a fresh counter, the ids taken by the calls of one life are nonzero and pairwise different exactly while fewer than 2^32 are taken |
| Ids.SameIdIff | millennium-oes/internal/engine/engine.go:124-144 | two calls of one life are answered with the same id exactly when a multiple of 2^32 ids was taken between them |
| Ids.CounterCounts | millennium-oes/internal/engine/engine.go:130 | in one life the counter is the number of ids taken, modulo 2^32, ahead |
| Guarantees.GateIsExact | millennium-oes/internal/engine/engine.go:299-347 | an event adds a new-order record exactly when it is a submission within the size limit, with the kill switch off and the P&L not below the limit; then the broker gets the terms of the event, after the record |
| Guarantees.GateHoldsOverRun | millennium-oes/internal/engine/engine.go:239-347 | over any run, restarts included, every order sent was added by a turn, whole or cut short by a crash, whose state passed every risk check, for an event published by an accepted call with those terms |
| Guarantees.KilledEngineSendsNothing | millennium-oes/internal/engine/engine.go:309-314 | in runs that take a turn as one step, no order is sent and no new order is logged while the kill switch stays on, whatever was queued before |
| Interleaved.SwitchLetsOneThrough | millennium-oes/internal/engine/engine.go:309-347 | under every interleaving, from the moment the switch goes on until it goes off or a restart, an order is logged or sent exactly when its handler was past its look at the switch then and has gone on since; so there is at most one record and one call, with the terms of the event in hand |
| Interleaved.MoveWithSwitchOn | millennium-oes/internal/engine/engine.go:309-314 | with the switch on no move but that handler's changes the trace of orders, and no handler gets past its look |
| EveryInterleaving.SwitchComesTooLate | millennium-oes/internal/engine/engine.go:311-343 | from any system with a passing submission in hand: its handler looks, the switch goes on, and then the order is logged and sent |
| EveryInterleaving.FreshReachesHand | millennium-oes/internal/engine/engine.go:124-144 | such a system is reached from a fresh engine and an empty ring, step by step |
| EveryInterleaving.SentPassedItsLook | millennium-oes/internal/engine/engine.go:299-347 | over every interleaving each order sent was sent by a handler whose look, at the switch and the P&L as they were then, passed every risk check, with the terms of its event |
| Simulation.ReplayFollowsIff | millennium-oes/internal/engine/engine.go:280-463 | if replaying the log gives the live stored fields and status of every slot before an event, it does so after it exactly when the event takes none of the unrecorded branches |
| Simulation.ReplaySimulatesEngine | millennium-oes/internal/engine/engine.go:495-526 | in a run without those branches, from any log the engine can have written and over any number of restarts, at every point replay gives every logged order its live stored fields and status, and the slots not in the log are exactly the empty and rejected ones |
| Simulation.RecoveryIsInStep | millennium-oes/internal/engine/engine.go:495-526 | a restart from such a log is in agreement with it |
| EngineLogs.EveryRunIsGrounded | millennium-oes/internal/engine/engine.go:280-463 | every run from such a log, whatever branches its turns take, keeps it one, and every order that is neither empty nor rejected has a record |
| EngineLogs.LogOfGrounded | millennium-oes/internal/engine/engine.go:495-526 | so the log of every run from an empty file is such a log |
| EngineLogs.OrdersStayUnlinked | millennium-oes/internal/engine/engine.go:376-391 | in every run no order has legs |
| EngineLogs.CancelIsFaithful | millennium-oes/internal/engine/engine.go:376-391 | without legs every cancel keeps log and engine in agreement |
| Simulation.CancelAgreesIff | millennium-oes/internal/engine/engine.go:357-397 | a cancel keeps log and engine in agreement exactly when it does nothing, is refused, or cancels no leg |
| Simulation.SubmitSlot | millennium-oes/internal/engine/engine.go:280-354 | the submitted slot agrees with the log exactly when a risk check rejects it or no broker refuses it |
| Simulation.FillSlot | millennium-oes/internal/engine/engine.go:421-463 | the filled slot agrees with the log exactly when the order is complete afterwards |
| Outcomes.SubmitOverRun | millennium-oes/internal/engine/engine.go:280-355 | in every run, a turn that consumes a submission makes its blank slot the order of the call, field by field; it is rejected exactly when the quantity, the kill switch or the P&L fails its check or a broker refuses it, and acknowledged otherwise; the record and then the broker call are added exactly when the checks pass; nothing else changes |
| Outcomes.CancelOverRun | millennium-oes/internal/engine/engine.go:357-397 | in every run, a cancel that no broker refuses leaves the slot cancelled and a cancel record at the end of the trace exactly when the order was acknowledged or partly filled; a refused one leaves it acknowledged; empty, filled, cancelled and rejected orders and all other slots stay as they are |
| Outcomes.CancelOutcome | millennium-oes/internal/engine/engine.go:361-391 | in any state, legs included: the order goes if its status is new, pending, acknowledged, partly filled or held, and with it each leg whose status is one of these |
| Outcomes.FillOverRun | millennium-oes/internal/engine/engine.go:421-463 | in every run, a fill adds to the filled quantity as a 32-bit word, the order is filled exactly when that reaches the quantity and partly filled otherwise, the position of its symbol goes up for side 1 or 4 and down for any other, its value is that quantity at the fill price, a fill record is added, and nothing else changes |
| Outcomes.ReplaceOverRun | millennium-oes/internal/engine/engine.go:399-412 | in every run, a replace changes positive terms of acknowledged and partly filled orders and nothing else |
| Outcomes.SwitchOverRun | millennium-oes/internal/engine/engine.go:262-263 | in every run, a kill-switch event turns the switch on and does no more |
| Outcomes.RunIsSound | millennium-oes/internal/engine/engine.go:280-463 | at every point of every run each order has one of six statuses and no legs, and every slot no processed submission has reached is blank |
| Outcomes.PartlyFilledOverRun | millennium-oes/internal/engine/engine.go:430-441 | in every state of every run an order is partly filled only if a fill for it was processed, and then its filled quantity is below its quantity exactly if no replace since the last fill gave it a quantity, or the last one gave it more than was filled |
| Outcomes.ReplaceUndercuts | millennium-oes/internal/engine/engine.go:407-412 | from any state with such an order, a replace down to the filled quantity leaves it partly filled with nothing left |
| Calls.EventsArriveInOrder | millennium-oes/internal/engine/engine.go:124-155 | in every run, what the event loop consumed and what still waits are the events that the calls published since the last restart, unchanged and in order |
| Calls.FillsArriveInOrder | millennium-oes/internal/engine/engine.go:530-538 | in every run, the fills processed for an order are those reported for it, in order, up to those that still wait: none is lost, doubled or changed |
| Calls.SubmitIsAnswered | millennium-oes/internal/engine/engine.go:124-144 | a call takes an id exactly when the kill switch is off, and is answered with it exactly when the store and the 65536 slots of the ring have room as well |
| Conservation.PositionsBalance | millennium-oes/internal/engine/engine.go:421-452 | in every state of every run, restarts included, each position slot holds what was bought less what was sold, modulo 2^32: the filled quantities of the orders hashing to it with side 1 or 4, buy and cover, less those with any other side |
| Conservation.FillConserves | millennium-oes/internal/engine/engine.go:443-451 | a fill keeps the balance of all slots, even when quantities wrap |
| Conservation.FillMovesBoth | millennium-oes/internal/engine/engine.go:430-451 | position and net filled quantity move by the same amount modulo 2^32 on either side |
| Conservation.NetAfterUpdate | millennium-oes/internal/engine/engine.go:421-441 | rewriting one slot changes a net by the difference of its contributions |
| Lifecycle.LifecycleOverRun | millennium-oes/internal/engine/engine.go:280-463 | over a run of one process, between any two points complete orders stay complete and filled quantities never shrink; every status is a boundary value and complete means filled |
| Lifecycle.OpensAlive | millennium-oes/internal/engine/engine.go:101-116 | an engine that opened an empty log is a state such a run may start from |
| Lifecycle.ClosedOrdersReopenOnlyByFill | millennium-oes/internal/engine/engine.go:421-441 | a cancelled or rejected order changes status only when a fill for it is processed |
| Lifecycle.CompleteStaysCompleteIff | millennium-oes/internal/engine/engine.go:430-441 | a further fill keeps a complete order complete exactly when the filled quantity does not wrap, or wraps and is not below a negative quantity |
| Lifecycle.EmptyStaysEmpty | millennium-oes/internal/engine/engine.go:357-418 | an empty slot changes status only by its submission or a fill for it |
| Fills.StoredAverage | millennium-oes/internal/engine/engine.go:428-434 | over fills whose totals fit, the filled quantity is exact, the stored average lies between the lowest and highest price, and it loses at most (n - 1) * (filled - 1) against the true value |
| Fills.NothingOverflows | millennium-oes/internal/engine/engine.go:429-433 | under those bounds no product, sum or count of the computation leaves its word |
| Fills.OneMoreFill | millennium-oes/internal/engine/engine.go:425-434 | one fill keeps the exact quantity, the price bounds and the shortfall bound |
| Averages.StoredAverageOverRun | millennium-oes/internal/engine/engine.go:428-434 | in every state of every run, for every slot: over the fills processed for it, while their totals fit, the filled quantity is exact, the stored average lies between the lowest and highest price, and it loses at most (n - 1) * (filled - 1) |
| Averages.SlotFoldsItsFills | millennium-oes/internal/engine/engine.go:421-441 | the fill fields of every slot are those of the fold over its fills, restarts included |
| Averages.UnusedHasNoFills | millennium-oes/internal/engine/engine.go:421-441 | a slot has no fills before its submission is processed |
| Engine.TraceGrowth | millennium-oes/internal/engine/engine.go:239-255 | an event adds at most one record followed by at most one broker call |
| Engine.ProcessKeepsShape | millennium-oes/internal/engine/engine.go:241-252 | every event keeps the array sizes and the leg indices in range |
| Engine.TraceIsOnlyExtended | millennium-oes/internal/engine/engine.go:280-463 | handlers do not depend on what was logged or sent before |
| Engine.QuotientShrinks | millennium-oes/internal/engine/engine.go:431-433 | the truncated quotient stays within the 64-bit range of its numerator |
| Runs.StepKeepsInv | millennium-oes/internal/engine/engine.go:225-270 | every step of producers, event loop and restart keeps the order of ids in queue and log and the record-then-call pattern |
| Runs.RunKeepsInv | millennium-oes/internal/engine/engine.go:225-270 | that invariant holds at every point of every run |
| Runs.RecoveryKeepsInv | millennium-oes/internal/engine/engine.go:495-526 | a restart from any prefix of the trace re-establishes the invariant |
| Replay.ReplayIsIdempotent | millennium-oes/internal/engine/engine.go:495-526 | replaying any log twice gives the same store and counter as once |
| Replay.ReplayIsSlotLocal | millennium-oes/internal/engine/engine.go:500-523 | each slot depends only on its own entries |
| Replay.LastSettersWin | millennium-oes/internal/engine/engine.go:502-522 | a slot is determined by its last full image and its last status-setting entry |
| Replay.ReplayedStatus | millennium-oes/internal/engine/engine.go:501-521 | in any log the last entry that tells a status decides it: a cancel as cancelled, a fill as filled, an image by its status byte, where new and pending become acknowledged |
| Replay.NextIdIsAboveTheLog | millennium-oes/internal/engine/engine.go:511-513 | the counter ends above every in-range logged order, and no higher than needed |
| Replay.LoggedOrderComesBack | millennium-oes/internal/engine/engine.go:502-522 | an image not followed by another for its slot restores the submitted fields, a live or final status, and nothing else |
| OrderEngine.OrderEngine.ProcessSubmit | millennium-oes/internal/engine/engine.go:280-355 | the in-place handler computes the submit step of the state machine, log file included |
| OrderEngine.OrderEngine.ProcessCancel | millennium-oes/internal/engine/engine.go:357-397 | the in-place handler computes the cancel step, legs included |
| OrderEngine.OrderEngine.ProcessReplace | millennium-oes/internal/engine/engine.go:399-419 | the in-place handler computes the replace step |
| OrderEngine.OrderEngine.ProcessFill | millennium-oes/internal/engine/engine.go:421-463 | the in-place handler computes the fill step, position and record included |
| OrderEngine.OrderEngine.RunOnce | millennium-oes/internal/engine/engine.go:239-259 | one turn takes the front event of the ring and dispatches it |
| OrderEngine.OrderEngine.Submit | millennium-oes/internal/engine/engine.go:124-144 | the producer call answers and publishes as the state machine does |
| OrderEngine.OrderEngine.Cancel | millennium-oes/internal/engine/engine.go:148-154 | the call publishes its event and fails exactly when the ring is full |
| OrderEngine.OrderEngine.InjectFill | millennium-oes/internal/engine/engine.go:529-538 | the report publishes its event unless the ring is full |
| OrderEngine.OrderEngine.ReplayWAL | millennium-oes/internal/engine/engine.go:495-526 | the loop over the scanned entries computes the replay of the log |
| OrderEngine.OrderEngine.constructor | millennium-oes/internal/engine/engine.go:101-116 | a new engine is the fresh state with an empty queue |
| OrderEngine.OrderEngine.AveragePrice | millennium-oes/internal/engine/engine.go:428-433 | the step-by-step computation gives the average of the state machine |
| InterleavedRuns.MoveIsWalk | millennium-oes/internal/engine/engine.go:124-259 | every step of producer, ring or event loop is a sequence of steps of the engine with its queue: none, an id taken, an event queued, or a turn with the switch and the P&L as the handler saw them |
| InterleavedRuns.InterleavingIsRun | millennium-oes/internal/engine/engine.go:124-259 | so every interleaving, crashes included, is a run, whose turns and restarts are those of the interleaving |
| InterleavedRuns.InterleavingStaysOk | millennium-oes/internal/engine/ringbuffer.go:84-111 | under every interleaving the ring invariant, the call in hand and the run invariant hold |
| InterleavedRuns.StartIsOk | millennium-oes/internal/engine/engine.go:101-116 | an engine that opened a log, with an empty ring, is such a state |
| InterleavedRuns.OkIsDefined | millennium-oes/internal/engine/engine.go:239-252 | in it the event in hand names a slot of the store, so the handler can run |
| InterleavedRuns.NothingIsLost | millennium-oes/internal/engine/ringbuffer.go:84-111 | what was taken and what is unread is all that was published, in order, and the handler sees it in that order |
| EveryInterleaving.OkIsDurable | millennium-oes/internal/engine/engine.go:239-259 | at every point of every interleaving each order sent is recovered after a crash |
| EveryInterleaving.PositionsAlwaysBalance | millennium-oes/internal/engine/engine.go:421-452 | at every point of every interleaving positions balance |
| EveryInterleaving.LifecycleAlways | millennium-oes/internal/engine/engine.go:280-463 | between any two points of an interleaving without restarts complete orders stay complete and filled quantities do not shrink |
| EveryInterleaving.ReplayAlwaysAgrees | millennium-oes/internal/engine/engine.go:495-526 | over every interleaving whose turns take none of the unrecorded branches, restarts included, the log agrees with the engine |
| Wal.DecodeIsLongest | millennium-oes/internal/wal/wal.go:126-180 | for any bytes the scanner returns the longest sequence of entries whose encoding starts them |
| Wal.DecodeEncoded | millennium-oes/internal/wal/wal.go:95-180 | decoding an encoding followed by anything gives the entries followed by the decoding of the rest |
| Wal.TornTailIsDropped | millennium-oes/internal/wal/wal.go:136-160 | a file ending anywhere inside a record reads as the records before it |
| Wal.BurstIsDetected | millennium-oes/internal/wal/wal.go:154-169 | any change within four consecutive bytes of a record, body, checksum or both, outside its length bytes, makes the scan return exactly the entries before that record |
| Wal.CorruptionIsDetected | millennium-oes/internal/wal/wal.go:154-169 | in particular one wrong byte |
| Wal.ChangedRecordIsReadIff | millennium-oes/internal/wal/wal.go:136-176 | whatever bytes replace a record, length bytes included, the scan returns its entry at its place exactly when they are the record |
| Wal.RecordReadsBackIff | millennium-oes/internal/wal/wal.go:99-119 | a record reads back exactly when its data is shorter than 65536 bytes |
| Wal.ParsedIsRecord | millennium-oes/internal/wal/wal.go:136-176 | whatever parses is byte for byte the record of the entry it parses to |
| Wal.ReadBehindTailIff | millennium-oes/internal/wal/wal.go:126-180 | behind a leftover tail a new entry is read exactly when tail and record together start with the record |
| Torn.OrdersSurviveIff | millennium-oes/internal/wal/wal.go:64-91 | the record of every order survives being appended exactly when the file has no leftover tail |
| Torn.ImageBehindTornRecordIsLost | millennium-oes/internal/wal/wal.go:64-124 | behind a torn record of another kind, slot or time, or one cut before those end, the record of an order is never read, whatever follows |
| Torn.EntryBehindTornRecordIsLost | millennium-oes/internal/wal/wal.go:64-124 | so is a record of any kind for another slot than the one the torn record names |
| Torn.EngineWritesImages | millennium-oes/internal/engine/engine.go:324-331 | the record logged for a submission is the image these results speak of |
| Torn.NoShortPeriod | millennium-oes/internal/engine/engine.go:540-553 | no piece of one to twelve bytes in front of the record of an order leaves its bytes the same |
| Torn.TornIsWellFormedIff | millennium-oes/internal/wal/wal.go:64-91 | a file cut inside a record is well formed exactly when nothing of the record was written |
| Torn.TornRestartLosesOrder | millennium-oes/internal/engine/engine.go:324-348 | after a restart on a torn file, the order logged and sent first is never read back in its place |
| Wal.RecordLayout | millennium-oes/internal/wal/wal.go:102-115 | type, index, timestamp, length, data and checksum stand at their offsets |
| Wal.Log.Append | millennium-oes/internal/wal/wal.go:95-124 | the buffer written is the record; on a well-formed file it adds one entry |
| Wal.Log.ReadAll | millennium-oes/internal/wal/wal.go:126-180 | the loop over the file returns its decoding |
| Wal.Log.Truncate | millennium-oes/internal/wal/wal.go:199-209 | the file is empty and well formed |
| Wal.ZeroTailIsDropped | millennium-oes/internal/wal/wal.go:136-169 | a file that ends in zero bytes, however many, reads as the records before them |
| Wal.ZerosAreNoRecord | millennium-oes/internal/wal/wal.go:136-169 | a block that starts with nineteen zero bytes is no record |
| Crc32.ChecksumOfTheStandard | millennium-oes/internal/wal/wal.go:112 | clause 3.2.9 of IEEE 802.3: the checksum is the complement of the remainder of the data whose first 32 bits are complemented |
| CrcValues.ResidueIff | millennium-oes/internal/wal/wal.go:112 | data followed by four bytes leaves the constant residue of that clause, reflected, exactly when the bytes are its checksum |
| CrcValues.ZerosChecksum | millennium-oes/internal/wal/wal.go:112 | the checksum of fifteen zero bytes |
| Crc32.UpdateIsDivision | millennium-oes/internal/wal/wal.go:112 | up to four bytes are taken in by so many division steps on state and bytes together |
| Crc32.ChecksumSeesBurst | millennium-oes/internal/wal/wal.go:112 | changing at most four consecutive bytes changes the checksum |
| Crc32.BurstTells | millennium-oes/internal/wal/wal.go:112 | from one state, up to four bytes are determined by as many high bytes of the state after them |
| Crc32.ChecksumSeesEveryByte | millennium-oes/internal/wal/wal.go:112 | changing any one byte changes the checksum |
| Crc32.ByteStepInjective | millennium-oes/internal/wal/wal.go:112 | a step over a byte is injective in the running state and in the byte |
| Crc32.GeneratorOfTheStandard | millennium-oes/internal/wal/wal.go:112 | the constant is the generator of clause 3.2.9 of IEEE 802.3, reflected |
| Crc32.ComputeChecksum | millennium-oes/internal/wal/wal.go:164 | the byte loop computes the checksum |
| Orders.PayloadRoundTrip | millennium-oes/internal/engine/engine.go:540-569 | decoding an encoded order restores all ten stored fields, negative values included, and leaves every other field alone |
| Orders.PayloadLayout | millennium-oes/internal/engine/engine.go:540-552 | each stored field stands at its offset |
| Orders.WriteOrder | millennium-oes/internal/engine/engine.go:540-553 | the buffer writes give the payload |
| Orders.DecodeReadsOnlyThePayload | millennium-oes/internal/engine/engine.go:555-569 | bytes after the payload are ignored |
| Orders.ComputeHash | millennium-oes/internal/engine/engine.go:482-492 | the loop with its early exit computes the hash, and it names a position slot |
| Symbols.SlotIsFnv | millennium-oes/internal/engine/engine.go:482-492 | the slot of a symbol is the 32-bit FNV-1a hash of its text, with the constants written out, modulo 4096 |
| Symbols.HashStepTells | millennium-oes/internal/engine/engine.go:488-489 | one step of the hash is injective in the hash before it and in the byte |
| Symbols.HashSeesEveryLetter | millennium-oes/internal/engine/engine.go:482-492 | symbols that differ in one letter have different 32-bit hashes |
| Symbols.LastLetterTellsSlot | millennium-oes/internal/engine/engine.go:482-492 | symbols that differ in their last letter only never share a slot |
| Orders.HashStopsAtPadding | millennium-oes/internal/engine/engine.go:484-487 | bytes from the first zero on do not matter |
| Words.GetPut | millennium-oes/internal/engine/engine.go:571-591 | reading back n written bytes gives the value modulo 256^n, for negative values too |
| Words.PutByte | millennium-oes/internal/engine/engine.go:571-591 | byte k of a written value is its k-th digit in base 256, lowest first |
| Words.TruncatesTowardZero | millennium-oes/internal/engine/engine.go:432 | what a division leaves over is smaller than the divisor and has the sign of the dividend |
| Words.PutGet | millennium-oes/internal/engine/engine.go:578-596 | writing what was read gives the same bytes |
| Ring.ConsumedIsPrefixOfPublished | millennium-oes/internal/engine/ringbuffer.go:84-111 | under every interleaving of any length, what is consumed is a prefix of what is published, and unread events never exceed the capacity |
| Ring.StepRefinesFifo | millennium-oes/internal/engine/ringbuffer.go:84-111 | every atomic step leaves the queue alone, adds the publisher's event at the back of a queue that is not full, or removes the front event |
| Ring.AnswersAreExact | millennium-oes/internal/engine/ringbuffer.go:85-106 | a publish is refused exactly when the queue was full, and a consume comes back empty exactly when it was empty or 2^64 events were published, at the load of the other side's position |
| Ring.NoSlotIsShared | millennium-oes/internal/engine/ringbuffer.go:93-108 | a slot about to be written is never the slot about to be read |
| Ring.NoRunConsumesAWord | millennium-oes/internal/engine/ringbuffer.go:100-111 | no run consumes 2^64 events |
| Ring.SlotOfWord | millennium-oes/internal/engine/ringbuffer.go:93-108 | the slot of a position word is that of the count it stands for |
| Ring.PowersPass | millennium-oes/internal/engine/ringbuffer.go:73-75 | every power of two passes the constructor's test |
| Bits.MaskIsRemainder | millennium-oes/internal/engine/ringbuffer.go:73-108 | masking is the remainder by the size for every size that passes the test |
| Ring.RingBuffer.TryPublish | millennium-oes/internal/engine/ringbuffer.go:84-96 | uninterrupted, the method is the producer steps in sequence and adds to the queue unless it is full |
| Ring.RingBuffer.TryConsume | millennium-oes/internal/engine/ringbuffer.go:100-111 | uninterrupted, the method is the consumer steps in sequence and takes the front event unless the queue is empty or 2^64 events were published |
| Ring.RingBuffer.Len | millennium-oes/internal/engine/ringbuffer.go:114-116 | the number of unread events |
| Fix.ReadsBackIff | millennium-oes/internal/fix/client.go:396-477 | a printed message followed by anything is read back as its tags in order between 8, 9 and 10, leaving exactly what follows, exactly when it is plain and none of its fields trips the end test |
| Fix.EarlyStopIff | millennium-oes/internal/fix/client.go:432-453 | the reader stops early exactly on a message with such a field |
| Fix.StopIffTrips | millennium-oes/internal/fix/client.go:433-453 | the end test on a printed message, window and backward search, says whether its last field trips it |
| Fix.StreamReadsBack | millennium-oes/internal/fix/client.go:422-477 | a stream of clean messages is read back one by one, each call taking exactly its bytes |
| Fix.OrdinaryFieldsAreClean | millennium-oes/internal/fix/client.go:432-453 | plain fields that nowhere contain "10=" make a clean message: neither the window nor the backward search stops early |
| Fix.LookalikeTagIsNotClean | millennium-oes/internal/fix/client.go:435-438 | a field 110 with a four-character value, anywhere, stops the reader early |
| Fix.TrailerStops | millennium-oes/internal/fix/client.go:433-453 | the checksum field always stops the reader |
| Fix.ParsePrinted | millennium-oes/internal/fix/client.go:457-474 | parsing printed plain fields gives them back |
| Fix.WireDescribesItself | millennium-oes/internal/fix/client.go:407-417 | the length field gives the body length and the checksum field the byte sum modulo 256 |
| Fix.WireIsLiteral | millennium-oes/internal/fix/client.go:396-417 | byte by byte, a sent message is 8=FIX.4.2, 9= with the body length, the body, and 10= with the byte sum modulo 256 in three digits |
| Fix.DecimalReadsBack | millennium-oes/internal/fix/client.go:407 | the length is printed in decimal digits without a leading zero |
| Fix.SumAdds | millennium-oes/internal/fix/client.go:410-413 | the byte sum of two pieces is the sum of theirs |
| Fix.SumOfOne | millennium-oes/internal/fix/client.go:410-413 | and that of one byte is the byte |
| Fix.GetTagIsFirst | millennium-oes/internal/fix/client.go:387-394 | a lookup gives the value of the first field with the tag, or nothing if there is none |
| Fix.FramingKeepsTags | millennium-oes/internal/fix/client.go:387-394 | looking up any tag but 8, 9 and 10 gives the same before and after framing |
| Fix.Client.Send | millennium-oes/internal/fix/client.go:396-420 | the bytes written are the wire form of the message |
| Fix.Client.ReadMessage | millennium-oes/internal/fix/client.go:422-477 | the byte loop reads one message and leaves the rest, or drains the stream |
| Fix.Client.NewMessage | millennium-oes/internal/fix/client.go:370-381 | header tags with the current sequence number, which then advances |
| Risk.DrawdownStaysRightIff | millennium-oes/internal/risk/tracker.go:98-111 | over any series from any start, the online drawdown is at every point the largest fall from a positive value to a later one exactly when every update is harmless |
| Risk.NextUpdateIsRightIff | millennium-oes/internal/risk/tracker.go:104-111 | a figure that is the largest fall stays so exactly when the next update is harmless |
| Risk.DrawdownIsRightIff | millennium-oes/internal/risk/tracker.go:98-111 | at the end of any series the figure is the largest fall exactly when it is finite and no negative value fell further from the lowest start than it says |
| Risk.InfiniteIff | millennium-oes/internal/risk/tracker.go:108-111 | the figure is infinite exactly when a negative value met a zero peak |
| Risk.LargestFallIsMaximal | millennium-oes/internal/risk/tracker.go:98-111 | keeping the lowest start as well, one pass finds the largest fall of any series |
| Risk.OnlineDrawdownIsMaximal | millennium-oes/internal/risk/tracker.go:104-111 | without negative values the running peak is the maximum and the online drawdown the largest fall |
| Risk.HigherStartFallsMoreIff | millennium-oes/internal/risk/tracker.go:108 | a higher start falls at least as much to a value exactly when the value is not negative or the starts are equal |
| RiskLaws.LargestFallIs | millennium-oes/internal/risk/tracker.go:108-111 | with d the largest fall of a series, every value keeps at least the part 1 - d of every positive value before it, and some value just that |
| RiskLaws.ReturnsCompound | millennium-oes/internal/risk/tracker.go:127-144 | while days open with positive values, the first opening value times the product of (1 + r) over the recorded returns is the present day's start, and each return is positive exactly when its day opens above the one before |
| RiskLaws.ReturnsAreGrowth | millennium-oes/internal/risk/tracker.go:127-144 | for every series the recorded returns are the growth from each positive opening value of a day to the next |
| RiskLaws.DayStartIsOpen | millennium-oes/internal/risk/tracker.go:127-145 | the day's start is the first value on the latest day |
| RiskLaws.CurrentIsLast | millennium-oes/internal/risk/tracker.go:102 | the current value is the latest |
| RiskLaws.WindowOfDays | millennium-oes/internal/risk/tracker.go:132-138 | the cells in use hold, as a multiset, the last at most 60 of them |
| RiskLaws.HistoryOfSeconds | millennium-oes/internal/risk/tracker.go:113-125 | the history is the last at most 28800 updates that were later than all before, each with its profit since the day opened, or since the day before opened on the first update of a day |
| RiskLaws.MomentsAreRight | millennium-oes/internal/risk/tracker.go:210-222 | the mean is the sum over the number of returns, and n(n - 1) times the sample variance is the sum of the squared differences of all pairs |
| Risk.NegativeValueBreaksIt | millennium-oes/internal/risk/tracker.go:98-111 | with a negative value the online figure misses the worst pair |
| Risk.WindowIsCircular | millennium-oes/internal/risk/tracker.go:127-138 | after any updates, each recent return is in the cell of its number modulo 60 |
| Risk.WindowHoldsRecentReturns | millennium-oes/internal/risk/tracker.go:127-138 | the cells in use are, as a multiset, the last at most 60 returns |
| Risk.WindowSums | millennium-oes/internal/risk/tracker.go:210-222 | sums and squared deviations over the cells equal those over the recent returns |
| Risk.HistoryIsCappedTail | millennium-oes/internal/risk/tracker.go:113-125 | the history is the last at most 28800 recorded points, with strictly increasing times |
| Risk.Tracker.UpdateEquity | millennium-oes/internal/risk/tracker.go:98-145 | the in-place update computes the step on states |
| Risk.Tracker.Moments | millennium-oes/internal/risk/tracker.go:205-223 | the loops compute mean and sample variance of the recent returns, if there are two |

## Left out

- Wal.BurstIsDetected: for the two length bytes no more is said than `Wal.ChangedRecordIsReadIff` does, since a changed length moves the checksum to other bytes; of longer changes, no more either.
- Guarantees.KilledEngineSendsNothing: says nothing about a switch set inside a turn, which `Interleaved.SwitchLetsOneThrough` does.
- Interleaved.SwitchLetsOneThrough: the handler's looks at the switch and at the P&L are one step, as no code changes the P&L; its record and its call are one step too, but a crash can fall between them.
- Guarantees.EndToEndDurability: a run restarts on complete records only, because behind a torn one the next order is not read back in its place (`Torn.TornRestartLosesOrder`).
- Torn.ImageBehindTornRecordIsLost: says nothing about an order of the same slot and nanosecond as the torn record.
- Risk.InfiniteIff: the sign of a zero peak is not modelled; the zero is the positive one.
- Go slices, structs and the file are values inside the objects: order slots and positions are array elements holding records, the log file is a byte sequence, and a completed append is durable.
- Errors of `Append` (ignored by the engine) and of opening files; disk caching and `Sync`.
- Broker cancel and replace calls are answers only; they leave no trace. Broker, client and exchange ids and algo parameters of an order are not modelled: no handler reads them.
- Several producers on one ring, and memory orderings weaker than sequential consistency.
- Float conversions of prices, and square roots: Sharpe ratio and value at risk stop at mean and variance.
- Limits that no code enforces (position value, price deviation) and order types that no code runs (TWAP, VWAP, iceberg, trailing).
- HTTP gateway, event streams, Alpaca client, TCP session, logon and heartbeat, handling of execution reports, momentum signals, strategy bookkeeping, statistics, subscriptions, win rate and concentration.
