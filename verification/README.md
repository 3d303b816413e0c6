# Durable core of an OCPP 1.6 central system

The modelled system is a HAL process between charging stations (OCPP 1.6) and a charging
management system (CMS). It keeps tables of remote commands, start credentials, transactions,
stop workflows, connection state and an outbox of facts. Every SQL transaction is one atomic
guarded step; HTTP requests, charger messages, dispatchers, recovery statements, crashes and the
starts of further processes interleave freely between those steps.

The project has five layers.

- **Tables and steps.** `LifecycleTables`, `ConnectionRuntime`, `FactOutbox`, `ChargerOperations` and
  `TraceStore` define one function per committed SQL transaction or mutex-guarded call.
- **Stores and dispatchers.** `PostgresStore`, `RuntimeStore`, `OutboxStore`, `MemoryTelemetry`,
  `ChargerOperations` and `TraceStore` hold classes whose methods update the tables in place, statement
  by statement and loop by loop, and commit exactly those functions. `Dispatchers` drives the store as
  the dispatchers do and is proved to follow the steps of the runs below.
- **Runs.** `LifecycleSystem`, `LifecycleLocking`, `ConnectionConvergence`, `ChargerOperations`,
  `RecoveryRotation` and `TraceWindows` define what may happen in which order; `StartSafety`,
  `StopSafety`, `FactSafety` and `Finality` carry the invariants through every step, and `StopProgress`
  says what moves on and what stays behind.
- **Answers.** `Outcomes`, `Completions`, `Provenance`, `StopOrigins`, `Metering`, `ConnectionReplies` and
  `FollowOns` say from the caller's side when a call is taken up, what it replies and what it writes, and trace
  every row of a run back to the request, reading, evidence or charger's answer it comes from.
- **Theorems.** `LifecycleTheorems` and the closing sections of the other modules state the promises
  over every run, and `LifecycleWitness` shows that the weak spots are reachable.

Identifiers are natural numbers, times are nanoseconds with 0 for Go's zero time, and PostgreSQL
timestamps keep whole microseconds (`Base.Stored`).

Findings, each with the exact condition under which the code is right and an input that shows it:

- Exact retransmission of stop evidence is accepted if and only if its time is a whole microsecond
  (`LifecycleTheorems.ExactRetransmission`), because it is compared with the stored time;
  `LifecycleWitness.RefusedRetransmission` is a run with a refusal. The memory store has no such
  condition (`MemoryTelemetry.CompletionIsIdempotent`).
- Of several SoC values the first at the greatest time is kept if and only if no later one falls into the
  rest of its microsecond (`PostgresTelemetry.FirstIsKeptIff`), contrary to the promise made at
  internal/store/v1_lifecycle_postgres.go:291-294; `PostgresTelemetry.SameInstantOverwrites` has the input.
- A claimed dispatcher that begins and sends puts its attempt on record if and only if the row still shows
  the claim when it begins (`LifecycleTheorems.AttemptRecordedIff`, over runs `AttemptOverRuns`; for stops
  `StopAttemptRecordedIff`); otherwise it sends all the same and nothing is recorded. While no other process
  returns claims, a RemoteStart leaves unrecorded exactly when the charger materialized the command after the
  claim (`LifecycleTheorems.UndisturbedAttempt`). `LifecycleWitness.UnrecordedRemoteStart` shows the
  materialization and `LifecycleWitness.UnrecordedAfterRecovery` the returned claim.
- A process that starts beside a running one keeps RemoteStops at one per transaction if and only if it
  does not return claims to PERSISTED while a dispatcher stands between its claim and its attempt
  (`LifecycleTheorems.OtherRecoveryIff`, `LifecycleWitness.TwoRemoteStops`); the same holds of RemoteStarts
  (`LifecycleTheorems.OtherStartRecoveryIff`). Charger operations need no such condition
  (`ChargerOperations.AtMostOneDispatch`), and neither does anything the tables say.
- Executions that start idle can be led into a circle of waits if and only if two of them are recoveries of
  one table (`LifecycleLocking.CircleIff`); `LifecycleLocking.TwoRecoveriesDeadlock` has the schedule for any
  state, either table and any two free rows.
- A claim whose dispatcher gives up before the attempt stays PENDING_DELIVERY, and its stop unsent, if and
  only if no process runs the claim recovery and no accepted completion arrives (`StopProgress.StuckIff`): the
  claim expiry that is written at internal/store/v1_lifecycle_postgres.go:439 is never read.
  `StopProgress.GivingUpAbandons` leads there from any run.
- PostgreSQL telemetry stores a counted one-Wh rollback (`LifecycleTheorems.MeterFallsIff`,
  `LifecycleTheorems.MeterFalls`), and trails the memory store by no more than those
  (`PostgresTelemetry.TrailsMemory`). The code (internal/store/v1_lifecycle_postgres.go:270-287) and its gated
  test (internal/store/v1_postgres_test.go:203-207) disagree; the model follows the code.
- The 15-minute clock check also admits protocol times 2^63 ns or more in the past, because negating the
  saturated duration overflows (`Base.PlausibleIff`); `LifecycleWitness.AncientStartIsMaterialized` is a run
  that stores such a start.
- A zero event time in a cursor restarts the listing, so paging is complete if and only if no such event
  ends a page (`TracePaging.PagingIff`, `TracePaging.UntimedEndRestarts`). No run under a set clock stores one.
- A round of the recovery rotation is fair unless its 64-bit counter wraps and the number of chargers does
  not divide 2^64 (`RecoveryRotation.RoundIsFairIff`, `RecoveryRotation.WrapWithThree`).
- A state of charge prints exactly for every 64-bit value but the least (`SoCPercent.TextIsExactIff`).

## Model

| member | source | states |
|---|---|---|
| Base.PlausibleIff | internal/store/v1_evidence.go:10-19 | the clock-skew guard passes iff both times are set and differ by at most 15 minutes, or the protocol time lies 2^63 ns or more in the past |
| MeterEvidence.Classify | internal/store/v1_meter_evidence.go:25-40 | accepted iff not under the start and at most 1 Wh under the latest; effective value is max(latest, raw) = raw + adjustment, adjustment in {0, 1}, and 1 iff normalized |
| LifecycleTheorems.AtMostOneRemoteStop | internal/ocpp16hal/v1.go:127-154 | delivery attempts <= 1 for each transaction in every run; RemoteStops sent <= attempts in every run of one process with any interleaving and crashes, and in every run of several that returns no claim from under a dispatcher |
| LifecycleTheorems.AtMostOneRemoteStart | internal/httpapi/v1.go:270-301 | under the same condition at most one RemoteStart per command, never before its claim, and with one recorded attempt unless the command was materialized |
| LifecycleTheorems.AttemptRecordedIff | internal/store/v1_postgres.go:606-612 | in any state a claimed RemoteStart dispatcher that begins and sends raises the attempts by one iff the row is PENDING_DELIVERY, and otherwise sends with no table changed |
| LifecycleTheorems.StopAttemptRecordedIff | internal/ocpp16hal/v1.go:135-150 | the same for RemoteStop on an open transaction, recheck included |
| LifecycleTheorems.AttemptOverRuns | internal/httpapi/v1.go:270-282 | the same with any steps between claim, attempt and send, over runs of any number of processes |
| LifecycleTheorems.UndisturbedAttempt | internal/httpapi/v1.go:270-282 | in a run that disturbs no claim of the command, the row a claimed dispatcher finds is PENDING_DELIVERY iff it was not materialized, with no attempt yet |
| LifecycleTheorems.StartSentWithoutAttempt | internal/store/v1_postgres.go:606-612 | on a materialized command the send follows the claim with no table changed |
| LifecycleWitness.UnrecordedRemoteStart | internal/httpapi/v1.go:270-282 | a run from empty tables in which a RemoteStart is sent for a materialized command with zero attempts recorded |
| LifecycleWitness.UnrecordedAfterRecovery | internal/store/v1_lifecycle_postgres.go:533 | a run from empty tables in which another process returns the claim, nothing is materialized, and the RemoteStart is sent with zero attempts recorded |
| LifecycleTheorems.OtherRecoveryIff | internal/store/v1_lifecycle_postgres.go:540-546 | after a recovery statement of another process every continuation sends at most one RemoteStop for the transaction iff the statement does not return claims while a dispatcher stands at its claim on the open transaction |
| LifecycleTheorems.OtherStartRecoveryIff | internal/store/v1_lifecycle_postgres.go:532-538 | the same for RemoteStarts and START commands |
| LifecycleTheorems.SecondProcessSendsTwice | internal/store/v1_lifecycle_postgres.go:454-470 | from any state with a claimed dispatcher on a PENDING_DELIVERY workflow, that statement and a second dispatcher lead to two further RemoteStops |
| LifecycleTheorems.SecondProcessStartsTwice | internal/store/v1_postgres.go:606-612 | the same for two RemoteStarts |
| LifecycleTheorems.ClaimedDispatcherSends | internal/ocpp16hal/v1.go:135-150 | on an open transaction a claimed dispatcher sends whatever state the row is in |
| LifecycleWitness.TwoRemoteStops | internal/store/v1_lifecycle_postgres.go:540-546 | a run from empty tables with another process's recovery in it that sends two RemoteStops |
| LifecycleWitness.RefusedRetransmission | internal/store/v1_lifecycle_postgres.go:603-613 | a run from empty tables that completes a transaction and refuses the same evidence again |
| LifecycleWitness.AncientIsPlausible | internal/store/v1_evidence.go:10-19 | a protocol time one day after Go's zero time passes the clock check in the year 2025 |
| LifecycleWitness.AncientStartIsMaterialized | internal/store/v1_postgres.go:354-357 | a run from empty tables that stores a transaction with that start |
| LifecycleTheorems.CompletionAgrees | internal/store/v1_lifecycle_postgres.go:595-657 | in every reachable state completed iff stop state COMPLETED iff workflow (if any) COMPLETED iff every STOP command SUPERSEDED iff exactly one completion fact, and that fact repeats the row |
| LifecycleTheorems.CompletionIsFinal | internal/store/v1_lifecycle_postgres.go:472-530 | no later step changes a completed transaction, its workflow or its STOP commands, and no STOP command is added |
| LifecycleTheorems.FirstCauseWins | internal/store/v1_lifecycle_postgres.go:360-384 | the first stop initiator and reason survive every later request, limit and deadline in workflow and transaction |
| LifecycleTheorems.RetransmittedStop | internal/store/v1_lifecycle_postgres.go:603-613 | later stop evidence changes nothing and gets the recorded completion iff meter, reason and stored time agree, otherwise InvalidEvidence |
| LifecycleTheorems.ExactRetransmission | internal/store/v1_lifecycle_postgres.go:603-613 | the same evidence again is accepted iff its time is a whole microsecond |
| LifecycleTheorems.StartsAreOneToOne | internal/store/v1_postgres.go:354-444 | in every reachable state transactions, consumed credentials and MATERIALIZED START commands correspond one to one |
| LifecycleTheorems.RetransmittedStart | internal/store/v1_postgres.go:374-384 | a further StartTransaction for a used tag returns the same transaction iff charger, connector and meter agree, is refused otherwise, and never changes a table |
| LifecycleTheorems.LimitImpliesWorkflow | internal/store/v1_lifecycle_postgres.go:300-319 | in every reachable state an open transaction whose reading reached the energy limit has a stop workflow |
| LifecycleTheorems.GaplessFacts | internal/store/v1_lifecycle_postgres.go:311-331 | meter and SoC facts of a transaction carry exactly 1..n in order, n the row's counter |
| LifecycleTheorems.DriftIsCounted | internal/store/v1_lifecycle_postgres.go:268-288 | the latest meter never falls under the start, and latest plus counted anomalies is at least every published reading |
| LifecycleTheorems.MeterFallsIff | internal/store/v1_lifecycle_postgres.go:270-287 | one update lowers the stored meter iff the reading is exactly one Wh under the latest and not under the start, and then counts it |
| LifecycleTheorems.MeterFalls | internal/store/v1_postgres_test.go:203-207 | with 21345 Wh stored, 21344 Wh are stored next |
| LifecycleTheorems.StopMeterIsNormalized | internal/store/v1_lifecycle_postgres.go:624-638 | every accepted stop meter is max(latest, raw) = raw + adjustment with adjustment in {0, 1} |
| Outcomes.StopMarkTells | internal/store/v1_lifecycle_postgres.go:472-530 | on an open workflow it is OCPP_ACCEPTED iff the charger answered Accepted, OCPP_REJECTED iff Rejected, AMBIGUOUS iff no result came, and so are the transaction and every live command, each published with one new fact; otherwise nothing moves |
| Outcomes.StartMarkTells | internal/store/v1_postgres.go:555-591 | the same for a START command that is not past its delivery |
| Outcomes.StopTellsLastAnswer | internal/store/v1_lifecycle_postgres.go:472-530 | in every run a workflow is OCPP_ACCEPTED (or REJECTED) iff the transaction is open and the last answer stored for it was Accepted (or Rejected) |
| Outcomes.StartTellsLastAnswer | internal/store/v1_postgres.go:555-591 | in every run a START command is OCPP_ACCEPTED (or REJECTED) iff no transaction has come of it and the last answer stored for it was Accepted (or Rejected) |
| Outcomes.RecoverySettles | internal/store/v1_lifecycle_postgres.go:532-546 | a starting process turns PENDING_DELIVERY into PERSISTED and DELIVERY_ATTEMPTED into AMBIGUOUS, for START commands and workflows, and changes nothing else |
| Completions.OpenCompletesIff | internal/store/v1_lifecycle_postgres.go:614-627 | an open transaction is completed iff both times are set, not before the start and at most 15 minutes apart (or 2^63 ns and more in the past), and the meter is not under the start, at most 1 Wh under the latest reading, and not under it at all when that was sampled after the stop |
| Completions.CompletesIff | internal/store/v1_lifecycle_postgres.go:595-627 | the same in every reachable state, with the replies for missing and for completed transactions |
| Completions.CompletionRecords | internal/store/v1_lifecycle_postgres.go:624-657 | every column of transaction, workflow and commands after a completion, its fact and its reservation, and that nothing else moves |
| Completions.CompletionHasEvidence | internal/store/v1_lifecycle_postgres.go:595-657 | in every run a completed transaction owes its row to exactly one stop evidence, which met the conditions |
| Completions.StoresAgree | internal/store/v1_memory.go:320-363 | memory and PostgreSQL store complete on the same evidence and record the same, apart from microseconds |
| Provenance.StartCreatedIff | internal/store/v1_postgres.go:180-223 | a start request is taken up iff command, intent and tag are all new, and then both rows say what it asked for; every other reply, and that nothing changes then |
| Provenance.StartHasRequest | internal/store/v1_postgres.go:180-223 | in every run each START command comes from exactly one request taken up under its id and still says what that asked for |
| Provenance.RepeatedRequest | internal/store/v1_postgres.go:180-223 | a request that comes again is a duplicate iff its digest is the same, a conflict otherwise, and changes nothing |
| Provenance.IntentsAreUnique | internal/store/v1_postgres.go:180-223 | in every run no two START commands share an intent |
| Provenance.StartReplies | internal/store/v1_postgres.go:354-444 | every reply to a StartTransaction in every reachable state: admitted iff well-formed and some unused command with its tag, charger and connector awaits it in time under a new OCPP id |
| Provenance.AdmissionRecords | internal/store/v1_postgres.go:390-444 | every column an admitted start writes, limits included, with its two facts |
| Provenance.TransactionHasOrigin | internal/store/v1_postgres.go:354-444 | in every run each transaction comes from one accepted request and one admitted start after it, and keeps the intent, binding, limits, tag, OCPP id, times and meter they gave |
| StopOrigins.StopReplies | internal/store/v1_postgres.go:225-270 | a stop request is not found unless it names the open transaction as it is, a conflict undone as a whole on another digest, a duplicate on the same, and otherwise one new command with its fact |
| StopOrigins.EnsureReplies | internal/store/v1_lifecycle_postgres.go:360-401 | a workflow is opened iff the transaction is open and has none, with the given cause; an existing one is kept, and a missing or completed transaction is not found |
| StopOrigins.RepeatedStop | internal/store/v1_postgres.go:225-270 | a stop request that comes again is not found once the transaction is over, before that a duplicate iff its digest is the same; nothing changes |
| StopOrigins.StepOpens | internal/store/v1_lifecycle_postgres.go:360-384 | in every reachable state a step opens a workflow iff it asks for the stop of the open transaction, and with the cause it asked for |
| StopOrigins.WorkflowHasOrigin | internal/store/v1_lifecycle_postgres.go:338-384 | in every run each workflow was opened by one request, deadline or reading at the limit and carries its cause; a limit's cause follows its source, or its type where no source is given |
| Metering.UpdateRecords | internal/store/v1_lifecycle_postgres.go:262-310 | a reading is stored iff it has a time, is not under the start and at most 1 Wh under the latest; value, time, number and rollback count follow, and no other column moves |
| Metering.UpdateReplies | internal/store/v1_lifecycle_postgres.go:246-336 | the reply says what was stored, and a stored reading appends one meter fact that repeats the row |
| Metering.ReadingsAreKept | internal/store/v1_lifecycle_postgres.go:268-288 | in every run each reading received at or above the start is at any later time at most the latest one plus the counted rollbacks |
| Metering.LatestWasReceived | internal/store/v1_lifecycle_postgres.go:268-288 | in every run the latest reading of an open transaction is one that was received for it |
| Metering.LimitIsEnforced | internal/store/v1_lifecycle_postgres.go:300-319 | in every run, once the charger has reported the requested energy limit above the start, a stop workflow exists |
| FactSafety.RunKeeps | internal/store/v1_lifecycle_postgres.go:78-126 | the agreement of rows, numbered facts and completion reservations is kept by every run |
| StartSafety.RunSound | internal/store/v1_postgres.go:180-223 | the links of credentials, commands and transactions are kept by every run of any number of processes |
| StartSafety.RunGuarded | internal/store/v1_postgres.go:593-612 | the delivery protocol of one START command is kept by every run that does not disturb its claims |
| StopSafety.StepRows | internal/store/v1_lifecycle_postgres.go:360-384 | the agreement of transactions, workflows and STOP commands is kept by every step, other processes included |
| StopSafety.RunGuarded | internal/ocpp16hal/v1.go:127-178 | the delivery protocol of one transaction is kept by every run that does not disturb its claims |
| Finality.RunFinal | internal/store/v1_lifecycle_postgres.go:532-546 | no run, recovery included, alters completed transactions, causes, materialized starts or committed facts |
| PostgresStore.TagsAreUnique | internal/store/v1_postgres.go:180-223 | in every run at most one START command carries an id tag |
| PostgresStore.Store.InsertFactTx | internal/store/v1_lifecycle_postgres.go:102-125 | a completion is inserted once per aggregate through its key table, any other fact unless its numbered key exists |
| PostgresStore.Store.CreateStartCommand | internal/store/v1_postgres.go:180-223 | commits CreateStart: duplicate, conflict, rollback on a taken credential, or both rows |
| PostgresStore.Store.ClaimStartDelivery | internal/store/v1_postgres.go:593-604 | commits ClaimStart and replies the row and whether it was won, NotFound without one |
| PostgresStore.Store.BeginCommandDelivery | internal/store/v1_postgres.go:606-612 | commits BeginStart: counts an attempt only from PENDING_DELIVERY, otherwise silently nothing; NotFound without a row |
| PostgresStore.Store.MarkCommandDelivery | internal/store/v1_postgres.go:555-591 | commits MarkStart: state by status and one command fact, unless MATERIALIZED or SUPERSEDED; NotFound without a row |
| PostgresStore.Store.MaterializeStart | internal/store/v1_postgres.go:354-444 | commits Materialize: all refusals, the retransmission branch, and the three rows with two facts |
| PostgresStore.Store.EnsureStopWorkflow | internal/store/v1_lifecycle_postgres.go:360-401 | commits EnsureWorkflow: one workflow per transaction, none for a completed one |
| PostgresStore.Store.CreateStopCommand | internal/store/v1_postgres.go:225-270 | commits CreateStop: identity checks, workflow and command together, full rollback on a digest conflict, NotFound after completion |
| PostgresStore.Store.ClaimStopDelivery | internal/store/v1_lifecycle_postgres.go:428-452 | commits ClaimStop and replies the workflow and whether it was won, NotFound without transaction or workflow |
| PostgresStore.Store.BeginStopDelivery | internal/store/v1_lifecycle_postgres.go:454-470 | commits BeginStop: counts an attempt only from PENDING_DELIVERY of an open transaction; NotFound without transaction or workflow |
| PostgresStore.Store.MarkStopDelivery | internal/store/v1_lifecycle_postgres.go:472-530 | commits MarkStop: workflow, transaction and live commands take the state, one fact per command it lists; NotFound without transaction or workflow |
| PostgresStore.Store.CompleteTransaction | internal/store/v1_lifecycle_postgres.go:595-657 | commits Complete: evidence checks, the three updates in lock order, and the completion fact |
| PostgresStore.Store.UpdateTelemetryForOcpp | internal/store/v1_lifecycle_postgres.go:246-336 | refuses an empty request, finds a transaction by charger and OCPP id iff there is one, and commits accepted reading, limit workflow and facts in one step |
| PostgresStore.Store.RecoverCommandDelivery | internal/store/v1_lifecycle_postgres.go:532-538 | PENDING_DELIVERY START commands become PERSISTED, DELIVERY_ATTEMPTED ones AMBIGUOUS, nothing else moves |
| PostgresStore.Store.RecoverStopDelivery | internal/store/v1_lifecycle_postgres.go:540-546 | the same for stop workflows |
| Dispatchers.DispatchStop | internal/ocpp16hal/v1.go:127-154 | claim, begin, recheck, call and mark, each failing or losing its reply or not, with a charger's stop in between or not, are a run of the system's steps; it sends iff claim and begin were replied, the reread succeeded and no completion overtook it; a stored mark leaves workflow, transaction and live commands at the charger's answer, AMBIGUOUS without one; other transactions are untouched |
| Dispatchers.DispatchStart | internal/httpapi/v1.go:270-301 | the same for a start; it sends iff the claim was won and claim and begin were replied, and a stored mark leaves the command at the charger's answer |
| Dispatchers.RecoverLifecycle | internal/ocpp16hal/v1.go:159-171 | the recovery of a starting process is the run of its four statements and the charger-operation recovery after them, up to the first that fails |
| Dispatchers.DispatchPendingStops | internal/ocpp16hal/v1.go:180-194 | of up to 100 dispatchable workflows exactly those whose claim is executed stop being dispatchable, whatever becomes of them, all others still are, and a failed row stops nobody |
| Dispatchers.ExecutedIsPass | internal/ocpp16hal/v1.go:180-194 | with all claims executed this is a pass as StopProgress drains by |
| StopProgress.PassLowers | internal/ocpp16hal/v1.go:180-194 | a pass lowers the number of dispatchable workflows by min(100, number) |
| StopProgress.EnoughPasses | internal/ocpp16hal/v1.go:180-194 | ceil(n / 100) passes leave nothing dispatchable |
| StopProgress.GivingUpAbandons | internal/ocpp16hal/v1.go:131-140 | a dispatcher that gives up between claim and attempt leaves its claim abandoned, in every run that disturbs no claim |
| StopProgress.StepReleasesIff | internal/store/v1_lifecycle_postgres.go:436-439 | an abandoned claim stays as it is and unsent under every step but a claim recovery and an accepted completion, which move it to PERSISTED or COMPLETED |
| StopProgress.StuckIff | internal/store/v1_lifecycle_postgres.go:540-546 | over any run of any number of processes it stays after every prefix iff no step is one of those |
| PostgresTelemetry.SoCIsLastInMicrosecond | internal/store/v1_lifecycle_postgres.go:289-307 | after any telemetry the latest SoC is the last value that arrived within the microsecond of the greatest time, its stored time that microsecond, the initial SoC the first value ever |
| PostgresTelemetry.FirstIsKeptIff | internal/store/v1_lifecycle_postgres.go:289-307 | the first-arrived value at the greatest time is kept iff no later input lies above its stored time |
| PostgresTelemetry.WholeMicrosecondsKeepFirst | internal/store/v1_lifecycle_postgres.go:289-307 | it is kept when all times are whole microseconds |
| PostgresTelemetry.AcceptedAgainIff | internal/store/v1_lifecycle_postgres.go:294 | an accepted observation is accepted again iff its time is no whole microsecond |
| PostgresTelemetry.SameInstantOverwrites | internal/store/v1_lifecycle_postgres.go:291-295 | a second value at the same instant replaces the first in PostgreSQL and not in memory |
| PostgresTelemetry.NothingIsLost | internal/store/v1_lifecycle_postgres.go:268-288 | after any telemetry on an open row the latest meter is one of the readings at or above the start and no reading exceeds it by more than the counted rollbacks |
| PostgresTelemetry.TrailsMemory | internal/store/v1_memory.go:265-304 | so it trails the memory store's maximum by at most the counted rollbacks |
| LifecycleLocking.Ascending | internal/store/v1_stop_lifecycle_locking.go:22-46 | each start and stop operation acquires rows and unique keys in ascending rank, a stop operation from its transaction row on |
| LifecycleLocking.WaitsClimb | internal/store/v1_lifecycle_postgres.go:246-336 | along a chain of waits with at most one recovery per table the awaited height strictly rises |
| LifecycleLocking.NoCircularWait | internal/store/v1_stop_lifecycle_locking.go:22-46 | in every reachable state every non-empty group of executions with at most one recovery per table has a member that waits for none of the group |
| LifecycleLocking.TwoRecoveriesDeadlock | internal/store/v1_lifecycle_postgres.go:532-546 | in any state two idle recoveries of one table, START or workflow, and any two free rows of it make each wait for the other |
| LifecycleLocking.CircleIff | internal/store/v1_lifecycle_postgres.go:532-546 | executions that start idle can be led into a circle of waits iff two of them recover one table |
| LifecycleLocking.Retry | internal/store/v1_stop_lifecycle_locking.go:48-71 | at most three attempts, effects at most once, success iff the last attempt committed, another attempt only after an abort |
| LockCoverage.CompleteCovered | internal/store/v1_lifecycle_postgres.go:595-657 | a completion changes only rows of classes its script locks |
| LockCoverage.MarkStopCovered | internal/store/v1_lifecycle_postgres.go:472-530 | so does the mark of a stop |
| LockCoverage.TelemetryCovered | internal/store/v1_lifecycle_postgres.go:246-336 | so does telemetry |
| LockCoverage.MaterializeCovered | internal/store/v1_postgres.go:354-444 | so does a materialization, whose new keys are locked as well |
| LockCoverage.CreateStopCovered | internal/store/v1_postgres.go:225-270 | so does a stop request |
| LockCoverage.CreateStartCovered | internal/store/v1_postgres.go:180-223 | so does a start request |
| LockCoverage.ClaimStartCovered | internal/store/v1_postgres.go:593-612 | so do claim and attempt of a start |
| LockCoverage.MarkStartCovered | internal/store/v1_postgres.go:555-591 | so does its mark |
| LockCoverage.EnsureCovered | internal/store/v1_lifecycle_postgres.go:360-401 | so does opening a workflow |
| LockCoverage.ClaimStopCovered | internal/store/v1_lifecycle_postgres.go:428-470 | so do claim and attempt of a stop |
| LockCoverage.RecoverStartsCovered | internal/store/v1_lifecycle_postgres.go:532-538 | so does the recovery of START commands |
| LockCoverage.RecoverStopsCovered | internal/store/v1_lifecycle_postgres.go:540-546 | so does the recovery of workflows |
| ConnectionRuntime.GaplessRuntimeFacts | internal/store/v1_postgres.go:614-728 | over every run with restarts connection and status facts carry exactly 1..n, and the last connection fact equals the row |
| ConnectionReplies.AddedIffConsistent | internal/store/v1_postgres.go:41-62 | connectors are taken up iff one table has room for old and new ones with each connector in one place, and then nothing else is added |
| ConnectionReplies.SyncReplies | internal/store/v1_postgres.go:11-98 | a mapping is taken up iff it identifies one charger and its connectors are consistent; reply, rows and audit entry, and no change otherwise |
| ConnectionReplies.ObservationReplies | internal/store/v1_postgres.go:614-655 | in every reachable state an observation of an enabled charger is stored and published iff it has a higher generation or ends the current connection |
| ConnectionReplies.HeartbeatReplies | internal/store/v1_postgres.go:659-691 | a heartbeat renews iff it comes from the current online generation at a later microsecond |
| ConnectionReplies.RestartResets | internal/store/v1_postgres.go:778-819 | a restart makes every mapped charger UNKNOWN with generation 0 and counts those that were not |
| ConnectionReplies.StatusReplies | internal/store/v1_postgres.go:692-728 | the status of a known connector of an enabled charger is stored and published under the next number |
| ConnectionReplies.ShowsLastStatus | internal/store/v1_postgres.go:692-728 | over any run a connector shows the last status accepted for it |
| RuntimeStore.Store.SyncChargerMapping | internal/store/v1_postgres.go:11-98 | commits SyncMapping: identity and connector conflicts refuse the whole mapping; serial, enablement, UNKNOWN runtime row and audit entry otherwise |
| RuntimeStore.Store.RecordConnection | internal/store/v1_postgres.go:614-655 | commits Record: the generation-fenced upsert and its fact |
| RuntimeStore.Store.RenewConnection | internal/store/v1_postgres.go:659-691 | commits Renew: only the current ONLINE generation and a later time renew |
| RuntimeStore.Store.RecordConnectorStatus | internal/store/v1_postgres.go:692-728 | commits RecordStatus: next sequence and its fact |
| RuntimeStore.Store.ResetRuntime | internal/store/v1_postgres.go:778-819 | commits Reset: generations drop to 0, known states become UNKNOWN with one numbered fact each |
| ConnectionConvergence.ConnectionTracker.Register | internal/ocpp16hal/connections.go:33-55 | a new connection gets a generation above all active ones and supersedes the charger's previous one |
| ConnectionConvergence.ConnectionTracker.UnregisterIfCurrent | internal/ocpp16hal/connections.go:57-74 | only the current key removes a connection |
| ConnectionConvergence.GuardIsOrder | internal/store/v1_postgres.go:636 | the SQL guard is strict precedence in the order (generation, OFFLINE above ONLINE) |
| ConnectionConvergence.EndsAtMaximum | internal/store/v1_postgres.go:614-691 | any sequence of observations and renewals leaves the row at the maximum of that order |
| ConnectionConvergence.OrderAndDuplicatesDoNotMatter | internal/store/v1_postgres.go:614-691 | deliveries of the same set of observations end in the same state and generation |
| ConnectionConvergence.StoreConvergesToTracker | internal/ocpp16hal/connections.go:33-74 | once all emitted observations are delivered, in any order and over restarts, the row says what the tracker knows |
| FactOutbox.DeliveriesFollowProtocol | internal/store/v1_lifecycle_postgres.go:671-769 | for any workers and requeues each mark follows the claim with its token, no live lease is cut short, nothing follows a delivery, and the row, retries included, is determined by that history |
| FactOutbox.OnlyLatestClaimMarks | internal/store/v1_lifecycle_postgres.go:716-739 | a mark takes effect iff it carries the token of the latest claim, and at most once |
| FactOutbox.DeliveredIsFinal | internal/store/v1_lifecycle_postgres.go:716-769 | DELIVERED is terminal |
| FactOutbox.EnvelopesAreIdentical | internal/store/v1_lifecycle_postgres.go:39-62 | all envelopes sent for a fact are identical and match the digest taken at insert |
| FactOutbox.RefusalIsFinalWithoutRequeue | internal/store/v1_trace_delivery.go:146-170 | in the trace outbox, which has no requeue, a terminal refusal is final |
| FactOutbox.MarkDecides | internal/store/v1_lifecycle_postgres.go:716-739 | the holder of the latest claim makes the row DELIVERED iff it reports success and not terminal, RECONCILIATION_REQUIRED iff terminal, RETRY at the given time otherwise |
| FactOutbox.DueIff | internal/store/v1_lifecycle_postgres.go:671-714 | in every run a fact can be claimed iff it has occurred, its lease has expired, or its retry or requeue is due |
| FactOutbox.SentAsInserted | internal/store/v1_lifecycle_postgres.go:39-101 | in every run a fact is sent with the content it was inserted with |
| OutboxStore.Store.InsertFact | internal/store/v1_lifecycle_postgres.go:78-101 | the digest is taken over the normalized content and the row starts PENDING |
| OutboxStore.Store.ClaimFacts | internal/store/v1_lifecycle_postgres.go:671-714 | the earliest due, unlocked rows by retry and creation time, as many as the limit allows, are leased under one token, and their envelopes returned |
| OutboxStore.EarliestIsOldest | internal/store/v1_lifecycle_postgres.go:671-714 | the leased rows are due and unlocked, and no row left behind is due for longer, or as long and older |
| OutboxStore.Store.MarkDelivery | internal/store/v1_lifecycle_postgres.go:716-739 | reports a lost claim iff the token is not current, and then changes nothing; otherwise the row is DELIVERED iff success and not terminal, RECONCILIATION_REQUIRED iff terminal |
| OutboxStore.Store.RequeueFact | internal/store/v1_lifecycle_postgres.go:741-769 | only RECONCILIATION_REQUIRED facts return to PENDING, each with one audit entry |
| MemoryTelemetry.LatestIsMaximum | internal/store/v1_memory.go:240-304 | after any calls on an open session the latest meter is the maximum of the readings at or above the start, consumption its distance |
| MemoryTelemetry.ArrivalOrderDoesNotMatter | internal/store/v1_memory.go:265-304 | calls with the same readings end in the same meter and consumption |
| MemoryTelemetry.SoCIsFirstAtGreatest | internal/store/v1_memory.go:288-299 | latest SoC is the first-arrived value at the greatest timestamp, initial SoC the first one ever |
| MemoryTelemetry.EnergyAndSoCCommute | internal/store/v1_memory.go:265-304 | energy-only and SoC-only updates commute |
| MemoryTelemetry.TelemetryRecords | internal/store/v1_memory.go:265-304 | which columns a telemetry call moves, and exactly when |
| MemoryTelemetry.MeterReplies | internal/store/v1_memory.go:240-263 | a meter call advances, counts a rollback of 1 Wh, or refuses a deeper one |
| MemoryTelemetry.CompletionIsIdempotent | internal/store/v1_memory.go:320-363 | after completion nothing changes and a retry succeeds iff meter, reason and time agree |
| MemoryTelemetry.MemoryStore.UpdateTelemetry | internal/store/v1_memory.go:265-304 | finds a session iff one matches and updates exactly that one |
| MemoryTelemetry.MemoryStore.UpdateMeter | internal/store/v1_memory.go:240-263 | advances the meter, counts a one-Wh rollback, or refuses |
| MemoryTelemetry.MemoryStore.Complete | internal/store/v1_memory.go:320-363 | all refusals, the retry branch and all completed columns |
| MeterExtraction.Extract | internal/ocpp16hal/v1.go:369-393 | from the transmitted text keeps, for energy and for SoC, the last parsed sample at the greatest timestamp, or nothing |
| MeterExtraction.EnergyIff | internal/ocpp16hal/v1.go:395-408 | energy text gives v iff it amounts to exactly v watt-hours in its unit and v fits 64 bits |
| MeterExtraction.Units | internal/ocpp16hal/v1.go:400-416 | kilowatt-hours are meant iff the unit is written kWh or kilowatthour in any case, a percentage iff percent, % or nothing |
| MeterExtraction.Names | internal/ocpp16hal/v1.go:378-385 | energy and SoC are meant iff the measurand is written as one of their names in any case |
| MeterExtraction.SampleReads | internal/ocpp16hal/v1.go:376-391 | what one sample contributes, from its texts: v watt-hours, or v thousandths of a percent |
| MeterExtraction.EverySampleIsRead | internal/ocpp16hal/v1.go:369-393 | every sample is read once and for the time that counts for its value |
| MeterExtraction.ReadingsInOrder | internal/ocpp16hal/v1.go:372-376 | the readings stand in the order of transmission |
| MeterExtraction.TimeOfReading | internal/ocpp16hal/v1.go:373-375 | a value counts for its own time, or for that of arrival if it has none |
| MeterExtraction.TakenIsLastAtGreatest | internal/ocpp16hal/v1.go:369-393 | the same of the fold over any sample list |
| ChargerOperations.AtMostOneDispatch | internal/ocpp16hal/v1.go:35-51 | over runs of several processes with crashes and recoveries at any time, each operation is sent at most once, after its committed attempt |
| ChargerOperations.OneStepTransitions | internal/store/v1_operations_postgres.go:108-135 | PERSISTED is left only by a claim, an attempt only by its own mark or a recovery |
| ChargerOperations.TerminalIsFinal | internal/store/v1_memory.go:77-106 | no run changes a confirmed or reconciliation row |
| ChargerOperations.PassLowersBacklog | internal/ocpp16hal/v1.go:57-74 | a pass whose claims are executed lowers its charger's backlog by min(100, backlog), oldest first, whatever becomes of the calls, and no other charger's |
| ChargerOperations.DispatchedRows | internal/ocpp16hal/v1.go:57-74 | a pass moves exactly the connected, still persisted rows of its batch, each as its call went |
| ChargerOperations.MarkTells | internal/store/v1_memory.go:77-93 | an attempted operation is CONFIRMED with the result iff the charger answered, RECONCILIATION_REQUIRED as ambiguous iff the call failed; every other row stays |
| ChargerOperations.CallTells | internal/ocpp16hal/v1.go:35-51 | the same for a whole dispatch, with claims not executed, lost replies and unstored results |
| ChargerOperations.OutcomeHasAnswer | internal/ocpp16hal/v1.go:35-51 | in every run a settled operation was settled by the answer it shows, of the worker that sent it, or by a recovery that shows as such |
| ChargerOperations.SubmissionIsKept | internal/store/v1_memory.go:35-52 | an operation says for ever what was submitted |
| ChargerOperations.BatchIsOldest | internal/store/v1_memory.go:108-133 | a batch lists persisted operations of the charger by age and id and leaves only younger ones |
| ChargerOperations.BatchIsFull | internal/store/v1_memory.go:108-133 | whoever waits is in the batch unless that is full |
| ChargerOperations.OperationStore.Create | internal/store/v1_memory.go:35-52 | new row, duplicate, or digest conflict |
| ChargerOperations.OperationStore.Claim | internal/store/v1_memory.go:63-75 | won iff PERSISTED |
| ChargerOperations.OperationStore.Mark | internal/store/v1_memory.go:77-93 | settles only an attempted row |
| ChargerOperations.OperationStore.RecoverAll | internal/store/v1_memory.go:95-106 | every attempted row becomes RECONCILIATION_REQUIRED, no other row moves |
| ChargerOperations.OperationStore.List | internal/store/v1_memory.go:108-133 | the oldest persisted rows by creation time and id, as many as the limit allows |
| ChargerOperations.DispatchClaimed | internal/ocpp16hal/v1.go:35-51 | sends iff the claim was won and its reply arrived; a result that is not stored leaves DELIVERY_ATTEMPTED |
| ChargerOperations.RecoverDispatchable | internal/ocpp16hal/v1.go:57-74 | dispatches the connected rows of one batch, up to a cancellation; a failed listing changes nothing, a failed row stops nobody |
| RecoveryRotation.Rotation.NextIdentity | internal/ocpp16hal/hal.go:171-181 | picks by counter modulo the number of connections and increments modulo 2^64 |
| RecoveryRotation.RoundIsFairIff | internal/ocpp16hal/hal.go:171-181 | n passes visit each of n chargers exactly once iff the counter does not wrap or n divides 2^64 |
| RecoveryRotation.WrapWithThree | internal/ocpp16hal/hal.go:171-181 | at the wrap with three chargers the first is visited twice and the third not at all |
| RecoveryRotation.BacklogAfter | internal/ocpp16hal/v1.go:102-122 | after any passes a backlog has shrunk by 100 per visit, down to zero |
| RecoveryRotation.RotationDrains | internal/ocpp16hal/v1.go:102-122 | n * ceil(K / 100) passes drain backlogs of at most K |
| TraceWindows.WindowsAreTruthful | internal/store/v1_trigger_message_follow_on_store.go:11-64 | in every run one positive event iff OBSERVED, in (accepted, deadline], one closure event iff CLOSED, at or after the deadline, neither without a window |
| TraceWindows.AtMostOneTransition | internal/store/v1_trigger_message_follow_on_store.go:11-64 | a window leaves OPEN at most once and its other columns never change |
| TraceWindows.CloseLowersDue | internal/store/v1_trigger_message_follow_on_store.go:39-64 | a bounded close removes min(limit, due) windows from the due ones |
| TraceWindows.RepeatedClosesDrain | internal/store/v1_trigger_message_follow_on_store.go:39-64 | ceil(n / limit) closes leave no due window |
| TraceWindows.EarliestFirst | internal/store/v1_trigger_message_follow_on_store.go:39-64 | earlier closes take earlier deadlines |
| FollowOns.ObservationSettlesIff | internal/store/v1_trigger_message_follow_on_store.go:11-37 | an observation settles a window, with one event, iff it is open and charger, message, time and connector are the ones it waits for |
| FollowOns.ClosingSettles | internal/store/v1_trigger_message_follow_on_store.go:39-64 | a close settles exactly the chosen due windows, with one event each that names their own connector |
| FollowOns.DueIff | internal/store/v1_trigger_message_follow_on_store.go:39-50 | an open window is due iff its deadline has come, and can be answered until then |
| FollowOns.AcceptanceOpensIff | internal/store/v1_trace_memory.go:117-141 | a window opens, on the trace's charger and connector and for a minute, iff a timed accepted TriggerMessage reaches a trace without one |
| FollowOns.AppendsAndCreates | internal/store/v1_trace_memory.go:14-25 | an event is appended as it came to an existing trace, a trace is created once, and missing times are the current one |
| FollowOns.WindowsNameTheirTrace | internal/store/v1_trace_memory.go:117-141 | in every run a window names charger and connector of its trace |
| FollowOns.SettlementHasCause | internal/store/v1_trigger_message_follow_on_store.go:11-64 | in every run an OBSERVED window was answered by an observation and a CLOSED one met its deadline |
| TraceStore.MemoryTraceStore.EnsureTrace | internal/store/v1_trace_memory.go:14-25 | creates a trace once |
| TraceStore.MemoryTraceStore.AppendEvent | internal/store/v1_trace_memory.go:143-157 | appends one event to an existing trace, with the current time for a missing one |
| TraceStore.MemoryTraceStore.AppendAccepted | internal/store/v1_trace_memory.go:117-141 | event and 60-second window together or neither, once per trace |
| TraceStore.MemoryTraceStore.RecordFollowOn | internal/store/v1_trigger_message_follow_on_store.go:11-37 | settles exactly the matching open windows, each with one event |
| TraceStore.MemoryTraceStore.CloseWindows | internal/store/v1_trigger_message_follow_on_store.go:39-64 | closes an earliest-first batch of due windows, each with one event |
| TraceStore.MemoryTraceStore.ListEvents | internal/store/v1_trace_memory.go:166-193 | both errors, else the page behind the cursor of the sorted events |
| TracePaging.BehindCursor | internal/store/v1_trace_memory.go:183-187 | behind the cursor of a timed event lies exactly what follows it |
| TracePaging.PageIff | internal/store/v1_trace_memory.go:183-193 | a page holds the events before its cursor in time and id, the first `limit` of them or all without a limit |
| TracePaging.PagingIsComplete | internal/store/v1_trace_memory.go:166-193 | following cursors yields all events once, newest first, in exactly ceil(n / limit) non-empty pages |
| TracePaging.PagingIff | internal/store/v1_trace_memory.go:184 | the pages are the successive slices iff no event with a zero time ends one |
| TracePaging.OnlyArrangement | internal/store/v1_trace_memory.go:175-181 | with unique ids any newest-first arrangement of the events is this one |
| TracePaging.ReachablePagingIsComplete | internal/store/v1_trace_memory.go:143-193 | paging is complete in every run under a set clock |
| SoCPercent.ParseIff | internal/store/v1.go:260-270 | the result is v iff 0 <= v <= 100000 and the text amounts to exactly v/1000, by its digits for plain decimals of any length and by what the rational library reads for its other notations |
| SoCPercent.ParseInvertsText | internal/store/v1.go:239-270 | parsing inverts printing on the whole range |
| SoCPercent.TextIsExactIff | internal/store/v1.go:239-254 | printed text denotes v/1000 exactly, for every 64-bit value but the least |
| SoCPercent.TrailingZerosIgnored | internal/store/v1.go:260-270 | further zeros behind the point do not change the result |
| SoCPercent.PaddingIgnored | internal/store/v1.go:261 | white space around a numeral does not change the result |
| SoCPercent.ColumnReload | internal/store/v1_postgres.go:506-519 | the three-decimal text of the NUMERIC(6,3) column reloads the stored value |

## Left out

- PostgreSQL itself: each statement is an atomic guarded update, and a failing statement or commit is a rollback; isolation levels, SQL text and driver scanning are not modelled.
- Physical sends: a send is an entry on the wire followed by any confirmation, rejection or loss; WebSocket transport and the OCPP library are not modelled.
- Identifiers: UUIDs and claim tokens are fresh by assumption, and the CMS command id stands for the HAL command id as fact aggregate. Identity canonicalization is the identity.
- PostgresStore.Store.MaterializeStart: requires one START command per tag, which PostgresStore.TagsAreUnique proves of every run.
- LifecycleTheorems.OtherRecoveryIff: speaks about runs that were undisturbed for the transaction so far; nothing is claimed about its sends after a disturbance.
- LifecycleLocking.NoCircularWait: covers the rows of commands, credentials, transactions, workflows and numbered facts and the unique keys concurrent inserts wait for; an insert whose key duplicates a committed row that is being updated also waits for the updater, which is not modelled. The connection tables, the outbox workers and the trace tables lock one row or skip locked ones.
- Dispatchers.DispatchPendingStops: takes any 100 dispatchable workflows where the listing takes the oldest, whose creation time the model does not keep.
- Text columns without influence on the protocol: last OCPP result, error category and detail, claim expiry of commands and workflows, operation parameters, connector error details, update times.
- The completion fact's command reference and the request-dependent fields of the other fact payloads.
- Duration limits: the stop deadline column, overdue listing and deadline enforcement; such a stop is the same EnsureStop step with another cause.
- Boot evidence, admission by serial number, and authorization of id tags.
- Retention of traces: it would leave windows without traces in the memory store and cascades in PostgreSQL.
- Trace association with connectors and the sanitizer allow-lists.
- The memory store's start and stop commands; credentials are modelled on their PostgreSQL form, where the tag is a primary key.
- The pending projection between tracker and store, which a stale retry may overwrite; only what the store receives is claimed to converge.
- 64-bit overflow of meter readings, counters other than the recovery rotation, and timestamps.
- SoCPercent.ParseIff: fraction, exponent, radix-prefix and underscore notations are read by the rational library, a parameter of the model.
- TraceStore.MemoryTraceStore.ListEvents: a negative limit, on which the original panics, is not modelled.
- HTTP routing, bearer authentication, JSON encoding, SHA-256, migrations, configuration, analytics, the legacy stores and the console simulator.
