/** Concrete runs: the situations in which the weaker guarantees bite are reachable. */
module LifecycleWitness {
  import opened Base
  import opened MeterEvidence
  import opened LifecycleTables
  import opened LifecycleSystem
  import LifecycleTheorems
  import StartSafety

  const BINDING: Binding := Binding(1, 2, 3, 4, 1)
  const NO_LIMITS: Limits := Limits(AutoLimit, None, NoLimitSource)
  const REQUEST: StartInput := StartInput(10, 0, 11, 12, BINDING, 9_000_000, 10_000_000, NO_LIMITS)
  const EVIDENCE: StartEvidence := StartEvidence(4, 1, 12, 100, 1_000_000, 1_000_000, 77)
  const HAL_ID: Id := 20

  /** The first start of the process on empty tables. */
  const BOOT: seq<Step> := [Recover, Recover, Recover, Recover]

  lemma Booted()
    ensures Run(INITIAL, BOOT) == INITIAL.(recovery := RECOVERY_STATEMENTS)
  {
    var s0 := INITIAL;
    assert forall n :: RecoveredTables(EMPTY, n) == EMPTY;
    Unroll(s0, BOOT);
    Unroll(s0.(recovery := 1), [Recover, Recover, Recover]);
    Unroll(s0.(recovery := 2), [Recover, Recover]);
    Unroll(s0.(recovery := 3), [Recover]);
    assert BOOT[1..] == [Recover, Recover, Recover];
    assert [Recover, Recover, Recover][1..] == [Recover, Recover];
    assert [Recover, Recover][1..] == [Recover];
  }

  const REQUESTED: seq<Step> := BOOT + [RequestStart(REQUEST)]

  lemma AfterRequest()
    ensures var s := Run(INITIAL, REQUESTED);
            && s.recovery == RECOVERY_STATEMENTS && s.threads == map[] && s.wire == multiset{}
            && s.db.transactions == map[] && s.db.workflows == map[]
            && s.db.commands == map[10 := Command(Start(11, 12, NO_LIMITS), 0, BINDING, 10_000_000, Persisted, 0, None)]
            && s.db.credentials == map[12 := Credential(11, BINDING, 9_000_000, None, None)]
  {
    Booted();
    RunOne(INITIAL, BOOT, RequestStart(REQUEST));
  }

  /** The start evidence of the witness is admitted in either delivery state of the command. */
  lemma EvidenceAdmitted(db: Db, state: Delivery)
    requires db.transactions == map[]
    requires db.commands == map[10 := Command(Start(11, 12, NO_LIMITS), 0, BINDING, 10_000_000, state, 0, None)]
    requires db.credentials == map[12 := Credential(11, BINDING, 9_000_000, None, None)]
    ensures Materialize(db, EVIDENCE, HAL_ID) == (MaterializedRows(db, 10, EVIDENCE, HAL_ID), Ok((HAL_ID, false)))
  {
    assert db.commands[10].kind.idTag == 12 && 10 in db.commands;
    assert StartCommandFor(db, 12) == Some(10);
  }

  /** A RemoteStart leaves for the charger though no attempt was ever recorded. */
  lemma UnrecordedRemoteStart()
    ensures var s := Run(INITIAL, REQUESTED + [StartClaim(5, 10)] + [ChargerStarted(EVIDENCE, HAL_ID)]
                                  + [StartBegin(5)] + [StartSend(5)]);
            s.wire[StartSent(10)] == 1 && 10 in s.db.commands && s.db.commands[10].attempts == 0
  {
    AfterRequest();
    var a := REQUESTED;
    var b := a + [StartClaim(5, 10)];
    var c := b + [ChargerStarted(EVIDENCE, HAL_ID)];
    RunOne(INITIAL, a, StartClaim(5, 10));
    MaterializedUnderClaim(Run(INITIAL, b));
    RunOne(INITIAL, b, ChargerStarted(EVIDENCE, HAL_ID));
    LifecycleTheorems.AttemptRecordedIff(Run(INITIAL, c), 10, 5);
    RunOne(INITIAL, c, StartBegin(5));
    RunOne(INITIAL, c + [StartBegin(5)], StartSend(5));
  }

  /** The same without a materialization: another process returned the claim. */
  lemma UnrecordedAfterRecovery()
    ensures var s := Run(INITIAL, REQUESTED + [StartClaim(5, 10)] + [OtherRecover(START_CLAIMS)]
                                  + [StartBegin(5)] + [StartSend(5)]);
            && s.wire[StartSent(10)] == 1 && s.db.transactions == map[]
            && 10 in s.db.commands && s.db.commands[10].attempts == 0 && s.db.commands[10].state == Persisted
  {
    var b := REQUESTED + [StartClaim(5, 10)];
    var c := b + [OtherRecover(START_CLAIMS)];
    AfterStartClaim();
    ReturnedUnderClaim(Run(INITIAL, b));
    RunOne(INITIAL, b, OtherRecover(START_CLAIMS));
    LifecycleTheorems.AttemptRecordedIff(Run(INITIAL, c), 10, 5);
    RunOne(INITIAL, c, StartBegin(5));
    RunOne(INITIAL, c + [StartBegin(5)], StartSend(5));
  }

  lemma AfterStartClaim()
    ensures var s := Run(INITIAL, REQUESTED + [StartClaim(5, 10)]);
            && s.recovery == RECOVERY_STATEMENTS && s.threads == map[5 := StartThread(10, Claimed)] && s.wire == multiset{}
            && s.db.transactions == map[]
            && s.db.commands == map[10 := Command(Start(11, 12, NO_LIMITS), 0, BINDING, 10_000_000, PendingDelivery, 0, None)]
  {
    AfterRequest();
    RunOne(INITIAL, REQUESTED, StartClaim(5, 10));
  }

  lemma ReturnedUnderClaim(s: State)
    requires s.recovery == RECOVERY_STATEMENTS && s.threads == map[5 := StartThread(10, Claimed)] && s.wire == multiset{}
    requires s.db.transactions == map[]
    requires s.db.commands == map[10 := Command(Start(11, 12, NO_LIMITS), 0, BINDING, 10_000_000, PendingDelivery, 0, None)]
    ensures var s' := Apply(s, OtherRecover(START_CLAIMS));
            && s'.recovery == s.recovery && s'.threads == s.threads && s'.wire == s.wire && s'.db.transactions == map[]
            && StartSafety.IsStart(s'.db, 10) && s'.db.commands[10].state == Persisted && s'.db.commands[10].attempts == 0
  {}

  /** The charger reports the start while the dispatcher stands between claim and attempt. */
  lemma MaterializedUnderClaim(s: State)
    requires s.recovery == RECOVERY_STATEMENTS && s.threads == map[5 := StartThread(10, Claimed)] && s.wire == multiset{}
    requires s.db.transactions == map[] && s.db.credentials == map[12 := Credential(11, BINDING, 9_000_000, None, None)]
    requires s.db.commands == map[10 := Command(Start(11, 12, NO_LIMITS), 0, BINDING, 10_000_000, PendingDelivery, 0, None)]
    ensures var s' := Apply(s, ChargerStarted(EVIDENCE, HAL_ID));
            && s'.recovery == s.recovery && s'.threads == s.threads && s'.wire == s.wire
            && StartSafety.IsStart(s'.db, 10) && s'.db.commands[10].state == Materialized && s'.db.commands[10].attempts == 0
  {
    EvidenceAdmitted(s.db, PendingDelivery);
  }

  const STOPPING: seq<Step> := [EnsureStop(HAL_ID, StopCause(Cpo, LifecycleTables.Requested(0)))] + [StopClaim(5, HAL_ID)]

  /** With a second process recovering in between, two RemoteStops leave for one transaction. */
  lemma TwoRemoteStops()
    ensures Run(INITIAL, REQUESTED + [ChargerStarted(EVIDENCE, HAL_ID)] + STOPPING
                         + [OtherRecover(STOP_CLAIMS)] + LifecycleTheorems.BothStop(HAL_ID, 5, 6)).wire[StopSent(HAL_ID)] == 2
  {
    var d := REQUESTED + [ChargerStarted(EVIDENCE, HAL_ID)] + STOPPING;
    AfterClaim();
    LifecycleTheorems.SecondProcessSendsTwice(Run(INITIAL, d), HAL_ID, 5, 6);
    RunOne(INITIAL, d, OtherRecover(STOP_CLAIMS));
    RunConcat(INITIAL, d + [OtherRecover(STOP_CLAIMS)], LifecycleTheorems.BothStop(HAL_ID, 5, 6));
  }

  lemma AfterClaim()
    ensures var s := Run(INITIAL, REQUESTED + [ChargerStarted(EVIDENCE, HAL_ID)] + STOPPING);
            && s.threads == map[5 := StopThread(HAL_ID, Claimed)] && s.wire == multiset{}
            && LifecycleTheorems.Dispatching(s, 5, HAL_ID, Claimed) && s.db.workflows[HAL_ID].state == PendingDelivery
  {
    var cause := StopCause(Cpo, LifecycleTables.Requested(0));
    var b := REQUESTED + [ChargerStarted(EVIDENCE, HAL_ID)];
    var c := b + [EnsureStop(HAL_ID, cause)];
    AfterStart();
    RunOne(INITIAL, b, EnsureStop(HAL_ID, cause));
    RunOne(INITIAL, c, StopClaim(5, HAL_ID));
    assert b + STOPPING == c + [StopClaim(5, HAL_ID)];
  }

  lemma AfterStart()
    ensures var s := Run(INITIAL, REQUESTED + [ChargerStarted(EVIDENCE, HAL_ID)]);
            && s.recovery == RECOVERY_STATEMENTS && s.threads == map[] && s.wire == multiset{} && s.db.workflows == map[]
            && HAL_ID in s.db.transactions
            && s.db.transactions[HAL_ID] == NewTransaction(Credential(11, BINDING, 9_000_000, None, None), 10, NO_LIMITS, EVIDENCE)
  {
    AfterRequest();
    EvidenceAdmitted(Run(INITIAL, REQUESTED).db, Persisted);
    RunOne(INITIAL, REQUESTED, ChargerStarted(EVIDENCE, HAL_ID));
  }

  // ----- retransmitted stop evidence -----

  /** Stop evidence whose time is no whole microsecond. */
  const STOPPED: StopEvidence := StopEvidence(150, 0, 2_000_500, 2_000_500)

  /** The charger's exact retransmission of accepted stop evidence is refused. */
  lemma RefusedRetransmission()
    ensures var s := Run(INITIAL, REQUESTED + [ChargerStarted(EVIDENCE, HAL_ID)] + [ChargerStopped(HAL_ID, STOPPED)]);
            && HAL_ID in s.db.transactions && s.db.transactions[HAL_ID].Done()
            && Complete(s.db, HAL_ID, STOPPED) == (s.db, Err(InvalidEvidence))
  {
    var b := REQUESTED + [ChargerStarted(EVIDENCE, HAL_ID)];
    AfterStart();
    RunOne(INITIAL, b, ChargerStopped(HAL_ID, STOPPED));
    var s := Run(INITIAL, b);
    LifecycleTheorems.RetransmittedStop(b, HAL_ID, STOPPED, [], STOPPED);
    assert Run(Apply(s, ChargerStopped(HAL_ID, STOPPED)), []) == Apply(s, ChargerStopped(HAL_ID, STOPPED));
  }

  // ----- start evidence from another age -----

  /** Received in the year 2025, with a charger clock that stands one day after Go's zero time. */
  const RECEIVED: Time := 63_900_000_000 * SECOND
  const ANCIENT: StartEvidence := StartEvidence(4, 1, 12, 100, 86_400 * SECOND, RECEIVED, 77)
  const LASTING: StartInput := StartInput(10, 0, 11, 12, BINDING, RECEIVED + SECOND, RECEIVED + SECOND, NO_LIMITS)

  /** The clock check lets it through: the distance saturates and its negation overflows. */
  lemma AncientIsPlausible()
    ensures Plausible(ANCIENT.actualStartedAt, RECEIVED)
    ensures ANCIENT.actualStartedAt < RECEIVED - MAX_CLOCK_SKEW
  {}

  /** So a transaction is materialized with a start some two thousand years before it was received. */
  lemma AncientStartIsMaterialized()
    ensures var s := Run(INITIAL, BOOT + [RequestStart(LASTING)] + [ChargerStarted(ANCIENT, HAL_ID)]);
            HAL_ID in s.db.transactions && s.db.transactions[HAL_ID].actualStartedAt == 86_400 * SECOND
  {
    var b := BOOT + [RequestStart(LASTING)];
    AfterLasting();
    RunOne(INITIAL, b, ChargerStarted(ANCIENT, HAL_ID));
    AncientAdmitted(Run(INITIAL, b).db);
  }

  lemma AfterLasting()
    ensures var s := Run(INITIAL, BOOT + [RequestStart(LASTING)]);
            && s.recovery == RECOVERY_STATEMENTS && s.db.transactions == map[]
            && s.db.commands == map[10 := Command(Start(11, 12, NO_LIMITS), 0, BINDING, RECEIVED + SECOND, Persisted, 0, None)]
            && s.db.credentials == map[12 := Credential(11, BINDING, RECEIVED + SECOND, None, None)]
  {
    Booted();
    RunOne(INITIAL, BOOT, RequestStart(LASTING));
  }

  lemma AncientAdmitted(db: Db)
    requires db.transactions == map[]
    requires db.commands == map[10 := Command(Start(11, 12, NO_LIMITS), 0, BINDING, RECEIVED + SECOND, Persisted, 0, None)]
    requires db.credentials == map[12 := Credential(11, BINDING, RECEIVED + SECOND, None, None)]
    ensures Materialize(db, ANCIENT, HAL_ID).0 == MaterializedRows(db, 10, ANCIENT, HAL_ID)
    ensures var tx := MaterializedRows(db, 10, ANCIENT, HAL_ID).transactions;
            HAL_ID in tx && tx[HAL_ID].actualStartedAt == 86_400 * SECOND
  {
    AncientIsPlausible();
    assert db.commands[10].kind.idTag == 12 && 10 in db.commands;
    assert StartCommandFor(db, 12) == Some(10);
  }
}
