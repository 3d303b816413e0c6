/** Where commands, credentials and transactions come from, when a start is admitted, and what a repeated request gets. */
module Provenance {
  import opened Base
  import opened MeterEvidence
  import opened LifecycleTables
  import opened LifecycleSystem
  import opened LifecycleHistory
  import opened Finality
  import StartSafety
  import StopSafety
  import FactSafety

  // ----- start requests -----

  ghost predicate IntentFree(db: Db, intent: Id) {
    && (forall c :: StartSafety.IsStart(db, c) ==> db.commands[c].kind.intent != intent)
    && (forall g :: g in db.credentials ==> db.credentials[g].intent != intent)
  }

  /** The row a start request leaves, delivery columns aside. */
  predicate Requests(i: StartInput, row: Command) {
    && row.kind == Start(i.intent, i.idTag, i.limits) && row.digest == i.digest && row.binding == i.binding
    && row.expiresAt == Stored(i.commandExpiresAt)
  }

  /**
   * A start request is taken up exactly when command, intent and tag are all new, and then both rows say what it asked
   * for. A known command is a duplicate if the digest agrees; with a new command only a tag or intent taken by a
   * credential alone is a storage failure, and everything else a conflict.
   */
  lemma StartCreatedIff(db: Db, i: StartInput)
    ensures var r := CreateStart(db, i);
            && (r.1 == Ok(false) <==> i.command !in db.commands && i.idTag !in db.credentials && IntentFree(db, i.intent))
            && (r.1 == Ok(true) <==> i.command in db.commands && db.commands[i.command].digest == i.digest)
            && (r.1 == Err(StorageFailure) <==>
                  && i.command !in db.commands && (i.idTag in db.credentials || !IntentFree(db, i.intent))
                  && forall c :: StartSafety.IsStart(db, c) ==> db.commands[c].kind.intent != i.intent)
            && (r.1.Err? && r.1.error != StorageFailure ==> r.1.error == IdempotencyConflict)
            && (r.1 != Ok(false) ==> r.0 == db)
            && (r.1 == Ok(false) ==>
                  && i.command in r.0.commands && Requests(i, r.0.commands[i.command])
                  && r.0.commands[i.command].state == Persisted && r.0.commands[i.command].attempts == 0
                  && r.0.commands[i.command].transaction == None
                  && r.0 == db.(commands := db.commands[i.command := r.0.commands[i.command]],
                                credentials := db.credentials[i.idTag :=
                                  Credential(i.intent, i.binding, Stored(i.credentialExpiresAt), None, None)]))
  {
    assert IntentTaken(db, i.intent) <==> exists c :: StartSafety.IsStart(db, c) && db.commands[c].kind.intent == i.intent;
  }

  /** Step `k` is the request that was taken up as command `c`. */
  ghost predicate StartedBy(steps: seq<Step>, k: nat, c: Id)
    requires k < |steps|
  {
    && Served(steps, k) && steps[k].RequestStart? && steps[k].start.command == c
    && CreateStart(Before(steps, k).db, steps[k].start).1 == Ok(false)
  }

  /** A step that adds a START command or a credential is a start request. */
  lemma StepRequests(s: State, step: Step)
    requires Sound(s)
    ensures var after := Apply(s, step).db;
            || (s.recovery >= RECOVERY_STATEMENTS && step.RequestStart? && after == CreateStart(s.db, step.start).0)
            || NoneNew(s.db, after)
  {
    if !step.Works() {
      RecoveryRequests(s.db, if step.OtherRecover? then step.statement else s.recovery);
    } else if s.recovery >= RECOVERY_STATEMENTS {
      if StartSafety.IsStartStep(step) {
        StartSafety.StartStepMoves(s, step);
      } else if StartSafety.IsStopStep(step) {
        StartSafety.StopStepMoves(s, step);
      } else if !step.RequestStart? {
        MessageRequests(s, step);
      }
    }
  }

  ghost predicate NoneNew(a: Db, b: Db) {
    b.credentials.Keys == a.credentials.Keys && forall c :: StartSafety.IsStart(b, c) ==> StartSafety.IsStart(a, c)
  }

  lemma RecoveryRequests(db: Db, n: nat)
    ensures NoneNew(db, RecoveredTables(db, n))
  {}

  lemma MessageRequests(s: State, step: Step)
    requires step.Works() && !StartSafety.IsStartStep(step) && !StartSafety.IsStopStep(step) && !step.RequestStart?
    ensures NoneNew(s.db, Work(s, step).db)
  {
    match step
    case RequestStop(i) => StartSafety.CreateStopSameStart(s.db, i);
    case EnsureStop(t, cause) => StartSafety.EnsureSameStart(s.db, t, cause);
    case ChargerStarted(i, halId) =>
      if halId !in s.db.transactions && Materialize(s.db, i, halId).0 != s.db {
        StartSafety.MaterializedShape(s.db, StartCommandFor(s.db, i.idTag).value, i, halId);
      }
    case ChargerStopped(t, e) => StartSafety.CompleteSameStart(s.db, t, e);
    case ChargerMetered(t, m) => StartSafety.TelemetrySameStart(s.db, t, m);
  }

  /** Every START command comes from the one request that was taken up under its id, and still says what that asked for. */
  lemma {:induction false} StartHasRequest(steps: seq<Step>, n: nat, c: Id) returns (k: nat)
    requires n <= |steps| && StartSafety.IsStart(Before(steps, n).db, c)
    ensures k < n && StartedBy(steps, k, c) && Requests(steps[k].start, Before(steps, n).db.commands[c])
    ensures forall j: nat :: j < n && j != k ==> !StartedBy(steps, j, c)
    decreases n
  {
    if n == 0 {
      assert false;
    }
    if StartSafety.IsStart(Before(steps, n - 1).db, c) {
      k := StartHasRequest(steps, n - 1, c);
      RequestStays(steps, n - 1, n, c);
    } else {
      k := n - 1;
      NewCommand(steps, k, c);
      forall j: nat | j < k ensures !StartedBy(steps, j, c) {
        if StartedBy(steps, j, c) { Requested(steps, j, k, c); }
      }
    }
  }

  lemma NewCommand(steps: seq<Step>, k: nat, c: Id)
    requires k < |steps| && !StartSafety.IsStart(Before(steps, k).db, c) && StartSafety.IsStart(Before(steps, k + 1).db, c)
    ensures StartedBy(steps, k, c) && Requests(steps[k].start, Before(steps, k + 1).db.commands[c])
  {
    Holds(steps, k);
    Next(steps, k);
    StepRequests(Before(steps, k), steps[k]);
    StartCreatedIff(Before(steps, k).db, steps[k].start);
  }

  lemma RequestStays(steps: seq<Step>, k: nat, n: nat, c: Id)
    requires k <= n <= |steps| && c in Before(steps, k).db.commands
    ensures c in Before(steps, n).db.commands && SameRequest(Before(steps, k).db.commands[c], Before(steps, n).db.commands[c])
  {
    Respected(steps, k, n);
    assert FinalCommand(Before(steps, k).db, Before(steps, n).db, c);
  }

  /** A request that was taken up is on record ever after. */
  lemma Requested(steps: seq<Step>, k: nat, n: nat, c: Id)
    requires k < n <= |steps| && StartedBy(steps, k, c)
    ensures StartSafety.IsStart(Before(steps, n).db, c) && Requests(steps[k].start, Before(steps, n).db.commands[c])
  {
    Next(steps, k);
    StartCreatedIff(Before(steps, k).db, steps[k].start);
    RequestStays(steps, k + 1, n, c);
  }

  /** No two START commands share an intent, and every credential has its START command. */
  lemma IntentsAreUnique(steps: seq<Step>, n: nat, c: Id, d: Id)
    requires n <= |steps| && StartSafety.IsStart(Before(steps, n).db, c) && StartSafety.IsStart(Before(steps, n).db, d)
    requires Before(steps, n).db.commands[c].kind.intent == Before(steps, n).db.commands[d].kind.intent
    ensures c == d
  {
    var k := StartHasRequest(steps, n, c);
    var l := StartHasRequest(steps, n, d);
    if k < l { LaterIntentDiffers(steps, k, l, c, d); }
    if l < k { LaterIntentDiffers(steps, l, k, d, c); }
  }

  lemma LaterIntentDiffers(steps: seq<Step>, k: nat, l: nat, c: Id, d: Id)
    requires k < l < |steps| && StartedBy(steps, k, c) && StartedBy(steps, l, d)
    ensures steps[k].start.intent != steps[l].start.intent
  {
    Requested(steps, k, l, c);
    StartCreatedIff(Before(steps, l).db, steps[l].start);
  }

  lemma {:induction false} CredentialHasCommand(steps: seq<Step>, n: nat, g: Id) returns (c: Id)
    requires n <= |steps| && g in Before(steps, n).db.credentials
    ensures StartSafety.IsStart(Before(steps, n).db, c) && Before(steps, n).db.commands[c].kind.idTag == g
    decreases n
  {
    if n == 0 {
      assert false;
    }
    Holds(steps, n - 1);
    Next(steps, n - 1);
    StepRequests(Before(steps, n - 1), steps[n - 1]);
    if g in Before(steps, n - 1).db.credentials {
      c := CredentialHasCommand(steps, n - 1, g);
      RequestStays(steps, n - 1, n, c);
    } else {
      c := steps[n - 1].start.command;
      StartCreatedIff(Before(steps, n - 1).db, steps[n - 1].start);
    }
  }

  // ----- admission of a start -----

  /** What the message alone must satisfy; its clocks agree up to 15 minutes, or the wrap of their distance. */
  predicate WellFormed(e: StartEvidence) {
    && e.meterStart >= 0 && e.ocppId > 0 && e.connector > 0 && e.actualStartedAt != 0 && e.observedAt != 0
    && (-MAX_CLOCK_SKEW <= e.actualStartedAt - e.observedAt <= MAX_CLOCK_SKEW || e.actualStartedAt - e.observedAt <= -TWO_63)
  }

  /** Command `c` waits for this start: its tag, its place, in time, and its OCPP id is new. */
  ghost predicate Awaits(db: Db, c: Id, e: StartEvidence) {
    && StartSafety.IsStart(db, c) && db.commands[c].kind.idTag == e.idTag && db.commands[c].transaction == None
    && db.commands[c].binding.charger == e.charger && db.commands[c].binding.connector == e.connector
    && db.commands[c].expiresAt > e.observedAt
    && e.idTag in db.credentials && db.credentials[e.idTag].expiresAt > e.observedAt
    && forall t :: t in db.transactions ==> db.transactions[t].ocppId != e.ocppId
  }

  /** The row of a transaction that starts from request `i` with evidence `e`. */
  predicate StartsFrom(tx: Transaction, i: StartInput, e: StartEvidence) {
    && tx.intent == i.intent && tx.command == i.command && tx.binding == i.binding && tx.limits == i.limits
    && tx.idTag == i.idTag == e.idTag && tx.binding.charger == e.charger && tx.binding.connector == e.connector
    && tx.ocppId == e.ocppId && tx.meterStart == e.meterStart
    && tx.actualStartedAt == Stored(e.actualStartedAt) && tx.observedStartedAt == Stored(e.observedAt)
  }

  predicate Fresh(tx: Transaction) {
    && tx.meter == Meter(None, None, 0, 0) && tx.soc == SoC(None, None, None, 0)
    && tx.stopState == None && tx.cause == None && tx.stop == StopColumns(None, None, 0, None, None, None, None)
  }

  /** What an admitted start writes: a fresh transaction, the used credential, the bound command, two facts. */
  ghost predicate Admitted(a: Db, b: Db, c: Id, e: StartEvidence, t: Id)
    requires StartSafety.IsStart(a, c) && e.idTag in a.credentials
  {
    && t in b.transactions && Fresh(b.transactions[t])
    && b.transactions[t].limits == a.commands[c].kind.limits && b.transactions[t].command == c
    && b.transactions[t].intent == a.credentials[e.idTag].intent && b.transactions[t].binding == a.credentials[e.idTag].binding
    && b.transactions[t].idTag == e.idTag && b.transactions[t].ocppId == e.ocppId && b.transactions[t].meterStart == e.meterStart
    && b.transactions[t].actualStartedAt == Stored(e.actualStartedAt) && b.transactions[t].observedStartedAt == Stored(e.observedAt)
    && b == a.(transactions := a.transactions[t := b.transactions[t]],
               credentials := a.credentials[e.idTag :=
                 a.credentials[e.idTag].(consumedAt := Some(Stored(e.observedAt)), transaction := Some(t))],
               commands := a.commands[c := a.commands[c].(state := Materialized, transaction := Some(t))],
               facts := a.facts + [Fact(StartedFact, t, None, Started(c, e.meterStart)),
                                   Fact(CommandFact, c, None, CommandStatus(Materialized, 0))])
  }

  lemma AdmissionRecords(db: Db, e: StartEvidence, t: Id) returns (c: Id)
    requires Materialize(db, e, t).1 == Ok((t, false))
    requires e.idTag in db.credentials && db.credentials[e.idTag].transaction == None
    ensures StartSafety.IsStart(db, c) && db.commands[c].kind.idTag == e.idTag && Admitted(db, Materialize(db, e, t).0, c, e, t)
    ensures db.commands[c].expiresAt > e.observedAt
    ensures db.credentials[e.idTag].expiresAt > e.observedAt && db.credentials[e.idTag].binding.charger == e.charger
    ensures db.credentials[e.idTag].binding.connector == e.connector
  {
    c := StartCommandFor(db, e.idTag).value;
    var rows := MaterializedRows(db, c, e, t);
    assert rows.facts == db.facts + [Fact(StartedFact, t, None, Started(c, e.meterStart)), MaterializedFact(c)];
    assert rows == Materialize(db, e, t).0;
  }

  ghost predicate UniqueIntents(db: Db) {
    forall c, d ::
      StartSafety.IsStart(db, c) && StartSafety.IsStart(db, d) && db.commands[c].kind.intent == db.commands[d].kind.intent ==>
        c == d
  }

  /** With one START command per intent and tag, a start is admitted exactly when some command awaits it. */
  lemma AdmittedIff(db: Db, e: StartEvidence, t: Id)
    requires StartSafety.Links(db) && t !in db.transactions
    requires UniqueIntents(db)
    ensures Materialize(db, e, t).1 == Ok((t, false)) <==> WellFormed(e) && exists c :: Awaits(db, c, e)
  {
    PlausibleIff(e.actualStartedAt, e.observedAt);
    if Materialize(db, e, t).1 == Ok((t, false)) {
      var c := StartCommandFor(db, e.idTag).value;
      assert StartSafety.CommandLink(db, c);
      assert Awaits(db, c, e);
    }
    if WellFormed(e) && exists c :: Awaits(db, c, e) {
      var c :| Awaits(db, c, e);
      AwaitedIsAdmitted(db, c, e, t);
    }
  }

  lemma AwaitedIsAdmitted(db: Db, c: Id, e: StartEvidence, t: Id)
    requires StartSafety.Links(db) && t !in db.transactions && WellFormed(e) && Awaits(db, c, e)
    requires UniqueIntents(db)
    ensures Materialize(db, e, t).1 == Ok((t, false))
  {
    PlausibleIff(e.actualStartedAt, e.observedAt);
    assert StartSafety.CommandLink(db, c);
    var chosen := StartCommandFor(db, e.idTag);
    assert chosen.Some? && StartSafety.IsStart(db, chosen.value);
    forall u | u in db.transactions
      ensures db.transactions[u].intent != db.credentials[e.idTag].intent && db.transactions[u].command != c
    {
      assert StartSafety.TransactionLink(db, u);
    }
  }

  /** The transaction a tag was used for, if any. */
  function UsedFor(db: Db, idTag: Id): Option<Id> {
    if idTag in db.credentials then db.credentials[idTag].transaction else None
  }

  /**
   * Every reply to a StartTransaction in every reachable state: malformed evidence is invalid; a used tag gets
   * its transaction back if place and meter agree; otherwise it starts exactly if some command awaits it, and is
   * refused else. Nothing changes but by a start, and the storage errors never occur.
   */
  lemma StartReplies(steps: seq<Step>, e: StartEvidence, t: Id)
    requires t !in Run(INITIAL, steps).db.transactions
    ensures var db := Run(INITIAL, steps).db;
            var reply := Materialize(db, e, t);
            && (reply.1 == Ok((t, false)) <==> WellFormed(e) && exists c :: Awaits(db, c, e))
            && (reply.1 != Ok((t, false)) ==>
                  && reply.0 == db
                  && if !WellFormed(e) then reply.1 == Err(InvalidEvidence)
                     else if UsedFor(db, e.idTag).Some? then
                       var u := UsedFor(db, e.idTag).value;
                       u in db.transactions && reply.1 ==
                         if db.transactions[u].binding.charger == e.charger && db.transactions[u].binding.connector == e.connector
                            && db.transactions[u].meterStart == e.meterStart
                         then Ok((u, true)) else Err(CredentialRejected)
                     else reply.1 == Err(CredentialRejected))
  {
    AtEnd(steps);
    Holds(steps, |steps|);
    var db := Before(steps, |steps|).db;
    forall c, d | StartSafety.IsStart(db, c) && StartSafety.IsStart(db, d)
                  && db.commands[c].kind.intent == db.commands[d].kind.intent
      ensures c == d
    {
      IntentsAreUnique(steps, |steps|, c, d);
    }
    AdmittedIff(db, e, t);
    if e.idTag in db.credentials {
      var c := CredentialHasCommand(steps, |steps|, e.idTag);
      assert StartSafety.CredentialLink(db, e.idTag);
      if Materialize(db, e, t).1 != Ok((t, false)) { OtherReplies(db, e, t, c); }
    } else {
      PlausibleIff(e.actualStartedAt, e.observedAt);
    }
  }

  lemma OtherReplies(db: Db, e: StartEvidence, t: Id, c: Id)
    requires e.idTag in db.credentials && StartSafety.CredentialLink(db, e.idTag)
    requires StartSafety.IsStart(db, c) && db.commands[c].kind.idTag == e.idTag && Materialize(db, e, t).1 != Ok((t, false))
    ensures var reply := Materialize(db, e, t);
            && reply.0 == db
            && if !WellFormed(e) then reply.1 == Err(InvalidEvidence)
               else if UsedFor(db, e.idTag).Some? then
                 var u := UsedFor(db, e.idTag).value;
                 u in db.transactions && reply.1 ==
                   if db.transactions[u].binding.charger == e.charger && db.transactions[u].binding.connector == e.connector
                      && db.transactions[u].meterStart == e.meterStart
                   then Ok((u, true)) else Err(CredentialRejected)
               else reply.1 == Err(CredentialRejected)
  {
    PlausibleIff(e.actualStartedAt, e.observedAt);
    assert StartCommandFor(db, e.idTag).Some?;
  }

  // ----- where transactions come from -----

  /** Step `k` is the start that was admitted as transaction `t`. */
  ghost predicate AdmittedBy(steps: seq<Step>, k: nat, t: Id)
    requires k < |steps|
  {
    && Served(steps, k) && steps[k].ChargerStarted? && steps[k].halId == t && t !in Before(steps, k).db.transactions
    && Materialize(Before(steps, k).db, steps[k].started, t).1 == Ok((t, false))
  }

  /** The request came before the start, the start came in time, and the row says what both said. */
  ghost predicate Originates(steps: seq<Step>, j: nat, k: nat, n: nat, t: Id)
    requires k < n <= |steps| && t in Before(steps, n).db.transactions
  {
    && j < k && StartedBy(steps, j, Before(steps, n).db.transactions[t].command) && AdmittedBy(steps, k, t)
    && StartsFrom(Before(steps, n).db.transactions[t], steps[j].start, steps[k].started) && WellFormed(steps[k].started)
    && Stored(steps[j].start.commandExpiresAt) > steps[k].started.observedAt
  }

  /** Every transaction comes from one accepted request and one admitted start after it, and keeps what they said, limits included. */
  lemma {:induction false} TransactionHasOrigin(steps: seq<Step>, n: nat, t: Id) returns (j: nat, k: nat)
    requires n <= |steps| && t in Before(steps, n).db.transactions
    ensures k < n && Originates(steps, j, k, n, t)
    decreases n
  {
    if n == 0 {
      assert false;
    }
    if t in Before(steps, n - 1).db.transactions {
      j, k := TransactionHasOrigin(steps, n - 1, t);
      IdentityStays(steps, n - 1, n, t);
    } else {
      k := n - 1;
      j := NewTransactionOrigin(steps, k, t);
    }
  }

  lemma IdentityStays(steps: seq<Step>, k: nat, n: nat, t: Id)
    requires k <= n <= |steps| && t in Before(steps, k).db.transactions
    ensures t in Before(steps, n).db.transactions
    ensures SameIdentity(Before(steps, k).db.transactions[t], Before(steps, n).db.transactions[t])
  {
    Respected(steps, k, n);
    assert FinalTransaction(Before(steps, k).db, Before(steps, n).db, t);
  }

  lemma NewTransactionOrigin(steps: seq<Step>, k: nat, t: Id) returns (j: nat)
    requires k < |steps| && t !in Before(steps, k).db.transactions && t in Before(steps, k + 1).db.transactions
    ensures Originates(steps, j, k, k + 1, t)
  {
    Holds(steps, k);
    Next(steps, k);
    var s, step := Before(steps, k), steps[k];
    NewTransactionStep(s, step, t);
    PlausibleIff(step.started.actualStartedAt, step.started.observedAt);
    var c := AdmissionRecords(s.db, step.started, t);
    j := StartHasRequest(steps, k, c);
    assert StartSafety.CommandLink(s.db, c);
  }

  lemma NewTransactionStep(s: State, step: Step, t: Id)
    requires Sound(s) && t !in s.db.transactions && t in Apply(s, step).db.transactions
    ensures s.recovery >= RECOVERY_STATEMENTS && step.ChargerStarted? && step.halId == t
    ensures Materialize(s.db, step.started, t).1 == Ok((t, false)) && Apply(s, step).db == Materialize(s.db, step.started, t).0
    ensures step.started.idTag in s.db.credentials && s.db.credentials[step.started.idTag].transaction == None
  {
    if !FromCharger(step) || s.recovery < RECOVERY_STATEMENTS {
      StepQuiet(s, step);
    } else if step.ChargerMetered? {
      MeteredAlone(s, step.transaction, step.telemetry);
    } else if step.ChargerStopped? {
      StoppedAlone(s, step.transaction, step.stopped);
    } else {
      StartedAlone(s, step.started, step.halId);
    }
  }

  // ----- repeated start requests -----

  /**
   * A request that was taken up and comes again, at any later time: a duplicate if and only if the digest is the
   * same, a conflict otherwise, and nothing changes.
   */
  lemma RepeatedRequest(steps: seq<Step>, k: nat, n: nat, again: StartInput)
    requires k < n <= |steps| && StartedBy(steps, k, again.command)
    ensures CreateStart(Before(steps, n).db, again) ==
            (Before(steps, n).db, if again.digest == steps[k].start.digest then Ok(true) else Err(IdempotencyConflict))
  {
    Requested(steps, k, n, again.command);
  }
}
