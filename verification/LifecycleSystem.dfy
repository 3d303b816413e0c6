/**
 * HAL processes over the durable tables: HTTP requests, charger messages and dispatcher threads
 * interleave at the granularity of SQL transactions and wire sends
 * (internal/ocpp16hal/v1.go, internal/httpapi/v1.go, cmd/ocpphal/main.go). A crash may come at any
 * point; a start runs the recovery statements before anything else. Threads may belong to any
 * number of processes: the statements of a process that starts beside running ones are
 * `OtherRecover` steps, and its death is the loss of its threads, `Abandon` steps.
 */
module LifecycleSystem {
  import opened Base
  import opened MeterEvidence
  import opened LifecycleTables

  datatype Message = StartSent(command: Id) | StopSent(transaction: Id)

  /** Where a dispatcher stands: claim won, attempt begun, row rechecked, call on the wire. */
  datatype Pc = Claimed | Begun | Ready | Sent

  datatype Thread = StartThread(command: Id, pc: Pc) | StopThread(transaction: Id, pc: Pc)

  /** `recovery` counts the recovery statements already committed since the last start. */
  datatype State = State(db: Db, threads: map<Id, Thread>, wire: multiset<Message>, recovery: nat)

  const RECOVERY_STATEMENTS := 4
  const INITIAL: State := State(EMPTY, map[], multiset{}, 0)

  datatype Step =
    | RequestStart(start: StartInput)
    | RequestStop(stop: StopInput)
    | EnsureStop(transaction: Id, cause: StopCause)
    | ChargerStarted(started: StartEvidence, halId: Id)
    | ChargerStopped(transaction: Id, stopped: StopEvidence)
    | ChargerMetered(transaction: Id, telemetry: Telemetry)
    | StartClaim(thread: Id, command: Id)
    | StartBegin(thread: Id)
    | StartSend(thread: Id)
    | StartMark(thread: Id, status: Status)
    | StopClaim(thread: Id, transaction: Id)
    | StopBegin(thread: Id)
    | StopCheck(thread: Id)
    | StopSend(thread: Id)
    | StopMark(thread: Id, status: Status, order: seq<Id>)
    | Abandon(thread: Id)
    | Recover
    | OtherRecover(statement: nat)
    | Crash
  {
    /** A step of a request, a charger message or a dispatcher, which waits for the recovery to finish. */
    predicate Works() {
      !Recover? && !OtherRecover? && !Crash?
    }
  }

  predicate StartAt(s: State, i: Id, pc: Pc) {
    i in s.threads && s.threads[i].StartThread? && s.threads[i].pc == pc
  }

  predicate StopAt(s: State, i: Id, pc: Pc) {
    i in s.threads && s.threads[i].StopThread? && s.threads[i].pc == pc
  }

  function Moved(s: State, i: Id, pc: Pc): State
    requires i in s.threads
  {
    s.(threads := s.threads[i := s.threads[i].(pc := pc)])
  }

  function Finished(s: State, i: Id): State {
    s.(threads := s.threads - {i})
  }

  /** The recovery statements in the order in which a starting process commits them. */
  const START_CLAIMS: nat := 0
  const START_ATTEMPTS: nat := 1
  const STOP_CLAIMS: nat := 2
  const STOP_ATTEMPTS: nat := 3

  function RecoveredTables(db: Db, statement: nat): Db {
    if statement == START_CLAIMS then RecoverStart(db, PendingDelivery, Persisted)
    else if statement == START_ATTEMPTS then RecoverStart(db, DeliveryAttempted, Ambiguous)
    else if statement == STOP_CLAIMS then RecoverStop(db, PendingDelivery, Persisted)
    else if statement == STOP_ATTEMPTS then RecoverStop(db, DeliveryAttempted, Ambiguous)
    else db
  }

  /** A step whose guard fails leaves the state as it is. */
  ghost function Apply(s: State, step: Step): State {
    match step
    case Crash => s.(threads := map[], recovery := 0)
    case OtherRecover(n) => s.(db := RecoveredTables(s.db, n))
    case Recover =>
      if s.recovery < RECOVERY_STATEMENTS
      then s.(db := RecoveredTables(s.db, s.recovery), recovery := s.recovery + 1) else s
    case _ => if s.recovery < RECOVERY_STATEMENTS then s else Work(s, step)
  }

  ghost function Work(s: State, step: Step): State
    requires step.Works()
  {
    match step
    case RequestStart(i) => s.(db := CreateStart(s.db, i).0)
    case RequestStop(i) => s.(db := CreateStop(s.db, i).0)
    case EnsureStop(t, cause) => s.(db := EnsureWorkflow(s.db, t, cause).0)
    case ChargerStarted(i, halId) =>
      if halId in s.db.transactions then s else s.(db := Materialize(s.db, i, halId).0)
    case ChargerStopped(t, e) => s.(db := Complete(s.db, t, e).0)
    case ChargerMetered(t, m) => s.(db := UpdateTelemetry(s.db, t, m).0)
    case StartClaim(i, c) =>
      if i !in s.threads && ClaimStart(s.db, c).1
      then s.(db := ClaimStart(s.db, c).0, threads := s.threads[i := StartThread(c, Claimed)]) else s
    case StartBegin(i) =>
      if StartAt(s, i, Claimed) then Moved(s, i, Begun).(db := BeginStart(s.db, s.threads[i].command)) else s
    case StartSend(i) =>
      if StartAt(s, i, Begun)
      then Moved(s, i, Sent).(wire := s.wire + multiset{StartSent(s.threads[i].command)}) else s
    case StartMark(i, status) =>
      if StartAt(s, i, Sent) then Finished(s, i).(db := MarkStart(s.db, s.threads[i].command, status)) else s
    case StopClaim(i, t) =>
      if i !in s.threads && ClaimStop(s.db, t).1
      then s.(db := ClaimStop(s.db, t).0, threads := s.threads[i := StopThread(t, Claimed)]) else s
    case StopBegin(i) =>
      if StopAt(s, i, Claimed) then Moved(s, i, Begun).(db := BeginStop(s.db, s.threads[i].transaction)) else s
    case StopCheck(i) =>
      if StopAt(s, i, Begun) && s.threads[i].transaction in s.db.transactions then
        if s.db.transactions[s.threads[i].transaction].Done()
        then Finished(s, i)  // the AMBIGUOUS mark on a completed transaction changes nothing
        else Moved(s, i, Ready)
      else s
    case StopSend(i) =>
      if StopAt(s, i, Ready)
      then Moved(s, i, Sent).(wire := s.wire + multiset{StopSent(s.threads[i].transaction)}) else s
    case StopMark(i, status, order) =>
      if StopAt(s, i, Sent) && Enumerates(order, LiveStops(s.db, s.threads[i].transaction))
      then Finished(s, i).(db := MarkStop(s.db, s.threads[i].transaction, status, order)) else s
    case Abandon(i) => Finished(s, i)
  }

  ghost function Run(s: State, steps: seq<Step>): State
    decreases |steps|
  {
    if steps == [] then s else Run(Apply(s, steps[0]), steps[1..])
  }

  // ----- longer runs -----

  lemma Unroll(s: State, steps: seq<Step>)
    requires steps != []
    ensures Run(s, steps) == Run(Apply(s, steps[0]), steps[1..])
  {}

  lemma {:induction false} RunConcat(s: State, a: seq<Step>, b: seq<Step>)
    ensures Run(s, a + b) == Run(Run(s, a), b)
    decreases |a|
  {
    if a == [] {
      assert a + b == b;
    } else {
      assert (a + b)[1..] == a[1..] + b;
      RunConcat(Apply(s, a[0]), a[1..], b);
    }
  }

  lemma RunOne(s: State, a: seq<Step>, step: Step)
    ensures Run(s, a + [step]) == Apply(Run(s, a), step)
  {
    RunConcat(s, a, [step]);
    Unroll(Run(s, a), [step]);
  }

  /** No other process starts while this one lives. */
  predicate OneProcess(steps: seq<Step>) {
    forall i :: 0 <= i < |steps| ==> !steps[i].OtherRecover?
  }

  /** Dispatchers exist only once the process has finished its recovery. */
  ghost predicate Recovering(s: State) {
    s.recovery < RECOVERY_STATEMENTS ==> s.threads == map[]
  }

  lemma StepRecovering(s: State, step: Step)
    requires Recovering(s)
    ensures Recovering(Apply(s, step))
  {
    if step.Works() && s.recovery >= RECOVERY_STATEMENTS {
      WorkKeepsRecovery(s, step);
    }
  }

  lemma WorkKeepsRecovery(s: State, step: Step)
    requires step.Works()
    ensures Work(s, step).recovery == s.recovery
  {}

  /** A step leaves the tables alone, works on them, or commits a recovery statement. */
  lemma StepTables(s: State, step: Step)
    ensures var after := Apply(s, step).db;
            || after == s.db
            || (if step.Works() then after == Work(s, step).db
                else after == RecoveredTables(s.db, if step.OtherRecover? then step.statement else s.recovery))
  {}
}
