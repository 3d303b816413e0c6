/** What a stop request gets, who opens a stop workflow, and with which cause. */
module StopOrigins {
  import opened Base
  import opened MeterEvidence
  import opened LifecycleTables
  import opened LifecycleSystem
  import opened LifecycleHistory
  import opened Finality
  import StartSafety
  import StopSafety
  import FactSafety
  import Outcomes

  // ----- stop requests -----

  /** The request names the open transaction as it is. */
  predicate Names(db: Db, i: StopInput) {
    && i.transaction in db.transactions && !db.transactions[i.transaction].Done()
    && db.transactions[i.transaction].ocppId == i.ocppId && db.transactions[i.transaction].binding == i.binding
  }

  predicate Conflicts(db: Db, i: StopInput) {
    i.command in db.commands && db.commands[i.command].digest != i.digest
  }

  /** The workflow of `t` is open after the step, with its old cause, or else with the new one, shown in the transaction. */
  ghost predicate Opened(a: Db, b: Db, t: Id, cause: StopCause)
    requires t in a.transactions
  {
    if t in a.workflows then b.workflows == a.workflows && b.transactions == a.transactions
    else
      && b.workflows == a.workflows[t := Workflow(cause, Persisted, 0, None)]
      && b.transactions == a.transactions[t := a.transactions[t].(stopState := Some(Persisted), cause := Some(cause))]
  }

  /**
   * A stop request is refused as not found unless it names the open transaction. Otherwise a known command is a
   * duplicate if the digest agrees and a conflict, undone as a whole, if not; a new one is written with its fact.
   */
  lemma StopReplies(db: Db, i: StopInput)
    ensures var r := CreateStop(db, i);
            if !Names(db, i) then r == (db, Err(NotFound))
            else if Conflicts(db, i) then r == (db, Err(IdempotencyConflict))
            else
              && Opened(db, r.0, i.transaction, i.cause) && r.0.credentials == db.credentials
              && i.command in r.0.commands
              && r.1 == Ok(i.command in db.commands)
              && (i.command in db.commands ==> r.0.commands == db.commands && r.0.facts == db.facts)
              && (i.command !in db.commands ==>
                    && r.0.commands == db.commands[i.command := Command(Stop(i.transaction, i.cause), i.digest, i.binding,
                                                                        Stored(i.expiresAt), Persisted, 0, Some(i.transaction))]
                    && r.0.facts == db.facts + [Fact(CommandFact, i.command, None, CommandStatus(Persisted, 0))])
  {}

  /** Ensuring a stop opens a workflow once per open transaction, keeps the one there is, and finds none to open on a completed one. */
  lemma EnsureReplies(db: Db, t: Id, cause: StopCause)
    ensures var r := EnsureWorkflow(db, t, cause);
            && (r.1 == Ok(false) <==> t in db.transactions && t in db.workflows)
            && (r.1 == Ok(true) <==> t in db.transactions && t !in db.workflows && !Done(db, t))
            && (r.1 !in {Ok(false), Ok(true)} ==> r.1 == Err(NotFound))
            && (r.1 == Ok(true) ==> Opened(db, r.0, t, cause) && r.0 == db.(workflows := r.0.workflows, transactions := r.0.transactions))
            && (r.1 != Ok(true) ==> r.0 == db)
  {}

  ghost predicate RequestedAt(steps: seq<Step>, k: nat, c: Id)
    requires k < |steps|
  {
    && Served(steps, k) && steps[k].RequestStop? && steps[k].stop.command == c
    && CreateStop(Before(steps, k).db, steps[k].stop).1 == Ok(false)
  }

  /**
   * A stop request that was taken up and comes again for the same transaction, at any later time: not found once
   * the transaction is over; before that a duplicate if and only if the digest is the same. Nothing changes.
   */
  lemma RepeatedStop(steps: seq<Step>, k: nat, n: nat, again: StopInput)
    requires k < n <= |steps| && RequestedAt(steps, k, again.command)
    requires again.transaction == steps[k].stop.transaction && again.ocppId == steps[k].stop.ocppId
    requires again.binding == steps[k].stop.binding
    ensures CreateStop(Before(steps, n).db, again) ==
            (Before(steps, n).db,
             if Done(Before(steps, n).db, again.transaction) then Err(NotFound)
             else if again.digest == steps[k].stop.digest then Ok(true) else Err(IdempotencyConflict))
  {
    var t := again.transaction;
    Next(steps, k);
    StopReplies(Before(steps, k).db, steps[k].stop);
    Respected(steps, k + 1, n);
    assert FinalTransaction(Before(steps, k + 1).db, Before(steps, n).db, t);
    assert FinalCommand(Before(steps, k + 1).db, Before(steps, n).db, again.command);
    assert FinalWorkflow(Before(steps, k + 1).db, Before(steps, n).db, t);
    StopReplies(Before(steps, n).db, again);
  }

  // ----- where workflows come from -----

  /** Which limit a cause stands for. */
  predicate LimitCause(limits: Limits, cause: StopCause) {
    var money := limits.energySource == CustomerMoney || (limits.energySource == Unspecified && limits.limitType == MoneyLimitType);
    var wallet := limits.energySource == Wallet || (limits.energySource == Unspecified && limits.limitType == AutoLimit);
    && (cause == StopCause(MoneyLimit, MoneyReached) <==> money)
    && (cause == StopCause(WalletLimit, WalletReached) <==> wallet)
    && (cause == StopCause(EnergyLimit, EnergyReached) <==> !money && !wallet)
  }

  /** The reading counts for the open transaction and stands at or above its energy limit. */
  predicate ReachesLimit(tx: Transaction, m: Telemetry) {
    && !tx.Done() && m.energyWh.Some? && m.energyAt.Some? && m.energyWh.value >= tx.meterStart
    && (tx.meter.latest.Some? ==> m.energyWh.value >= tx.meter.latest.value - 1)
    && tx.limits.energyWh.Some? && m.energyWh.value - tx.meterStart >= tx.limits.energyWh.value
  }

  /** The step asks for the stop of `t` for this cause. */
  predicate Asks(db: Db, step: Step, t: Id, cause: StopCause) {
    || step == EnsureStop(t, cause)
    || (step.RequestStop? && step.stop.transaction == t && step.stop.cause == cause && Names(db, step.stop)
        && !Conflicts(db, step.stop))
    || (step.ChargerMetered? && step.transaction == t && t in db.transactions && ReachesLimit(db.transactions[t], step.telemetry)
        && LimitCause(db.transactions[t].limits, cause))
  }

  lemma TelemetryOpens(db: Db, t: Id, m: Telemetry)
    requires t in db.transactions
    ensures var after := UpdateTelemetry(db, t, m).0;
            && (forall u :: u in after.workflows && u !in db.workflows ==> u == t)
            && (t !in db.workflows ==> (t in after.workflows <==> ReachesLimit(db.transactions[t], m)))
            && (t !in db.workflows && t in after.workflows ==>
                  LimitCause(db.transactions[t].limits, after.workflows[t].cause))
  {
    if m.energyWh.Some? || m.soc.Some? {
      assert SameTables(TelemetryRows(db, t, m), UpdateTelemetry(db, t, m).0);
    }
  }

  lemma NoneOpened(s: State, step: Step)
    requires StartSafety.Bound(s) && (s.recovery < RECOVERY_STATEMENTS || !(step.EnsureStop? || step.RequestStop? || step.ChargerMetered?))
    ensures Apply(s, step).db.workflows.Keys == s.db.workflows.Keys
  {
    if !step.Works() {
      RecoveryOpensNone(s.db, if step.OtherRecover? then step.statement else s.recovery);
    } else if s.recovery >= RECOVERY_STATEMENTS {
      if StartSafety.IsStartStep(step) {
        StopSafety.StartStepMoves(s, step);
      } else if StartSafety.IsStopStep(step) {
        DispatchOpensNone(s, step);
      } else {
        MessageOpensNone(s, step);
      }
    }
  }

  lemma RecoveryOpensNone(db: Db, n: nat)
    ensures RecoveredTables(db, n).workflows.Keys == db.workflows.Keys
  {}

  lemma DispatchOpensNone(s: State, step: Step)
    requires StartSafety.IsStopStep(step)
    ensures Work(s, step).db.workflows.Keys == s.db.workflows.Keys
  {
    if step.StopMark? {
      FactSafety.StopMarkStep(s, step.thread, step.status, step.order);
      if Work(s, step).db != s.db { StopSafety.MarkMovesOwnRow(s.db, s.threads[step.thread].transaction, step.status, step.order); }
    }
  }

  lemma MessageOpensNone(s: State, step: Step)
    requires step.RequestStart? || step.ChargerStarted? || step.ChargerStopped?
    ensures Work(s, step).db.workflows.Keys == s.db.workflows.Keys
  {
    match step
    case RequestStart(i) => assert Work(s, step).db == CreateStart(s.db, i).0;
    case ChargerStarted(e, t) => StartOpensNone(s.db, e, t);
    case ChargerStopped(t, e) =>
      CompleteOpensNone(s.db, t, e);
      assert Work(s, step).db == Complete(s.db, t, e).0;
  }

  lemma CompleteOpensNone(db: Db, t: Id, e: StopEvidence)
    ensures Complete(db, t, e).0.workflows.Keys == db.workflows.Keys
  {
    if t in db.transactions && !db.transactions[t].Done() && StopAdmissible(db.transactions[t], e) {
      StopSafety.CompleteCloses(db, t, e);
    }
  }

  lemma StartOpensNone(db: Db, e: StartEvidence, t: Id)
    ensures Materialize(db, e, t).0.workflows == db.workflows
  {
    if Materialize(db, e, t).0 != db {
      StartSafety.MaterializedShape(db, StartCommandFor(db, e.idTag).value, e, t);
    }
  }

  /** The workflow of `t` appears exactly if the step asks for it on the open transaction, and with the cause asked for. */
  ghost predicate OpensAsAsked(a: Db, b: Db, step: Step, t: Id) {
    && (t in b.workflows <==> t in a.transactions && !Done(a, t) && exists cause :: Asks(a, step, t, cause))
    && (t in b.workflows ==> b.workflows[t].state == Persisted && Asks(a, step, t, b.workflows[t].cause))
  }

  lemma EnsureAsked(db: Db, u: Id, cause: StopCause, t: Id)
    requires t !in db.workflows
    ensures OpensAsAsked(db, EnsureWorkflow(db, u, cause).0, EnsureStop(u, cause), t)
  {
    if u == t { assert Asks(db, EnsureStop(u, cause), t, cause); }
  }

  lemma RequestAsked(db: Db, i: StopInput, t: Id)
    requires t !in db.workflows
    ensures OpensAsAsked(db, CreateStop(db, i).0, RequestStop(i), t)
  {
    StopReplies(db, i);
    if i.transaction == t && Names(db, i) && !Conflicts(db, i) { assert Asks(db, RequestStop(i), t, i.cause); }
  }

  lemma MeterAsked(db: Db, u: Id, m: Telemetry, t: Id)
    requires t !in db.workflows
    ensures OpensAsAsked(db, UpdateTelemetry(db, u, m).0, ChargerMetered(u, m), t)
  {
    if u in db.transactions {
      TelemetryOpens(db, u, m);
      if u == t && ReachesLimit(db.transactions[t], m) {
        assert Asks(db, ChargerMetered(u, m), t, UpdateTelemetry(db, u, m).0.workflows[t].cause);
      }
    }
  }

  /** In every reachable state a step opens a workflow exactly as asked, once its process has recovered. */
  lemma StepOpens(s: State, step: Step, t: Id)
    requires Sound(s) && t !in s.db.workflows
    ensures if s.recovery >= RECOVERY_STATEMENTS then OpensAsAsked(s.db, Apply(s, step).db, step, t)
            else t !in Apply(s, step).db.workflows
  {
    var after := Apply(s, step).db;
    if s.recovery < RECOVERY_STATEMENTS {
      NoneOpened(s, step);
    } else if step.EnsureStop? {
      EnsureAsked(s.db, step.transaction, step.cause, t);
      assert after == EnsureWorkflow(s.db, step.transaction, step.cause).0;
    } else if step.RequestStop? {
      RequestAsked(s.db, step.stop, t);
      assert after == CreateStop(s.db, step.stop).0;
    } else if step.ChargerMetered? {
      MeterAsked(s.db, step.transaction, step.telemetry, t);
      assert after == UpdateTelemetry(s.db, step.transaction, step.telemetry).0;
    } else {
      NoneOpened(s, step);
      assert forall cause :: !Asks(s.db, step, t, cause);
    }
  }

  /** Step `k` opened the workflow of `t`. */
  ghost predicate OpenedBy(steps: seq<Step>, k: nat, t: Id)
    requires k < |steps|
  {
    Served(steps, k) && t !in Before(steps, k).db.workflows && t in Before(steps, k + 1).db.workflows
  }

  /** Every workflow was opened by one step that asked for it, and still carries the cause that step asked for. */
  lemma {:induction false} WorkflowHasOrigin(steps: seq<Step>, n: nat, t: Id) returns (k: nat)
    requires n <= |steps| && t in Before(steps, n).db.workflows
    ensures k < n && OpenedBy(steps, k, t)
    ensures Asks(Before(steps, k).db, steps[k], t, Before(steps, n).db.workflows[t].cause)
    decreases n
  {
    if n == 0 {
      assert false;
    }
    if t in Before(steps, n - 1).db.workflows {
      k := WorkflowHasOrigin(steps, n - 1, t);
      CauseStays(steps, n - 1, n, t);
    } else {
      k := n - 1;
      NewWorkflow(steps, k, t);
    }
  }

  lemma CauseStays(steps: seq<Step>, k: nat, n: nat, t: Id)
    requires k <= n <= |steps| && t in Before(steps, k).db.workflows
    ensures t in Before(steps, n).db.workflows && Before(steps, n).db.workflows[t].cause == Before(steps, k).db.workflows[t].cause
  {
    Respected(steps, k, n);
    assert FinalWorkflow(Before(steps, k).db, Before(steps, n).db, t);
  }

  lemma NewWorkflow(steps: seq<Step>, k: nat, t: Id)
    requires k < |steps| && t !in Before(steps, k).db.workflows && t in Before(steps, k + 1).db.workflows
    ensures OpenedBy(steps, k, t) && Asks(Before(steps, k).db, steps[k], t, Before(steps, k + 1).db.workflows[t].cause)
  {
    Holds(steps, k);
    Next(steps, k);
    StepOpens(Before(steps, k), steps[k], t);
  }
}
