/**
 * Runs seen as histories: the state before each step, and what holds at every moment. What was
 * committed after some steps is respected after more of them, and a completed transaction stays
 * as it is. A step changes what transactions there are, what they measured and whether they are
 * over only if it is a message of the charger that a recovered process serves: a start adds one
 * row, a reading updates one, a stop completes one, and every other row stays where it is.
 */
module LifecycleHistory {
  import opened Base
  import opened MeterEvidence
  import opened LifecycleTables
  import opened LifecycleSystem
  import opened Finality
  import StartSafety
  import StopSafety
  import FactSafety

  /** The state after the first `k` steps of a run from empty tables. */
  ghost function Before(steps: seq<Step>, k: nat): State
    requires k <= |steps|
  {
    Run(INITIAL, steps[..k])
  }

  lemma Next(steps: seq<Step>, k: nat)
    requires k < |steps|
    ensures Before(steps, k + 1) == Apply(Before(steps, k), steps[k])
  {
    assert steps[..k + 1] == steps[..k] + [steps[k]];
    RunOne(INITIAL, steps[..k], steps[k]);
  }

  lemma AtEnd(steps: seq<Step>)
    ensures Before(steps, |steps|) == Run(INITIAL, steps)
  {
    assert steps[..|steps|] == steps;
  }

  lemma Rest(steps: seq<Step>, k: nat, n: nat)
    requires k <= n <= |steps|
    ensures Before(steps, n) == Run(Before(steps, k), steps[k..n])
  {
    assert steps[..n] == steps[..k] + steps[k..n];
    RunConcat(INITIAL, steps[..k], steps[k..n]);
  }

  lemma Holds(steps: seq<Step>, k: nat)
    requires k <= |steps|
    ensures Sound(Before(steps, k)) && FactSafety.Inv(Before(steps, k).db)
  {
    RunFinal(INITIAL, steps[..k]);
    assert forall t :: FactSafety.FactsFor([], t) == FactSafety.NOTHING;
    FactSafety.RunKeeps(INITIAL, steps[..k]);
  }

  /** What was committed after `k` steps is respected after `n`. */
  lemma Respected(steps: seq<Step>, k: nat, n: nat)
    requires k <= n <= |steps|
    ensures Sound(Before(steps, k)) && Final(Before(steps, k).db, Before(steps, n).db)
  {
    Holds(steps, k);
    Rest(steps, k, n);
    RunFinal(Before(steps, k), steps[k..n]);
  }

  lemma StaysDone(steps: seq<Step>, k: nat, n: nat, t: Id)
    requires k <= n <= |steps| && Done(Before(steps, k).db, t)
    ensures Done(Before(steps, n).db, t) && Before(steps, n).db.transactions[t] == Before(steps, k).db.transactions[t]
  {
    Respected(steps, k, n);
    assert FinalTransaction(Before(steps, k).db, Before(steps, n).db, t);
  }

  /** The step is carried out: its process has finished its recovery. */
  ghost predicate Served(steps: seq<Step>, k: nat)
    requires k < |steps|
  {
    Before(steps, k).recovery >= RECOVERY_STATEMENTS && steps[k].Works()
  }

  // ----- what a step does to a transaction -----

  /** No transaction appears, and none moves beyond its stop state and cause. */
  ghost predicate Quiet(a: Db, b: Db) {
    && b.transactions.Keys == a.transactions.Keys
    && (forall t :: t in a.transactions ==> FactSafety.SameUpToCause(a.transactions[t], b.transactions[t]))
  }

  predicate FromCharger(step: Step) {
    step.ChargerStarted? || step.ChargerStopped? || step.ChargerMetered?
  }

  /** Only a message of the charger changes what transactions there are, what they measured and whether they are over. */
  lemma StepQuiet(s: State, step: Step)
    requires Sound(s) && (FromCharger(step) ==> s.recovery < RECOVERY_STATEMENTS)
    ensures Quiet(s.db, Apply(s, step).db)
  {
    if !step.Works() {
      FactSafety.RecoverySilent(s.db, if step.OtherRecover? then step.statement else s.recovery);
    } else if s.recovery >= RECOVERY_STATEMENTS {
      WorkQuiet(s, step);
    }
  }

  lemma WorkQuiet(s: State, step: Step)
    requires step.Works() && !FromCharger(step)
    ensures Quiet(s.db, Work(s, step).db)
  {
    match step
    case RequestStart(i) => FactSafety.CreateStartSilent(s.db, i);
    case RequestStop(i) => var rows := FactSafety.CreateStopSplits(s.db, i);
    case EnsureStop(t, cause) => FactSafety.EnsureSilent(s.db, t, cause);
    case StartMark(i, status) => FactSafety.StartMarkStep(s, i, status);
    case StopMark(i, status, order) => StopMarkQuiet(s, i, status, order);
    case _ => FactSafety.DispatchSilent(s, step);
  }

  lemma StopMarkQuiet(s: State, i: Id, status: Status, order: seq<Id>)
    ensures Quiet(s.db, Work(s, StopMark(i, status, order)).db)
  {
    FactSafety.StopMarkStep(s, i, status, order);
    if StopAt(s, i, Sent) && Enumerates(order, LiveStops(s.db, s.threads[i].transaction)) {
      MarkQuiet(s.db, s.threads[i].transaction, status, order);
    }
  }

  lemma MarkQuiet(db: Db, t: Id, status: Status, order: seq<Id>)
    requires Enumerates(order, LiveStops(db, t))
    ensures Quiet(db, MarkStop(db, t, status, order))
  {
    if OpenWorkflow(db, t) && db.workflows[t].state !in {Completed, Superseded} {
      assert forall c :: c in order ==> c in LiveStops(db, t);
      FactSafety.MarkedRowsSilent(db, t, DeliveryOf(status));
    }
  }

  /** A started transaction: nobody else's row moves. */
  lemma StartedAlone(s: State, e: StartEvidence, t: Id)
    requires s.recovery >= RECOVERY_STATEMENTS
    ensures var after := Apply(s, ChargerStarted(e, t)).db;
            && (after.transactions == s.db.transactions
                || (t !in s.db.transactions && t in after.transactions
                    && after.transactions == s.db.transactions[t := after.transactions[t]]
                    && Materialize(s.db, e, t).1 == Ok((t, false)) && after == Materialize(s.db, e, t).0))
  {
    if t !in s.db.transactions && Materialize(s.db, e, t).0 != s.db {
      StartSafety.MaterializedShape(s.db, StartCommandFor(s.db, e.idTag).value, e, t);
    }
  }

  lemma StoppedAlone(s: State, t: Id, e: StopEvidence)
    requires s.recovery >= RECOVERY_STATEMENTS
    ensures var after := Apply(s, ChargerStopped(t, e)).db;
            && after == Complete(s.db, t, e).0
            && (after.transactions == s.db.transactions
                || (t in s.db.transactions && !Done(s.db, t) && Complete(s.db, t, e).1.Ok? && t in after.transactions
                    && Done(after, t) && after.transactions == s.db.transactions[t := after.transactions[t]]))
  {
    if t in s.db.transactions && !Done(s.db, t) && StopAdmissible(s.db.transactions[t], e) {
      StopSafety.CompleteCloses(s.db, t, e);
    }
  }

  lemma MeteredAlone(s: State, t: Id, m: Telemetry)
    requires s.recovery >= RECOVERY_STATEMENTS
    ensures var after := Apply(s, ChargerMetered(t, m)).db;
            && after == UpdateTelemetry(s.db, t, m).0
            && (after.transactions == s.db.transactions
                || (t in s.db.transactions && t in after.transactions
                    && FactSafety.SameUpToCause(UpdatedRow(s.db.transactions[t], m), after.transactions[t])
                    && after.transactions == s.db.transactions[t := after.transactions[t]]))
  {
    assert Apply(s, ChargerMetered(t, m)).db == UpdateTelemetry(s.db, t, m).0;
    UpdatesAlone(s.db, t, m);
  }

  lemma UpdatesAlone(db: Db, t: Id, m: Telemetry)
    ensures var after := UpdateTelemetry(db, t, m).0;
            || after.transactions == db.transactions
            || (t in db.transactions && t in after.transactions
                && FactSafety.SameUpToCause(UpdatedRow(db.transactions[t], m), after.transactions[t])
                && after.transactions == db.transactions[t := after.transactions[t]])
  {
    if t in db.transactions && (m.energyWh.Some? || m.soc.Some?) {
      var current := UpdatedRow(db.transactions[t], m);
      FactSafety.EnsureAdds(db.(transactions := db.transactions[t := current]), t, EnergyStopCause(current.limits));
      assert SameTables(TelemetryRows(db, t, m), UpdateTelemetry(db, t, m).0);
    }
  }

  /** A row stays but for stop state and cause, takes one reading, or is completed. */
  ghost predicate RowMoves(s: State, step: Step, after: Db, t: Id)
    requires t in s.db.transactions && t in after.transactions
  {
    var tx, next := s.db.transactions[t], after.transactions[t];
    || FactSafety.SameUpToCause(tx, next)
    || (s.recovery >= RECOVERY_STATEMENTS && step.ChargerMetered? && step.transaction == t
        && FactSafety.SameUpToCause(UpdatedRow(tx, step.telemetry), next))
    || (s.recovery >= RECOVERY_STATEMENTS && step.ChargerStopped? && step.transaction == t
        && !tx.Done() && next.Done() && Complete(s.db, t, step.stopped).1.Ok? && after == Complete(s.db, t, step.stopped).0)
  }

  lemma RowAfter(s: State, step: Step, t: Id)
    requires Sound(s) && t in s.db.transactions
    ensures t in Apply(s, step).db.transactions && RowMoves(s, step, Apply(s, step).db, t)
  {
    if !FromCharger(step) || s.recovery < RECOVERY_STATEMENTS {
      StepQuiet(s, step);
    } else {
      MessageMoves(s, step, t);
    }
  }

  lemma MessageMoves(s: State, step: Step, t: Id)
    requires FromCharger(step) && s.recovery >= RECOVERY_STATEMENTS && t in s.db.transactions
    ensures t in Apply(s, step).db.transactions && RowMoves(s, step, Apply(s, step).db, t)
  {
    match step
    case ChargerStarted(e, u) => StartedAlone(s, e, u);
    case ChargerStopped(u, e) => StoppedAlone(s, u, e);
    case ChargerMetered(u, m) => MeteredAlone(s, u, m);
  }
}
