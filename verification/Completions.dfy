/** When stop evidence completes a transaction, what the completion records, and where every completion comes from. */
module Completions {
  import opened Base
  import opened MeterEvidence
  import opened LifecycleTables
  import opened LifecycleSystem
  import opened LifecycleHistory
  import opened Finality
  import StopSafety
  import FactSafety
  import Provenance
  import MemoryTelemetry

  // ----- one call -----

  /** Both clocks are set, have reached the start and agree up to 15 minutes, or the wrap of their distance. */
  predicate InTime(tx: Transaction, e: StopEvidence) {
    && e.completedAt != 0 && e.observedAt != 0
    && e.completedAt >= tx.actualStartedAt && e.observedAt >= tx.observedStartedAt
    && (-MAX_CLOCK_SKEW <= e.completedAt - e.observedAt <= MAX_CLOCK_SKEW || e.completedAt - e.observedAt <= -TWO_63)
  }

  /** At most one Wh under the latest reading, and not at all when that was sampled after the stop. */
  predicate MeterFits(tx: Transaction, e: StopEvidence) {
    && e.meterStop >= tx.meterStart
    && (tx.meter.latest.Some? ==>
          && e.meterStop >= tx.meter.latest.value - 1
          && (tx.meter.observedAt.Some? && tx.meter.observedAt.value > e.completedAt ==> e.meterStop >= tx.meter.latest.value))
  }

  /** The recorded completion was made from this evidence, down to the stored microsecond. */
  predicate RecordedFrom(stop: StopColumns, e: StopEvidence) {
    stop.rawMeterStop == Some(e.meterStop) && stop.ocppReason == e.reason && stop.completedAt == Some(e.completedAt)
  }

  /** Stop evidence for an open transaction is accepted exactly under these conditions; otherwise nothing changes. */
  lemma OpenCompletesIff(db: Db, t: Id, e: StopEvidence)
    requires t in db.transactions && !db.transactions[t].Done()
    ensures var reply := Complete(db, t, e);
            && (reply.1.Ok? <==> InTime(db.transactions[t], e) && MeterFits(db.transactions[t], e))
            && (reply.1.Err? ==> reply == (db, Err(InvalidEvidence)))
            && (reply.1.Ok? ==> t in reply.0.transactions && reply.1.value == reply.0.transactions[t] && Done(reply.0, t))
  {
    PlausibleIff(e.completedAt, e.observedAt);
  }

  /** The same in every reachable state, with the replies for a missing and for a completed transaction. */
  lemma CompletesIff(steps: seq<Step>, t: Id, e: StopEvidence)
    ensures var db := Run(INITIAL, steps).db;
            var reply := Complete(db, t, e);
            && (reply.1.Ok? <==>
                  && t in db.transactions
                  && if Done(db, t) then RecordedFrom(db.transactions[t].stop, e)
                     else InTime(db.transactions[t], e) && MeterFits(db.transactions[t], e))
            && (reply.1.Err? ==> reply == (db, Err(if t in db.transactions then InvalidEvidence else NotFound)))
            && (reply.1.Ok? ==> t in reply.0.transactions && reply.1.value == reply.0.transactions[t] && Done(reply.0, t))
            && (Done(db, t) ==> reply.0 == db)
  {
    AtEnd(steps);
    Holds(steps, |steps|);
    var db := Run(INITIAL, steps).db;
    if t in db.transactions {
      assert FactSafety.TransactionFacts(db, t);
      if Done(db, t) { DoneReplies(db, t, e); } else { OpenCompletesIff(db, t, e); }
    }
  }

  lemma DoneReplies(db: Db, t: Id, e: StopEvidence)
    requires Done(db, t) && db.transactions[t].stop.rawMeterStop.Some?
    ensures Complete(db, t, e) ==
            (db, if RecordedFrom(db.transactions[t].stop, e) then Ok(db.transactions[t]) else Err(InvalidEvidence))
  {}

  // ----- what is recorded -----

  function Greater(a: Time, b: Option<Time>): Time {
    if b.Some? && b.value > a then b.value else a
  }

  /** The row of an open transaction after its completion. */
  predicate Completes(tx: Transaction, done: Transaction, e: StopEvidence) {
    && SameIdentity(tx, done) && done.soc == tx.soc && done.cause == tx.cause && done.stopState == Some(Completed)
    && RecordedFrom(done.stop, e.(completedAt := Stored(e.completedAt)))
    && done.stop.observedCompletedAt == Some(Stored(e.observedAt))
    && done.stop.meterStop == Some(if tx.meter.latest.Some? && tx.meter.latest.value > e.meterStop
                                   then tx.meter.latest.value else e.meterStop)
    && done.stop.adjustment == Some(done.stop.meterStop.value - e.meterStop)
    && done.stop.evidence == Some(if tx.meter.latest.None? || e.meterStop == tx.meter.latest.value then Exact
                                  else if e.meterStop > tx.meter.latest.value then Forward else QuantizationNormalized)
    && done.meter == tx.meter.(latest := done.stop.meterStop, observedAt := Some(Stored(Greater(e.completedAt, tx.meter.observedAt))))
  }

  /** The workflow and the live commands close with the transaction, and one fact says so. */
  lemma CompletionRecords(db: Db, t: Id, e: StopEvidence)
    requires t in db.transactions && !db.transactions[t].Done() && t !in db.completionKeys && Complete(db, t, e).1.Ok?
    ensures var after := Complete(db, t, e).0;
            && t in after.transactions && Completes(db.transactions[t], after.transactions[t], e)
            && after.transactions == db.transactions[t := after.transactions[t]] && after.credentials == db.credentials
            && after.workflows == (if t in db.workflows && db.workflows[t].state != Completed
                                   then db.workflows[t := db.workflows[t].(state := Completed, completedAt := Some(Stored(e.completedAt)))]
                                   else db.workflows)
            && after.commands.Keys == db.commands.Keys
            && (forall c :: c in db.commands ==>
                  after.commands[c] == if LiveStopOf(db.commands[c], t) then db.commands[c].(state := Superseded) else db.commands[c])
            && after.facts == db.facts + [Fact(CompletedFact, t, None, Completion(
                 db.transactions[t].meterStart, after.transactions[t].stop, db.transactions[t].cause))]
            && after.completionKeys == db.completionKeys[t := |db.facts|]
  {}

  // ----- the memory store -----

  /** The session and the row know the same start and the same meter. */
  predicate SameKnowledge(s: MemoryTelemetry.Session, tx: Transaction) {
    && s.actualStartedAt == tx.actualStartedAt && s.observedStartedAt == tx.observedStartedAt && s.meterStart == tx.meterStart
    && s.latest == tx.meter.latest && s.meterAt == tx.meter.observedAt
  }

  /** Both stores complete on the same evidence and record the same, but for the microseconds. */
  lemma StoresAgree(db: Db, t: Id, s: MemoryTelemetry.Session, e: StopEvidence)
    requires t in db.transactions && !Done(db, t) && s.completedAt.None? && SameKnowledge(s, db.transactions[t])
    ensures var kept, stored := MemoryTelemetry.WithCompletion(s, e), Complete(db, t, e);
            && (kept.1.Ok? <==> stored.1.Ok?)
            && (kept.1.Ok? ==>
                  && kept.0 == s.(meterStop := kept.0.meterStop, rawMeterStop := kept.0.rawMeterStop, adjustment := kept.0.adjustment,
                                  latest := kept.0.latest, consumed := kept.0.consumed, meterAt := kept.0.meterAt,
                                  ocppReason := e.reason, completedAt := Some(e.completedAt), evidence := kept.0.evidence,
                                  observedCompletedAt := Some(e.observedAt), stopState := MemoryTelemetry.Completed)
                  && t in stored.0.transactions
                  && var stop, meter := stored.0.transactions[t].stop, stored.0.transactions[t].meter;
                  && kept.0.meterStop == stop.meterStop && kept.0.rawMeterStop == stop.rawMeterStop
                  && kept.0.adjustment == stop.adjustment && kept.0.evidence == stop.evidence && kept.0.latest == meter.latest
                  && kept.0.consumed == Some(kept.0.latest.value - s.meterStart)
                  && kept.0.meterAt == Some(Greater(e.completedAt, s.meterAt))
                  && stop.completedAt == Some(Stored(kept.0.completedAt.value)))
            && (kept.1.Err? ==> kept == (s, Err(InvalidEvidence)))
  {}

  // ----- where completions come from -----

  /** Step `k` is the stop evidence that completed `t`. */
  ghost predicate CompletedBy(steps: seq<Step>, k: nat, t: Id)
    requires k < |steps|
  {
    && Served(steps, k) && steps[k].ChargerStopped? && steps[k].transaction == t
    && t in Before(steps, k).db.transactions && !Done(Before(steps, k).db, t) && Done(Before(steps, k + 1).db, t)
    && InTime(Before(steps, k).db.transactions[t], steps[k].stopped) && MeterFits(Before(steps, k).db.transactions[t], steps[k].stopped)
    && Completes(Before(steps, k).db.transactions[t], Before(steps, k + 1).db.transactions[t], steps[k].stopped)
  }

  lemma StepCompletes(steps: seq<Step>, k: nat, t: Id)
    requires k < |steps| && !Done(Before(steps, k).db, t) && Done(Before(steps, k + 1).db, t)
    ensures CompletedBy(steps, k, t)
  {
    Holds(steps, k);
    Next(steps, k);
    var s, step := Before(steps, k), steps[k];
    OnlyEvidenceCompletes(s, step, t);
    assert FactSafety.TransactionFacts(s.db, t);
    OpenCompletesIff(s.db, t, step.stopped);
    CompletionRecords(s.db, t, step.stopped);
  }

  lemma OnlyEvidenceCompletes(s: State, step: Step, t: Id)
    requires Sound(s) && !Done(s.db, t) && Done(Apply(s, step).db, t)
    ensures s.recovery >= RECOVERY_STATEMENTS && step.ChargerStopped? && step.transaction == t && t in s.db.transactions
    ensures Complete(s.db, t, step.stopped).1.Ok? && Apply(s, step).db == Complete(s.db, t, step.stopped).0
  {
    if t in s.db.transactions {
      RowAfter(s, step, t);
      MoveCompletes(s, step, Apply(s, step).db, t);
    } else {
      Provenance.NewTransactionStep(s, step, t);
      NewRowOpen(s.db, step.started, t);
    }
  }

  lemma MoveCompletes(s: State, step: Step, after: Db, t: Id)
    requires t in s.db.transactions && t in after.transactions && RowMoves(s, step, after, t)
    requires !s.db.transactions[t].Done() && after.transactions[t].Done()
    ensures s.recovery >= RECOVERY_STATEMENTS && step.ChargerStopped? && step.transaction == t
    ensures Complete(s.db, t, step.stopped).1.Ok? && after == Complete(s.db, t, step.stopped).0
  {}

  lemma NewRowOpen(db: Db, e: StartEvidence, t: Id)
    requires t !in db.transactions
    ensures !Done(Materialize(db, e, t).0, t)
  {}

  /**
   * A completed transaction owes its stop columns to exactly one stop evidence, the one that met the conditions;
   * whatever came later, they are as that step left them.
   */
  lemma {:induction false} CompletionHasEvidence(steps: seq<Step>, n: nat, t: Id) returns (k: nat)
    requires n <= |steps| && Done(Before(steps, n).db, t)
    ensures k < n && CompletedBy(steps, k, t)
    ensures Before(steps, n).db.transactions[t] == Before(steps, k + 1).db.transactions[t]
    ensures forall j: nat :: j < n && j != k ==> !CompletedBy(steps, j, t)
    decreases n
  {
    if n == 0 {
      assert false;
    }
    if Done(Before(steps, n - 1).db, t) {
      k := CompletionHasEvidence(steps, n - 1, t);
      StaysDone(steps, n - 1, n, t);
    } else {
      k := n - 1;
      StepCompletes(steps, k, t);
      forall j: nat | j < k ensures !CompletedBy(steps, j, t) {
        if CompletedBy(steps, j, t) { StaysDone(steps, j + 1, k, t); }
      }
    }
  }
}
