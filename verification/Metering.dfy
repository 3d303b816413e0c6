/** What the readings of a charger become: none is lost beyond the counted rollbacks, and a limit reached stops the transaction. */
module Metering {
  import opened Base
  import opened MeterEvidence
  import opened LifecycleTables
  import opened LifecycleSystem
  import opened LifecycleHistory
  import opened Finality
  import FactSafety
  import StopOrigins
  import Provenance

  // ----- one update -----

  /** A reading with a time, not under the start, and at most one Wh under the latest one. */
  predicate Counts(tx: Transaction, m: Telemetry) {
    && !tx.Done() && m.energyWh.Some? && m.energyAt.Some? && m.energyWh.value >= tx.meterStart
    && (tx.meter.latest.Some? ==> m.energyWh.value >= tx.meter.latest.value - 1)
  }

  predicate Newer(tx: Transaction, m: Telemetry) {
    && !tx.Done() && m.soc.Some? && m.socAt.Some?
    && (tx.soc.observedAt.Some? ==> m.socAt.value > tx.soc.observedAt.value)
  }

  /** The meter columns after a reading: its value, its time unless older, its number, and whether it was a rollback. */
  predicate Measured(a: Meter, b: Meter, wh: int, at: Time) {
    && b.latest == Some(wh) && b.sequence == a.sequence + 1
    && b.anomalies == (if a.latest.Some? && wh < a.latest.value then a.anomalies + 1 else a.anomalies)
    && b.observedAt == Some(Stored(if a.observedAt.Some? && a.observedAt.value > at then a.observedAt.value else at))
  }

  /** What the reading says about the session, in the fact it is published with. */
  predicate Tells(fact: Fact, t: Id, tx: Transaction) {
    && fact.kind == MeterFact && fact.aggregate == t && fact.sequence == Some(tx.meter.sequence)
    && tx.meter.latest.Some? && tx.meter.observedAt.Some?
    && fact.payload == MeterReading(tx.meter.latest.value, tx.meter.latest.value - tx.meterStart, tx.meter.observedAt.value)
  }

  /**
   * One update of a row: a reading is stored, with its fact, exactly if it counts, a state of charge exactly if it
   * is newer than the stored time, and the reply says which. All other columns stay.
   */
  lemma UpdateRecords(tx: Transaction, m: Telemetry)
    ensures var current := UpdatedRow(tx, m);
            && (if Counts(tx, m) then Measured(tx.meter, current.meter, m.energyWh.value, m.energyAt.value)
                else current.meter == tx.meter)
            && (if Newer(tx, m) then
                  current.soc == SoC(if tx.soc.initial.Some? then tx.soc.initial else m.soc, m.soc,
                                     Some(Stored(m.socAt.value)), tx.soc.sequence + 1)
                else current.soc == tx.soc)
            && current == tx.(meter := current.meter, soc := current.soc)
  {}

  /** The reply of an update and the fact of a reading that counts, in every reachable state. */
  lemma UpdateReplies(steps: seq<Step>, t: Id, m: Telemetry)
    ensures var db := Run(INITIAL, steps).db;
            var r := UpdateTelemetry(db, t, m);
            && r.1 == (if m.energyWh.None? && m.soc.None? then Err(InvalidEvidence) else if t !in db.transactions then Err(NotFound)
                       else Ok((Counts(db.transactions[t], m), Newer(db.transactions[t], m))))
            && (r.1.Err? ==> r.0 == db)
            && (r.1.Ok? ==>
                  var before, after := FactsOf(db.facts, MeterFact, t), FactsOf(r.0.facts, MeterFact, t);
                  t in r.0.transactions &&
                  if Counts(db.transactions[t], m)
                  then |after| == |before| + 1 && after[..|before|] == before && Tells(after[|before|], t, r.0.transactions[t])
                  else after == before)
  {
    AtEnd(steps);
    Holds(steps, |steps|);
    var db := Before(steps, |steps|).db;
    if t in db.transactions && (m.energyWh.Some? || m.soc.Some?) {
      assert FactSafety.TransactionFacts(db, t);
      FactSafety.TelemetryMoves(db, t, m);
      MovedFacts(db, TelemetryRows(db, t, m), UpdateTelemetry(db, t, m).0, t, m);
    }
    Replies(db, t, m);
  }

  lemma Replies(db: Db, t: Id, m: Telemetry)
    ensures var r := UpdateTelemetry(db, t, m);
            && r.1 == (if m.energyWh.None? && m.soc.None? then Err(InvalidEvidence) else if t !in db.transactions then Err(NotFound)
                       else Ok((Counts(db.transactions[t], m), Newer(db.transactions[t], m))))
            && (r.1.Err? ==> r.0 == db)
  {}

  lemma MovedFacts(db: Db, rows: Db, after: Db, t: Id, m: Telemetry)
    requires t in db.transactions && FactSafety.MovedByTelemetry(db, rows, after, t, m)
    ensures var a, b := FactsOf(db.facts, MeterFact, t), FactsOf(after.facts, MeterFact, t);
            t in after.transactions &&
            if Counts(db.transactions[t], m)
            then |b| == |a| + 1 && b[..|a|] == a && Tells(b[|a|], t, after.transactions[t])
            else b == a
  {
    NewMeterFact(FactSafety.FactsFor(db.facts, t), t, db.transactions[t], m, after.transactions[t]);
    assert FactSafety.FactsFor(after.facts, t) == FactSafety.AfterTelemetry(FactSafety.FactsFor(db.facts, t), t, db.transactions[t], m);
  }

  lemma NewMeterFact(l: FactSafety.Ledgered, t: Id, tx: Transaction, m: Telemetry, after: Transaction)
    requires FactSafety.SameUpToCause(UpdatedRow(tx, m), after)
    ensures var b := FactSafety.AfterTelemetry(l, t, tx, m).meter;
            if Counts(tx, m) then |b| == |l.meter| + 1 && b[..|l.meter|] == l.meter && Tells(b[|l.meter|], t, after) else b == l.meter
  {}

  // ----- whole runs -----

  /** Step `k` is a reading of the open transaction `t`, at or above its start. */
  ghost predicate ReadingAt(steps: seq<Step>, k: nat, t: Id)
    requires k < |steps|
  {
    && Served(steps, k) && steps[k].ChargerMetered? && steps[k].transaction == t
    && t in Before(steps, k).db.transactions && !Done(Before(steps, k).db, t)
    && steps[k].telemetry.energyWh.Some? && steps[k].telemetry.energyAt.Some?
    && steps[k].telemetry.energyWh.value >= Before(steps, k).db.transactions[t].meterStart
  }

  /** The meter of `b` carries on from that of `a`: what has fallen is counted. */
  predicate CarriesOn(a: Meter, b: Meter) {
    && a.sequence <= b.sequence && a.anomalies <= b.anomalies
    && (a.latest.Some? ==> b.latest.Some? && a.latest.value + a.anomalies <= b.latest.value + b.anomalies)
  }

  lemma MoveCarriesOn(s: State, step: Step, after: Db, t: Id)
    requires t in s.db.transactions && t in after.transactions && RowMoves(s, step, after, t)
    requires var tx := s.db.transactions[t]; tx.meter.latest.Some? ==> tx.meter.latest.value >= tx.meterStart
    ensures CarriesOn(s.db.transactions[t].meter, after.transactions[t].meter)
  {
    if step.ChargerMetered? { UpdateRecords(s.db.transactions[t], step.telemetry); }
    if step.ChargerStopped? && !Done(s.db, t) && after == Complete(s.db, t, step.stopped).0
       && StopAdmissible(s.db.transactions[t], step.stopped) {
      FactSafety.CompletedRowMeter(s.db.transactions[t], step.stopped);
    }
  }

  lemma {:induction false} MeterCarriesOn(steps: seq<Step>, k: nat, n: nat, t: Id)
    requires k <= n <= |steps| && t in Before(steps, k).db.transactions
    ensures t in Before(steps, n).db.transactions
    ensures CarriesOn(Before(steps, k).db.transactions[t].meter, Before(steps, n).db.transactions[t].meter)
    decreases n
  {
    if k < n {
      MeterCarriesOn(steps, k, n - 1, t);
      NextCarriesOn(steps, n - 1, t);
    }
  }

  lemma NextCarriesOn(steps: seq<Step>, k: nat, t: Id)
    requires k < |steps| && t in Before(steps, k).db.transactions
    ensures t in Before(steps, k + 1).db.transactions
    ensures CarriesOn(Before(steps, k).db.transactions[t].meter, Before(steps, k + 1).db.transactions[t].meter)
  {
    Holds(steps, k);
    Next(steps, k);
    assert FactSafety.TransactionFacts(Before(steps, k).db, t);
    RowAfter(Before(steps, k), steps[k], t);
    MoveCarriesOn(Before(steps, k), steps[k], Before(steps, k + 1).db, t);
  }

  /** No reading at or above the start is lost: at any later time it is at most the latest one plus the counted rollbacks. */
  lemma ReadingsAreKept(steps: seq<Step>, k: nat, n: nat, t: Id)
    requires k < n <= |steps| && ReadingAt(steps, k, t)
    ensures t in Before(steps, n).db.transactions
    ensures var meter := Before(steps, n).db.transactions[t].meter;
            meter.latest.Some? && steps[k].telemetry.energyWh.value <= meter.latest.value + meter.anomalies
  {
    Next(steps, k);
    MeteredAlone(Before(steps, k), t, steps[k].telemetry);
    UpdateRecords(Before(steps, k).db.transactions[t], steps[k].telemetry);
    MeterCarriesOn(steps, k + 1, n, t);
  }

  /** And none is invented: the latest reading of an open transaction is one that was received, at or above the start. */
  lemma {:induction false} LatestWasReceived(steps: seq<Step>, n: nat, t: Id) returns (k: nat)
    requires n <= |steps| && t in Before(steps, n).db.transactions && !Done(Before(steps, n).db, t)
    requires Before(steps, n).db.transactions[t].meter.latest.Some?
    ensures k < n && ReadingAt(steps, k, t) && steps[k].telemetry.energyWh == Before(steps, n).db.transactions[t].meter.latest
    decreases n
  {
    if n == 0 {
      assert false;
    }
    if t in Before(steps, n - 1).db.transactions && !Done(Before(steps, n - 1).db, t)
       && Before(steps, n - 1).db.transactions[t].meter.latest == Before(steps, n).db.transactions[t].meter.latest {
      k := LatestWasReceived(steps, n - 1, t);
    } else {
      k := n - 1;
      NewReading(steps, k, t);
    }
  }

  lemma NewReading(steps: seq<Step>, k: nat, t: Id)
    requires k < |steps| && t in Before(steps, k + 1).db.transactions && !Done(Before(steps, k + 1).db, t)
    requires Before(steps, k + 1).db.transactions[t].meter.latest.Some?
    requires t in Before(steps, k).db.transactions && !Done(Before(steps, k).db, t) ==>
               Before(steps, k).db.transactions[t].meter.latest != Before(steps, k + 1).db.transactions[t].meter.latest
    ensures ReadingAt(steps, k, t) && steps[k].telemetry.energyWh == Before(steps, k + 1).db.transactions[t].meter.latest
  {
    Holds(steps, k);
    Next(steps, k);
    StepReads(Before(steps, k), steps[k], t);
    assert Served(steps, k);
  }

  lemma StepReads(s: State, step: Step, t: Id)
    requires Sound(s) && t in Apply(s, step).db.transactions && !Done(Apply(s, step).db, t)
    requires Apply(s, step).db.transactions[t].meter.latest.Some?
    requires t in s.db.transactions ==> Done(s.db, t) || s.db.transactions[t].meter.latest != Apply(s, step).db.transactions[t].meter.latest
    ensures s.recovery >= RECOVERY_STATEMENTS && step.ChargerMetered? && step.transaction == t
    ensures t in s.db.transactions && Counts(s.db.transactions[t], step.telemetry)
    ensures step.telemetry.energyWh == Apply(s, step).db.transactions[t].meter.latest
  {
    if t !in s.db.transactions {
      Provenance.NewTransactionStep(s, step, t);
      var c := Provenance.AdmissionRecords(s.db, step.started, t);
    } else {
      RowAfter(s, step, t);
      MoveReads(s, step, Apply(s, step).db, t);
    }
  }

  lemma MoveReads(s: State, step: Step, after: Db, t: Id)
    requires t in s.db.transactions && t in after.transactions && RowMoves(s, step, after, t) && !after.transactions[t].Done()
    requires s.db.transactions[t].Done() || s.db.transactions[t].meter.latest != after.transactions[t].meter.latest
    ensures s.recovery >= RECOVERY_STATEMENTS && step.ChargerMetered? && step.transaction == t
    ensures Counts(s.db.transactions[t], step.telemetry) && step.telemetry.energyWh == after.transactions[t].meter.latest
  {
    if step.ChargerMetered? { UpdateRecords(s.db.transactions[t], step.telemetry); }
  }

  // ----- limits -----

  /**
   * A requested energy limit is enforced: once the charger has reported `w` Wh above the start, a stop workflow
   * exists; and one exists for every open transaction that has consumed as much.
   */
  lemma LimitIsEnforced(steps: seq<Step>, n: nat, t: Id, j: nat, started: nat, w: int)
    requires started < n <= |steps| && t in Before(steps, n).db.transactions && Provenance.Originates(steps, j, started, n, t)
    requires steps[j].start.limits.energyWh == Some(w)
    ensures forall k: nat :: k < n && ReadingAt(steps, k, t) && steps[k].telemetry.energyWh.value - steps[started].started.meterStart >= w
                             ==> t in Before(steps, n).db.workflows
    ensures var tx := Before(steps, n).db.transactions[t];
            !tx.Done() && tx.meter.latest.Some? && tx.meter.latest.value - tx.meterStart >= w ==> t in Before(steps, n).db.workflows
  {
    ConsumedStops(steps, n, t);
    forall k: nat | k < n && ReadingAt(steps, k, t) && steps[k].telemetry.energyWh.value - steps[started].started.meterStart >= w
      ensures t in Before(steps, n).db.workflows
    {
      Provenance.IdentityStays(steps, k, n, t);
      ReadingOpens(steps, k, t);
      StopOrigins.CauseStays(steps, k + 1, n, t);
    }
  }

  lemma ConsumedStops(steps: seq<Step>, n: nat, t: Id)
    requires n <= |steps| && t in Before(steps, n).db.transactions
    ensures var tx := Before(steps, n).db.transactions[t];
            !tx.Done() && tx.meter.latest.Some? && tx.limits.energyWh.Some?
            && tx.meter.latest.value - tx.meterStart >= tx.limits.energyWh.value
            ==> t in Before(steps, n).db.workflows
  {
    Holds(steps, n);
    assert FactSafety.TransactionFacts(Before(steps, n).db, t);
  }

  /** A reading at or above the limit finds a workflow or opens one. */
  lemma ReadingOpens(steps: seq<Step>, k: nat, t: Id)
    requires k < |steps| && ReadingAt(steps, k, t)
    requires var tx := Before(steps, k).db.transactions[t];
             tx.limits.energyWh.Some? && steps[k].telemetry.energyWh.value - tx.meterStart >= tx.limits.energyWh.value
    ensures t in Before(steps, k + 1).db.workflows
  {
    Next(steps, k);
    if t in Before(steps, k).db.workflows {
      StopOrigins.CauseStays(steps, k, k + 1, t);
    } else {
      MeteredAlone(Before(steps, k), t, steps[k].telemetry);
      StopOrigins.TelemetryOpens(Before(steps, k).db, t, steps[k].telemetry);
      LimitCounts(steps, k, t);
    }
  }

  /** Without a workflow the limit was not reached before, so a reading that reaches it counts. */
  lemma LimitCounts(steps: seq<Step>, k: nat, t: Id)
    requires k < |steps| && ReadingAt(steps, k, t) && t !in Before(steps, k).db.workflows
    requires var tx := Before(steps, k).db.transactions[t];
             tx.limits.energyWh.Some? && steps[k].telemetry.energyWh.value - tx.meterStart >= tx.limits.energyWh.value
    ensures StopOrigins.ReachesLimit(Before(steps, k).db.transactions[t], steps[k].telemetry)
  {
    Holds(steps, k);
    assert FactSafety.TransactionFacts(Before(steps, k).db, t);
  }
}
