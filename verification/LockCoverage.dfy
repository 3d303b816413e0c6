/**
 * The lock scripts and the steps belong together: an operation locks the class of every row it writes.
 * A row counts as written when it differs after the step; a new transaction stands for its three unique
 * keys, a new command for its own and a new credential for both intents. Claims, attempts and marks are
 * single statements on one START row, or the guarded updates of a stop operation under its transaction
 * row; the recoveries write many rows of one class each.
 */
module LockCoverage {
  import opened Base
  import opened MeterEvidence
  import opened LifecycleTables
  import L = LifecycleLocking
  import StartSafety
  import StopSafety
  import StopOrigins
  import Outcomes

  predicate Takes(op: L.Operation, class_: L.Class) {
    L.Acquire(class_) in L.Script(op)
  }

  ghost predicate ChangesStart(a: Db, b: Db) {
    exists c :: c in a.commands && a.commands[c].kind.Start? && c in b.commands && b.commands[c] != a.commands[c]
  }

  ghost predicate ChangesStop(a: Db, b: Db) {
    exists c :: c in a.commands && a.commands[c].kind.Stop? && c in b.commands && b.commands[c] != a.commands[c]
  }

  ghost predicate ChangesTransaction(a: Db, b: Db) {
    exists t :: t in a.transactions && t in b.transactions && b.transactions[t] != a.transactions[t]
  }

  /** Whatever rows differ after the step, and whatever keys are new, are of classes that the operation locks. */
  ghost predicate Covered(op: L.Operation, a: Db, b: Db) {
    && (ChangesTransaction(a, b) ==> Takes(op, L.Transactions))
    && (b.transactions.Keys != a.transactions.Keys ==>
          Takes(op, L.TransactionIntents) && Takes(op, L.TransactionCommands) && Takes(op, L.OcppIds))
    && (b.workflows != a.workflows ==> Takes(op, L.Workflows))
    && (ChangesStop(a, b) ==> Takes(op, L.StopCommands))
    && (ChangesStart(a, b) ==> Takes(op, L.StartRows))
    && (b.commands.Keys != a.commands.Keys ==> Takes(op, L.CommandKeys))
    && (b.credentials != a.credentials ==> Takes(op, L.Credentials))
    && (b.credentials.Keys != a.credentials.Keys ==> Takes(op, L.CredentialIntents) && Takes(op, L.CommandIntents))
    && (b.completionKeys != a.completionKeys ==> Takes(op, L.Facts))
  }

  lemma CreateStartCovered(db: Db, i: StartInput)
    ensures Covered(L.CreateStart(i.command, i.intent, i.idTag), db, CreateStart(db, i).0)
  {}

  lemma ClaimStartCovered(db: Db, c: Id, tag: Id)
    ensures Covered(L.DeliverStart(tag), db, ClaimStart(db, c).0) && Covered(L.DeliverStart(tag), db, BeginStart(db, c))
  {}

  lemma MarkStartCovered(db: Db, c: Id, status: Status, tag: Id)
    requires StartSafety.IsStart(db, c)
    ensures Covered(L.DeliverStart(tag), db, MarkStart(db, c, status))
  {}

  lemma MaterializeCovered(db: Db, e: StartEvidence, t: Id, intent: Id, command: Id, ocpp: Id)
    requires t !in db.transactions
    ensures Covered(L.Materialize(e.idTag, intent, command, ocpp), db, Materialize(db, e, t).0)
  {
    MaterializeWrites(db, e, t);
    MaterializeTakes(L.Materialize(e.idTag, intent, command, ocpp));
  }

  /** A materialization leaves other transactions, workflows, STOP commands and reservations alone, and adds no command. */
  lemma MaterializeWrites(db: Db, e: StartEvidence, t: Id)
    requires t !in db.transactions
    ensures var r := Materialize(db, e, t).0;
            && !ChangesTransaction(db, r) && r.workflows == db.workflows && !ChangesStop(db, r)
            && r.commands.Keys == db.commands.Keys && r.credentials.Keys == db.credentials.Keys && r.completionKeys == db.completionKeys
  {
    if Materialize(db, e, t).0 != db {
      StartSafety.MaterializedShape(db, StartCommandFor(db, e.idTag).value, e, t);
    }
  }

  lemma MaterializeTakes(op: L.Operation)
    requires op.Materialize?
    ensures Takes(op, L.Credentials) && Takes(op, L.StartRows)
    ensures Takes(op, L.TransactionIntents) && Takes(op, L.TransactionCommands) && Takes(op, L.OcppIds)
  {}

  lemma EnsureCovered(db: Db, t: Id, cause: StopCause)
    ensures Covered(L.Ensure(t), db, EnsureWorkflow(db, t, cause).0)
  {}

  lemma ClaimStopCovered(db: Db, t: Id)
    ensures Covered(L.Claim(t), db, ClaimStop(db, t).0) && Covered(L.Begin(t), db, BeginStop(db, t))
  {}

  lemma MarkStopCovered(db: Db, t: Id, status: Status, order: seq<Id>)
    requires Enumerates(order, LiveStops(db, t))
    ensures Covered(L.Mark(t), db, MarkStop(db, t, status, order))
  {
    Outcomes.StopMarkTells(db, t, status, order);
  }

  lemma CreateStopCovered(db: Db, i: StopInput)
    ensures Covered(L.Create(i.transaction, i.command), db, CreateStop(db, i).0)
  {
    CreateStopWrites(db, i);
    CreateStopTakes(L.Create(i.transaction, i.command));
  }

  /** A stop request leaves credentials, reservations and every command it finds alone, and adds no transaction. */
  lemma CreateStopWrites(db: Db, i: StopInput)
    ensures var r := CreateStop(db, i).0;
            && r.credentials == db.credentials && r.completionKeys == db.completionKeys && r.transactions.Keys == db.transactions.Keys
            && !ChangesStart(db, r) && !ChangesStop(db, r)
  {
    StopOrigins.StopReplies(db, i);
  }

  lemma CreateStopTakes(op: L.Operation)
    requires op.Create?
    ensures Takes(op, L.Transactions) && Takes(op, L.Workflows) && Takes(op, L.CommandKeys)
  {}

  lemma CompleteCovered(db: Db, t: Id, e: StopEvidence)
    ensures Covered(L.Complete(t), db, Complete(db, t, e).0)
  {
    CompleteWrites(db, t, e);
    StopTakes(L.Complete(t));
  }

  /** A completion leaves credentials and START commands alone, and adds no row. */
  lemma CompleteWrites(db: Db, t: Id, e: StopEvidence)
    ensures var r := Complete(db, t, e).0;
            && r.credentials == db.credentials && r.commands.Keys == db.commands.Keys
            && r.transactions.Keys == db.transactions.Keys && !ChangesStart(db, r)
  {
    StartSafety.CompleteSameStart(db, t, e);
    if t in db.transactions && !db.transactions[t].Done() && StopAdmissible(db.transactions[t], e) {
      StopSafety.CompleteCloses(db, t, e);
    }
  }

  lemma StopTakes(op: L.Operation)
    requires op.Complete? || op.Telemetry?
    ensures Takes(op, L.Transactions) && Takes(op, L.Workflows) && Takes(op, L.Facts) && (op.Complete? ==> Takes(op, L.StopCommands))
  {}

  lemma TelemetryCovered(db: Db, t: Id, m: Telemetry)
    ensures Covered(L.Telemetry(t), db, UpdateTelemetry(db, t, m).0)
  {
    TelemetryWrites(db, t, m);
    StopTakes(L.Telemetry(t));
  }

  lemma TelemetryWrites(db: Db, t: Id, m: Telemetry)
    ensures var r := UpdateTelemetry(db, t, m).0;
            r.credentials == db.credentials && r.commands == db.commands && r.transactions.Keys == db.transactions.Keys
  {
    if t in db.transactions && (m.energyWh.Some? || m.soc.Some?) {
      assert SameTables(TelemetryRows(db, t, m), UpdateTelemetry(db, t, m).0);
    }
  }

  lemma RecoverStartsCovered(db: Db, from: Delivery, to: Delivery)
    ensures Covered(L.RecoverStarts, db, RecoverStart(db, from, to))
  {}

  lemma RecoverStopsCovered(db: Db, from: Delivery, to: Delivery)
    ensures Covered(L.RecoverStops, db, RecoverStop(db, from, to))
  {}
}
