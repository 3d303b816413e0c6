/**
 * What no later step of any run may change: completed transactions with their workflows and STOP commands, stop
 * causes, the identity of transactions, what a request asked for, materialized START commands, used credentials,
 * and committed facts. The relation is transitive and kept step by step: first by the statements over the tables,
 * then by the requests and messages that commit them, then by every step of a dispatcher, and last by the
 * recovery statements, whichever process runs them. It also carries what a state must satisfy for that, the
 * links of the start tables and the agreement of the stop tables.
 */
module Finality {
  import opened Base
  import opened MeterEvidence
  import opened LifecycleTables
  import opened LifecycleSystem
  import StartSafety
  import StopSafety

  ghost predicate Done(db: Db, t: Id) {
    t in db.transactions && db.transactions[t].Done()
  }

  ghost predicate FinalTransaction(a: Db, b: Db, t: Id)
    requires t in a.transactions
  {
    && t in b.transactions && SameIdentity(a.transactions[t], b.transactions[t])
    && (a.transactions[t].Done() ==> b.transactions[t] == a.transactions[t] && (t in b.workflows ==> t in a.workflows))
  }

  ghost predicate FinalWorkflow(a: Db, b: Db, t: Id)
    requires t in a.workflows
  {
    && t in b.workflows && b.workflows[t].cause == a.workflows[t].cause
    && (Done(a, t) ==> b.workflows[t] == a.workflows[t])
  }

  /** The columns a command keeps from its request on. */
  predicate SameRequest(a: Command, b: Command) {
    a.kind == b.kind && a.digest == b.digest && a.binding == b.binding && a.expiresAt == b.expiresAt
  }

  ghost predicate FinalCommand(a: Db, b: Db, c: Id)
    requires c in a.commands
  {
    && c in b.commands && SameRequest(a.commands[c], b.commands[c])
    && (a.commands[c].kind.Stop? && Done(a, a.commands[c].kind.workflow) ==> b.commands[c] == a.commands[c])
    && (a.commands[c].kind.Start? && a.commands[c].state == Materialized ==> b.commands[c] == a.commands[c])
  }

  ghost predicate FinalCredential(a: Db, b: Db, g: Id)
    requires g in a.credentials
  {
    && g in b.credentials && b.credentials[g].intent == a.credentials[g].intent
    && b.credentials[g].binding == a.credentials[g].binding && b.credentials[g].expiresAt == a.credentials[g].expiresAt
    && (a.credentials[g].transaction.Some? ==> b.credentials[g] == a.credentials[g])
  }

  ghost predicate NoStopAfterDone(a: Db, b: Db) {
    forall c :: c in b.commands && b.commands[c].kind.Stop? && c !in a.commands ==> !Done(a, b.commands[c].kind.workflow)
  }

  /** Completed transactions, causes, materialized starts and committed facts stay as they are. */
  ghost predicate Final(a: Db, b: Db) {
    && (forall t :: t in a.transactions ==> FinalTransaction(a, b, t))
    && (forall t :: t in a.workflows ==> FinalWorkflow(a, b, t))
    && (forall c :: c in a.commands ==> FinalCommand(a, b, c))
    && (forall g :: g in a.credentials ==> FinalCredential(a, b, g))
    && NoStopAfterDone(a, b)
    && a.facts <= b.facts
  }

  lemma FinalTransitive(a: Db, b: Db, c: Db)
    requires Final(a, b) && Final(b, c)
    ensures Final(a, c)
  {
    forall t | t in a.transactions ensures FinalTransaction(a, c, t) {
      assert FinalTransaction(a, b, t) && FinalTransaction(b, c, t);
    }
    forall t | t in a.workflows ensures FinalWorkflow(a, c, t) {
      assert FinalWorkflow(a, b, t) && FinalWorkflow(b, c, t);
      if Done(a, t) { assert FinalTransaction(a, b, t); }
    }
    forall d | d in a.commands ensures FinalCommand(a, c, d) {
      assert FinalCommand(a, b, d) && FinalCommand(b, c, d);
      if a.commands[d].kind.Stop? && Done(a, a.commands[d].kind.workflow) {
        assert FinalTransaction(a, b, a.commands[d].kind.workflow);
      }
    }
    forall g | g in a.credentials ensures FinalCredential(a, c, g) {
      assert FinalCredential(a, b, g) && FinalCredential(b, c, g);
    }
    forall d | d in c.commands && c.commands[d].kind.Stop? && d !in a.commands
      ensures !Done(a, c.commands[d].kind.workflow)
    {
      var t := c.commands[d].kind.workflow;
      assert Done(a, t) ==> FinalTransaction(a, b, t);
      assert d in b.commands ==> FinalCommand(b, c, d);
    }
  }

  /** Only the outbox grew. */
  lemma OutboxFinal(a: Db, rows: Db, b: Db)
    requires Final(a, rows) && SameTables(rows, b) && rows.facts <= b.facts
    ensures Final(a, b)
  {
    forall t | t in a.transactions ensures FinalTransaction(a, b, t) { assert FinalTransaction(a, rows, t); }
    forall t | t in a.workflows ensures FinalWorkflow(a, b, t) { assert FinalWorkflow(a, rows, t); }
    forall c | c in a.commands ensures FinalCommand(a, b, c) { assert FinalCommand(a, rows, c); }
    forall g | g in a.credentials ensures FinalCredential(a, b, g) { assert FinalCredential(a, rows, g); }
  }

  lemma InsertFactFinal(a: Db, rows: Db, f: Fact)
    requires Final(a, rows)
    ensures Final(a, InsertFact(rows, f))
  {
    InsertGrows(rows, f);
    OutboxFinal(a, rows, InsertFact(rows, f));
  }

  lemma InsertGrows(rows: Db, f: Fact)
    ensures SameTables(rows, InsertFact(rows, f)) && rows.facts <= InsertFact(rows, f).facts
  {}

  // ----- rows -----

  lemma EnsureFinal(db: Db, t: Id, cause: StopCause)
    ensures Final(db, EnsureWorkflow(db, t, cause).0)
  {}

  lemma CreateStartFinal(db: Db, i: StartInput)
    ensures Final(db, CreateStart(db, i).0)
  {}

  lemma CreateStopFinal(db: Db, i: StopInput)
    ensures Final(db, CreateStop(db, i).0)
  {
    var db1, db' := EnsureWorkflow(db, i.transaction, i.cause).0, CreateStop(db, i).0;
    EnsureFinal(db, i.transaction, i.cause);
    if db' != db && db' != db1 {
      StopPublished(db, i);
      NewStopFinal(db, db1, i.command, db'.commands[i.command]);
      PublishFinal(db, db1.(commands := db'.commands), i.command);
    } else if db' == db {
      Unmoved(db, db');
    }
  }

  /** A new stop command is its row beside the ensured workflow, and one fact. */
  lemma StopPublished(db: Db, i: StopInput)
    requires CreateStop(db, i).0 != db && CreateStop(db, i).0 != EnsureWorkflow(db, i.transaction, i.cause).0
    ensures var db1, db' := EnsureWorkflow(db, i.transaction, i.cause).0, CreateStop(db, i).0;
            var rows := db1.(commands := db'.commands);
            && i.command in db'.commands && db' == CommandUpdated(rows, i.command)
            && i.command !in db1.commands && rows == db1.(commands := db1.commands[i.command := db'.commands[i.command]])
            && db'.commands[i.command].kind.Stop? && !Done(db, db'.commands[i.command].kind.workflow)
  {}

  lemma PublishFinal(db: Db, rows: Db, c: Id)
    requires Final(db, rows) && c in rows.commands
    ensures Final(db, CommandUpdated(rows, c))
  {
    InsertFactFinal(db, rows, Fact(CommandFact, c, None, CommandStatus(rows.commands[c].state, rows.commands[c].attempts)));
  }

  lemma NewStopFinal(db: Db, db1: Db, c: Id, command: Command)
    requires Final(db, db1) && c !in db1.commands && command.kind.Stop? && !Done(db, command.kind.workflow)
    ensures Final(db, db1.(commands := db1.commands[c := command]))
  {
    var b := db1.(commands := db1.commands[c := command]);
    forall t | t in db.transactions ensures FinalTransaction(db, b, t) { assert FinalTransaction(db, db1, t); }
    forall t | t in db.workflows ensures FinalWorkflow(db, b, t) { assert FinalWorkflow(db, db1, t); }
    forall d | d in db.commands ensures FinalCommand(db, b, d) { assert FinalCommand(db, db1, d); }
    forall g | g in db.credentials ensures FinalCredential(db, b, g) { assert FinalCredential(db, db1, g); }
  }

  lemma MaterializedRowsFinal(db: Db, c: Id, i: StartEvidence, halId: Id)
    requires StartSafety.IsStart(db, c) && db.commands[c].state != Materialized
    requires i.idTag in db.credentials && db.credentials[i.idTag].transaction.None?
    requires halId !in db.transactions
    ensures Final(db, MaterializedRows(db, c, i, halId))
  {
    var db' := MaterializedRows(db, c, i, halId);
    var rows := db.(transactions := db'.transactions, credentials := db'.credentials, commands := db'.commands);
    assert Final(db, rows);
    OutboxFinal(db, rows, db');
  }

  lemma MaterializeFinal(db: Db, i: StartEvidence, halId: Id)
    requires forall c :: StartSafety.IsStart(db, c) ==> StartSafety.CommandLink(db, c)
    requires halId !in db.transactions
    ensures Final(db, Materialize(db, i, halId).0)
  {
    if Materialize(db, i, halId).0 != db {
      var c := StartCommandFor(db, i.idTag).value;
      assert StartSafety.CommandLink(db, c);
      MaterializedRowsFinal(db, c, i, halId);
    }
  }

  lemma CompletedRowsFinal(db: Db, rows: Db, t: Id)
    requires StopSafety.Rows(db) && StopSafety.Closes(db, rows, t) && rows.credentials == db.credentials
    requires SameIdentity(db.transactions[t], rows.transactions[t]) && rows.facts == db.facts
    ensures Final(db, rows)
  {
    forall c | c in db.commands ensures FinalCommand(db, rows, c) {}
    forall t | t in db.transactions ensures FinalTransaction(db, rows, t) {}
  }

  lemma CompleteFinal(db: Db, t: Id, e: StopEvidence)
    requires StopSafety.Rows(db)
    ensures Final(db, Complete(db, t, e).0)
  {
    if t in db.transactions && !db.transactions[t].Done() && StopAdmissible(db.transactions[t], e) {
      var rows := CompletedRows(db, t, e);
      assert StopSafety.Closes(db, rows, t);
      CompletedRowsFinal(db, rows, t);
      InsertFactFinal(db, rows, CompletedFactOf(t, CompletedRow(db.transactions[t], e)));
    }
  }

  lemma DoneRowUnmoved(tx: Transaction, m: Telemetry)
    requires tx.Done()
    ensures UpdatedRow(tx, m) == tx
  {}

  /** The columns of one open transaction moved, its identity aside. */
  lemma RowMoved(db: Db, t: Id, tx: Transaction)
    requires t in db.transactions && SameIdentity(db.transactions[t], tx) && (db.transactions[t].Done() ==> tx == db.transactions[t])
    ensures Final(db, db.(transactions := db.transactions[t := tx]))
  {}

  lemma TelemetryRowsFinal(db: Db, t: Id, m: Telemetry)
    requires t in db.transactions
    ensures Final(db, TelemetryRows(db, t, m))
  {
    var tx := db.transactions[t];
    var db1 := db.(transactions := db.transactions[t := UpdatedRow(tx, m)]);
    if tx.Done() { DoneRowUnmoved(tx, m); }
    RowMoved(db, t, UpdatedRow(tx, m));
    var rows := TelemetryRows(db, t, m);
    if rows != db1 {
      var cause := EnergyStopCause(UpdatedRow(tx, m).limits);
      EnsureFinal(db1, t, cause);
      assert rows == EnsureWorkflow(db1, t, cause).0;
      FinalTransitive(db, db1, rows);
    }
  }

  lemma TelemetryGrows(db: Db, t: Id, m: Telemetry)
    requires t in db.transactions && (m.energyWh.Some? || m.soc.Some?)
    ensures var rows, after := TelemetryRows(db, t, m), UpdateTelemetry(db, t, m).0;
            SameTables(rows, after) && rows.facts <= after.facts
  {}

  lemma TelemetryFinal(db: Db, t: Id, m: Telemetry)
    ensures Final(db, UpdateTelemetry(db, t, m).0)
  {
    if t in db.transactions && (m.energyWh.Some? || m.soc.Some?) {
      TelemetryRowsFinal(db, t, m);
      TelemetryGrows(db, t, m);
      OutboxFinal(db, TelemetryRows(db, t, m), UpdateTelemetry(db, t, m).0);
    }
  }

  lemma {:induction false} CommandFactsGrow(db: Db, order: seq<Id>)
    requires forall c :: c in order ==> c in db.commands
    ensures db.facts <= CommandFacts(db, order).facts
  {
    if order != [] { CommandFactsGrow(db, order[..|order| - 1]); }
  }

  lemma MarkStopFinal(db: Db, t: Id, status: Status, order: seq<Id>)
    requires Enumerates(order, LiveStops(db, t))
    ensures Final(db, MarkStop(db, t, status, order))
  {
    if OpenWorkflow(db, t) && db.workflows[t].state !in {Completed, Superseded} {
      var rows := MarkedRows(db, t, DeliveryOf(status));
      assert forall c :: c in order ==> c in LiveStops(db, t);
      assert Final(db, rows);
      CommandFactsGrow(rows, order);
      OutboxFinal(db, rows, MarkStop(db, t, status, order));
    }
  }

  /** The delivery columns of an unmaterialized START command moved. */
  lemma CommandMoved(db: Db, c: Id, state: Delivery, attempts: nat)
    requires StartSafety.IsStart(db, c) && db.commands[c].state != Materialized
    ensures Final(db, db.(commands := db.commands[c := db.commands[c].(state := state, attempts := attempts)]))
  {}

  /** The delivery columns of the workflow of an open transaction moved. */
  lemma WorkflowMoved(db: Db, t: Id, state: Delivery, attempts: nat)
    requires OpenWorkflow(db, t)
    ensures Final(db, db.(workflows := db.workflows[t := db.workflows[t].(state := state, attempts := attempts)]))
  {}

  lemma ClaimStartFinal(db: Db, c: Id)
    requires ClaimStart(db, c).1
    ensures Final(db, ClaimStart(db, c).0)
  {
    CommandMoved(db, c, PendingDelivery, db.commands[c].attempts);
  }

  lemma BeginStartFinal(db: Db, c: Id)
    requires BeginStart(db, c) != db
    ensures Final(db, BeginStart(db, c))
  {
    CommandMoved(db, c, DeliveryAttempted, db.commands[c].attempts + 1);
  }

  lemma BeginStopFinal(db: Db, t: Id)
    requires BeginStop(db, t) != db
    ensures Final(db, BeginStop(db, t))
  {
    WorkflowMoved(db, t, DeliveryAttempted, db.workflows[t].attempts + 1);
  }

  lemma RecoverStartFinal(db: Db, from: Delivery, to: Delivery)
    requires from != Materialized
    ensures Final(db, RecoverStart(db, from, to))
  {}

  lemma RecoverStopFinal(db: Db, from: Delivery, to: Delivery)
    requires from != Completed && forall t :: t in db.workflows ==> StopSafety.WorkflowRow(db, t)
    ensures Final(db, RecoverStop(db, from, to))
  {
    var b := RecoverStop(db, from, to);
    forall t | t in db.workflows ensures FinalWorkflow(db, b, t) { assert StopSafety.WorkflowRow(db, t); }
  }

  lemma RecoveryFinal(db: Db, n: nat)
    requires StopSafety.Rows(db)
    ensures Final(db, RecoveredTables(db, n))
  {
    if n == START_CLAIMS {
      RecoverStartFinal(db, PendingDelivery, Persisted);
    } else if n == START_ATTEMPTS {
      RecoverStartFinal(db, DeliveryAttempted, Ambiguous);
    } else if n == STOP_CLAIMS {
      RecoverStopFinal(db, PendingDelivery, Persisted);
    } else if n == STOP_ATTEMPTS {
      RecoverStopFinal(db, DeliveryAttempted, Ambiguous);
    } else {
      Unmoved(db, RecoveredTables(db, n));
    }
  }

  // ----- whole runs -----

  ghost predicate Sound(s: State) {
    StartSafety.Sound(s) && StopSafety.Rows(s.db)
  }

  lemma StepSound(s: State, step: Step)
    requires Sound(s)
    ensures Sound(Apply(s, step))
  {
    StartSafety.StepSound(s, step);
    StopSafety.StepRows(s, step);
  }

  lemma RequestFinal(s: State, step: Step)
    requires StartSafety.Links(s.db) && StopSafety.Rows(s.db)
    requires step.RequestStart? || step.RequestStop? || step.EnsureStop?
             || step.ChargerStarted? || step.ChargerStopped? || step.ChargerMetered?
    ensures Final(s.db, Work(s, step).db)
  {
    var after := Work(s, step).db;
    match step
    case RequestStart(i) => CreateStartFinal(s.db, i); assert after == CreateStart(s.db, i).0;
    case RequestStop(i) => CreateStopFinal(s.db, i); assert after == CreateStop(s.db, i).0;
    case EnsureStop(t, cause) => EnsureFinal(s.db, t, cause); assert after == EnsureWorkflow(s.db, t, cause).0;
    case ChargerStarted(i, halId) =>
      if halId in s.db.transactions {
        Unmoved(s.db, after);
      } else {
        MaterializeFinal(s.db, i, halId);
        assert after == Materialize(s.db, i, halId).0;
      }
    case ChargerStopped(t, e) => CompleteFinal(s.db, t, e); assert after == Complete(s.db, t, e).0;
    case ChargerMetered(t, m) => TelemetryFinal(s.db, t, m); assert after == UpdateTelemetry(s.db, t, m).0;
  }

  lemma Unmoved(a: Db, b: Db)
    requires a == b
    ensures Final(a, b)
  {}

  lemma StartDispatchFinal(s: State, step: Step)
    requires StartSafety.Bound(s) && (step.StartClaim? || step.StartBegin? || step.StartSend? || step.StartMark?)
    ensures Final(s.db, Work(s, step).db)
  {
    var after := Work(s, step).db;
    if after == s.db {
      Unmoved(s.db, after);
    } else if step.StartClaim? {
      ClaimStartFinal(s.db, step.command);
      assert after == ClaimStart(s.db, step.command).0;
    } else if step.StartBegin? {
      BeginStartFinal(s.db, s.threads[step.thread].command);
      assert after == BeginStart(s.db, s.threads[step.thread].command);
    } else {
      var c := s.threads[step.thread].command;
      assert StartSafety.IsStart(s.db, c);
      assert after == MarkStart(s.db, c, step.status);
    }
  }

  lemma StopDispatchFinal(s: State, step: Step)
    requires step.StopClaim? || step.StopBegin? || step.StopCheck? || step.StopSend? || step.StopMark? || step.Abandon?
    ensures Final(s.db, Work(s, step).db)
  {
    var after := Work(s, step).db;
    if after == s.db {
      Unmoved(s.db, after);
    } else if step.StopClaim? {
      assert after == ClaimStop(s.db, step.transaction).0;
    } else if step.StopBegin? {
      BeginStopFinal(s.db, s.threads[step.thread].transaction);
      assert after == BeginStop(s.db, s.threads[step.thread].transaction);
    } else {
      var t := s.threads[step.thread].transaction;
      MarkStopFinal(s.db, t, step.status, step.order);
      assert after == MarkStop(s.db, t, step.status, step.order);
    }
  }

  lemma WorkFinal(s: State, step: Step)
    requires Sound(s) && step.Works()
    ensures Final(s.db, Work(s, step).db)
  {
    if step.StartClaim? || step.StartBegin? || step.StartSend? || step.StartMark? {
      StartDispatchFinal(s, step);
    } else if step.StopClaim? || step.StopBegin? || step.StopCheck? || step.StopSend? || step.StopMark? || step.Abandon? {
      StopDispatchFinal(s, step);
    } else {
      RequestFinal(s, step);
    }
  }

  lemma StepFinal(s: State, step: Step)
    requires Sound(s)
    ensures Sound(Apply(s, step)) && Final(s.db, Apply(s, step).db)
  {
    StepSound(s, step);
    StepTables(s, step);
    if Apply(s, step).db == s.db {
      Unmoved(s.db, Apply(s, step).db);
    } else if step.Works() {
      WorkFinal(s, step);
    } else {
      RecoveryFinal(s.db, if step.OtherRecover? then step.statement else s.recovery);
    }
  }

  lemma {:induction false} RunFinal(s: State, steps: seq<Step>)
    requires Sound(s)
    ensures Sound(Run(s, steps)) && Final(s.db, Run(s, steps).db)
    decreases |steps|
  {
    if steps != [] {
      StepFinal(s, steps[0]);
      RunFinal(Apply(s, steps[0]), steps[1..]);
      FinalTransitive(s.db, Apply(s, steps[0]).db, Run(s, steps).db);
    }
  }
}
