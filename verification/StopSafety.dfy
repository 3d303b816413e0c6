/**
 * RemoteStop. The agreement of transactions, workflows and stop commands holds in every run of any
 * number of processes; the delivery protocol is kept transaction by transaction, and holds for one as
 * long as no other process recovers its claim from under a dispatcher. The agreement comes first,
 * statement by statement, then the protocol: what the workflow of a transaction says about a
 * dispatcher that stands at a given place, and how far other steps may move it under that.
 */
module StopSafety {
  import opened Base
  import opened MeterEvidence
  import opened LifecycleTables
  import opened LifecycleSystem
  import StartSafety

  ghost predicate TransactionRow(db: Db, t: Id)
    requires t in db.transactions
  {
    var tx := db.transactions[t];
    && (tx.Done() <==> tx.stopState == Some(Completed))
    && (t !in db.workflows ==> tx.cause == None)
  }

  ghost predicate WorkflowRow(db: Db, t: Id)
    requires t in db.workflows
  {
    var w := db.workflows[t];
    && t in db.transactions
    && w.attempts <= 1
    && (w.state in {Persisted, PendingDelivery} ==> w.attempts == 0)
    && w.state !in {Superseded, Materialized}
    && (w.state == Completed <==> db.transactions[t].Done())
    && db.transactions[t].cause == Some(w.cause)
  }

  ghost predicate StopCommandRow(db: Db, c: Id)
    requires c in db.commands && db.commands[c].kind.Stop?
  {
    var t := db.commands[c].kind.workflow;
    && t in db.workflows && t in db.transactions
    && db.commands[c].state != Materialized
    && (db.commands[c].state == Superseded <==> db.transactions[t].Done())
  }

  ghost predicate Rows(db: Db) {
    && (forall t :: t in db.transactions ==> TransactionRow(db, t))
    && (forall t :: t in db.workflows ==> WorkflowRow(db, t))
    && (forall c :: c in db.commands && db.commands[c].kind.Stop? ==> StopCommandRow(db, c))
  }

  ghost function Attempts(db: Db, t: Id): nat {
    if t in db.workflows then db.workflows[t].attempts else 0
  }

  // ----- requests and charger messages -----

  /** How far a request or a charger message may move the stop tables under running dispatchers. */
  ghost predicate Advances(a: Db, b: Db) {
    && (forall t :: t in a.transactions ==>
          t in b.transactions && (a.transactions[t].Done() ==> b.transactions[t].Done()))
    && (forall t :: t in a.workflows ==>
          && t in b.workflows && b.workflows[t].attempts == a.workflows[t].attempts
          && (b.workflows[t].state == a.workflows[t].state
              || (b.workflows[t].state == Completed && t in b.transactions && b.transactions[t].Done())))
  }

  lemma CreateStartKeeps(db: Db, i: StartInput)
    requires Rows(db)
    ensures Rows(CreateStart(db, i).0) && Advances(db, CreateStart(db, i).0)
  {
    var db' := CreateStart(db, i).0;
    forall c | c in db'.commands && db'.commands[c].kind.Stop? ensures StopCommandRow(db', c) {
      assert StopCommandRow(db, c);
    }
    RowsCopied(db, db');
  }

  /** Unchanged transactions and workflows keep their rows. */
  lemma RowsCopied(db: Db, db': Db)
    requires Rows(db) && db'.transactions == db.transactions && db'.workflows == db.workflows
    ensures forall t :: t in db'.transactions ==> TransactionRow(db', t)
    ensures forall t :: t in db'.workflows ==> WorkflowRow(db', t)
  {
    forall t | t in db'.workflows ensures WorkflowRow(db', t) { assert WorkflowRow(db, t); }
    forall t | t in db'.transactions ensures TransactionRow(db', t) { assert TransactionRow(db, t); }
  }

  lemma EnsureKeeps(db: Db, t: Id, cause: StopCause)
    requires Rows(db)
    ensures Rows(EnsureWorkflow(db, t, cause).0) && Advances(db, EnsureWorkflow(db, t, cause).0)
  {
    var db' := EnsureWorkflow(db, t, cause).0;
    if db' != db {
      OpenKeeps(db, db', t, cause);
    }
  }

  lemma OpenKeeps(db: Db, db': Db, t: Id, cause: StopCause)
    requires Rows(db) && Opens(db, db', t, cause)
    ensures Rows(db') && Advances(db, db')
  {
    forall u | u in db'.workflows ensures WorkflowRow(db', u) { if u != t { assert WorkflowRow(db, u); } }
    forall u | u in db'.transactions ensures TransactionRow(db', u) { assert TransactionRow(db, u); }
    forall c | c in db'.commands && db'.commands[c].kind.Stop? ensures StopCommandRow(db', c) { OpenedCommand(db, db', t, cause, c); }
  }

  /** Open transaction `t` gained its workflow. */
  ghost predicate Opens(db: Db, db': Db, t: Id, cause: StopCause) {
    && t in db.transactions && !db.transactions[t].Done() && t !in db.workflows && db'.commands == db.commands
    && db'.workflows == db.workflows[t := Workflow(cause, Persisted, 0, None)]
    && db'.transactions == db.transactions[t := db.transactions[t].(stopState := Some(Persisted), cause := Some(cause))]
  }

  lemma OpenedCommand(db: Db, db': Db, t: Id, cause: StopCause, c: Id)
    requires Rows(db) && Opens(db, db', t, cause) && c in db.commands && db.commands[c].kind.Stop?
    ensures StopCommandRow(db', c)
  {
    assert StopCommandRow(db, c);
  }

  lemma CreateStopKeeps(db: Db, i: StopInput)
    requires Rows(db)
    ensures Rows(CreateStop(db, i).0) && Advances(db, CreateStop(db, i).0)
  {
    var db' := CreateStop(db, i).0;
    if db' != db {
      var db1 := EnsureWorkflow(db, i.transaction, i.cause).0;
      EnsureKeeps(db, i.transaction, i.cause);
      StartSafety.CreateStopAdds(db, i);
      if db' != db1 {
        NewStopKeeps(db1, db', i.command);
      }
    }
  }

  lemma NewStopKeeps(db: Db, db': Db, c: Id)
    requires Rows(db) && db'.transactions == db.transactions && db'.workflows == db.workflows
    requires c !in db.commands && c in db'.commands && db'.commands == db.commands[c := db'.commands[c]]
    requires db'.commands[c].kind.Stop? && OpenWorkflow(db, db'.commands[c].kind.workflow)
    requires db'.commands[c].state == Persisted && db'.commands[c].transaction == Some(db'.commands[c].kind.workflow)
    ensures Rows(db') && Advances(db, db')
  {
    RowsCopied(db, db');
    forall d | d in db'.commands && db'.commands[d].kind.Stop? ensures StopCommandRow(db', d) {
      if d != c { assert StopCommandRow(db, d); }
    }
  }

  lemma MaterializeKeeps(db: Db, i: StartEvidence, halId: Id)
    requires Rows(db) && halId !in db.transactions
    ensures Rows(Materialize(db, i, halId).0) && Advances(db, Materialize(db, i, halId).0)
  {
    var db' := Materialize(db, i, halId).0;
    if db' != db {
      StartSafety.MaterializedShape(db, StartCommandFor(db, i.idTag).value, i, halId);
      forall t | t in db'.workflows ensures WorkflowRow(db', t) { assert WorkflowRow(db, t); }
      forall t | t in db'.transactions ensures TransactionRow(db', t) {
        if t in db.transactions { assert TransactionRow(db, t); }
      }
      forall c | c in db'.commands && db'.commands[c].kind.Stop? ensures StopCommandRow(db', c) {
        assert StopCommandRow(db, c);
      }
    }
  }

  /** Transaction `t` closed: its row, its workflow and its live stop commands, nothing else. */
  ghost predicate Closes(db: Db, db': Db, t: Id) {
    && t in db.transactions && t in db'.transactions && !db.transactions[t].Done()
    && db'.transactions == db.transactions[t := db'.transactions[t]]
    && db'.transactions[t].Done() && db'.transactions[t].stopState == Some(Completed)
    && db'.transactions[t].cause == db.transactions[t].cause
    && db'.workflows.Keys == db.workflows.Keys
    && (forall u :: u in db.workflows && u != t ==> db'.workflows[u] == db.workflows[u])
    && (t in db.workflows ==>
          && db'.workflows[t].state == Completed && db'.workflows[t].attempts == db.workflows[t].attempts
          && db'.workflows[t].cause == db.workflows[t].cause)
    && db'.commands == WithCommandState(db.commands, t, Superseded)
  }

  lemma CompleteCloses(db: Db, t: Id, e: StopEvidence)
    requires t in db.transactions && !db.transactions[t].Done() && StopAdmissible(db.transactions[t], e)
    ensures Closes(db, Complete(db, t, e).0, t)
  {
    var rows := CompletedRows(db, t, e);
    assert Closes(db, rows, t);
    var db' := Complete(db, t, e).0;
    assert SameTables(rows, db');
  }

  lemma CloseKeeps(db: Db, db': Db, t: Id)
    requires Rows(db) && Closes(db, db', t)
    ensures Rows(db') && Advances(db, db')
  {
    forall u | u in db'.workflows ensures WorkflowRow(db', u) { ClosedWorkflow(db, db', t, u); }
    forall u | u in db'.transactions ensures TransactionRow(db', u) { ClosedTransaction(db, db', t, u); }
    forall c | c in db'.commands && db'.commands[c].kind.Stop? ensures StopCommandRow(db', c) {
      ClosedCommand(db, db', t, c);
    }
  }

  lemma ClosedWorkflow(db: Db, db': Db, t: Id, u: Id)
    requires Closes(db, db', t) && u in db.workflows && WorkflowRow(db, u)
    ensures WorkflowRow(db', u)
  {}

  lemma ClosedTransaction(db: Db, db': Db, t: Id, u: Id)
    requires Closes(db, db', t) && u in db.transactions && TransactionRow(db, u)
    ensures TransactionRow(db', u)
  {}

  lemma ClosedCommand(db: Db, db': Db, t: Id, c: Id)
    requires Closes(db, db', t) && c in db.commands && db.commands[c].kind.Stop? && StopCommandRow(db, c)
    ensures c in db'.commands && db'.commands[c].kind.Stop? && StopCommandRow(db', c)
  {}

  lemma CompleteKeeps(db: Db, t: Id, e: StopEvidence)
    requires Rows(db)
    ensures Rows(Complete(db, t, e).0) && Advances(db, Complete(db, t, e).0)
  {
    if t in db.transactions && !db.transactions[t].Done() && StopAdmissible(db.transactions[t], e) {
      CompleteCloses(db, t, e);
      CloseKeeps(db, Complete(db, t, e).0, t);
    }
  }

  lemma MeterColumnsKeep(db: Db, t: Id, tx: Transaction)
    requires Rows(db) && t in db.transactions
    requires tx.stopState == db.transactions[t].stopState
    requires tx.cause == db.transactions[t].cause && tx.stop == db.transactions[t].stop
    ensures var db1 := db.(transactions := db.transactions[t := tx]); Rows(db1) && Advances(db, db1)
  {
    var db1 := db.(transactions := db.transactions[t := tx]);
    forall u | u in db1.workflows ensures WorkflowRow(db1, u) { assert WorkflowRow(db, u); }
    forall u | u in db1.transactions ensures TransactionRow(db1, u) { assert TransactionRow(db, u); }
    forall c | c in db1.commands && db1.commands[c].kind.Stop? ensures StopCommandRow(db1, c) {
      assert StopCommandRow(db, c);
    }
  }

  lemma TelemetryRowsKeep(db: Db, t: Id, m: Telemetry)
    requires Rows(db) && t in db.transactions
    ensures Rows(TelemetryRows(db, t, m)) && Advances(db, TelemetryRows(db, t, m))
  {
    var current := UpdatedRow(db.transactions[t], m);
    MeterColumnsKeep(db, t, current);
    EnsureKeeps(db.(transactions := db.transactions[t := current]), t, EnergyStopCause(current.limits));
  }

  lemma TelemetryKeeps(db: Db, t: Id, m: Telemetry)
    requires Rows(db)
    ensures Rows(UpdateTelemetry(db, t, m).0) && Advances(db, UpdateTelemetry(db, t, m).0)
  {
    var db' := UpdateTelemetry(db, t, m).0;
    if t in db.transactions && (m.energyWh.Some? || m.soc.Some?) {
      var rows := TelemetryRows(db, t, m);
      TelemetryRowsKeep(db, t, m);
      FactsOnlyKeeps(rows, db');
    }
  }

  lemma FactsOnlyKeeps(db: Db, db': Db)
    requires Rows(db) && SameTables(db, db')
    ensures Rows(db')
  {
    RowsCopied(db, db');
    forall c | c in db'.commands && db'.commands[c].kind.Stop? ensures StopCommandRow(db', c) {
      assert StopCommandRow(db, c);
    }
  }

  // ----- dispatchers and recovery over the tables -----

  /** Only the workflow row of `t` moved, between states of an open transaction. */
  lemma WorkflowMoved(db: Db, db': Db, t: Id)
    requires Rows(db) && OpenWorkflow(db, t)
    requires db'.transactions == db.transactions && db'.commands == db.commands
    requires t in db'.workflows && db'.workflows == db.workflows[t := db'.workflows[t]]
    requires db'.workflows[t].cause == db.workflows[t].cause
    requires db'.workflows[t].state !in {Completed, Superseded, Materialized}
    requires db'.workflows[t].attempts <= 1
    requires db'.workflows[t].state in {Persisted, PendingDelivery} ==> db'.workflows[t].attempts == 0
    ensures Rows(db')
  {
    forall u | u in db'.workflows ensures WorkflowRow(db', u) { assert WorkflowRow(db, u); }
    forall u | u in db'.transactions ensures TransactionRow(db', u) { assert TransactionRow(db, u); }
    forall c | c in db'.commands && db'.commands[c].kind.Stop? ensures StopCommandRow(db', c) {
      assert StopCommandRow(db, c);
    }
  }

  /** The outcome of a delivery reached the workflow, its transaction and its live commands. */
  lemma MarkedRowsKeep(db: Db, t: Id, status: Status)
    requires Rows(db) && OpenWorkflow(db, t)
    ensures Rows(MarkedRows(db, t, DeliveryOf(status)))
  {
    var db' := MarkedRows(db, t, DeliveryOf(status));
    assert WorkflowRow(db, t) && TransactionRow(db, t);
    forall u | u in db'.workflows ensures WorkflowRow(db', u) { assert WorkflowRow(db, u); }
    forall u | u in db'.transactions ensures TransactionRow(db', u) { assert TransactionRow(db, u); }
    forall c | c in db'.commands && db'.commands[c].kind.Stop? ensures StopCommandRow(db', c) {
      assert StopCommandRow(db, c);
    }
  }

  lemma MarkMovesOwnRow(db: Db, t: Id, status: Status, order: seq<Id>)
    requires Enumerates(order, LiveStops(db, t))
    ensures var r := MarkStop(db, t, status, order);
            && r.transactions.Keys == db.transactions.Keys && r.workflows.Keys == db.workflows.Keys
            && (forall u :: u in db.workflows && u != t ==> r.workflows[u] == db.workflows[u])
            && (forall u :: u in db.transactions && u != t ==> r.transactions[u] == db.transactions[u])
            && Attempts(r, t) == Attempts(db, t)
  {}

  lemma MarkStopKeeps(db: Db, t: Id, status: Status, order: seq<Id>)
    requires Rows(db) && Enumerates(order, LiveStops(db, t))
    ensures Rows(MarkStop(db, t, status, order))
  {
    if OpenWorkflow(db, t) && db.workflows[t].state !in {Completed, Superseded} {
      MarkedRowsKeep(db, t, status);
      assert forall c :: c in order ==> c in LiveStops(db, t);
      FactsOnlyKeeps(MarkedRows(db, t, DeliveryOf(status)), MarkStop(db, t, status, order));
    }
  }

  lemma ClaimStopKeeps(db: Db, t: Id)
    requires Rows(db)
    ensures Rows(ClaimStop(db, t).0)
  {
    if ClaimStop(db, t).1 {
      assert WorkflowRow(db, t);
      WorkflowMoved(db, ClaimStop(db, t).0, t);
    }
  }

  lemma BeginStopKeeps(db: Db, t: Id)
    requires Rows(db)
    ensures Rows(BeginStop(db, t))
  {
    if BeginStop(db, t) != db {
      assert WorkflowRow(db, t);
      WorkflowMoved(db, BeginStop(db, t), t);
    }
  }

  /** Transactions, workflows and STOP commands stay as they are. */
  ghost predicate SameStop(db: Db, db': Db) {
    && db'.transactions == db.transactions && db'.workflows == db.workflows
    && (forall c :: c in db'.commands && db'.commands[c].kind.Stop? ==>
          c in db.commands && db.commands[c] == db'.commands[c])
  }

  lemma SameStopKeeps(db: Db, db': Db)
    requires Rows(db) && SameStop(db, db')
    ensures Rows(db')
  {
    RowsCopied(db, db');
    forall c | c in db'.commands && db'.commands[c].kind.Stop? ensures StopCommandRow(db', c) {
      assert StopCommandRow(db, c);
    }
  }

  lemma RecoverStopKeeps(db: Db, from: Delivery, to: Delivery)
    requires Rows(db)
    requires (from == PendingDelivery && to == Persisted) || (from == DeliveryAttempted && to == Ambiguous)
    ensures Rows(RecoverStop(db, from, to))
  {
    var db' := RecoverStop(db, from, to);
    forall u | u in db'.workflows ensures WorkflowRow(db', u) { assert WorkflowRow(db, u); }
    forall u | u in db'.transactions ensures TransactionRow(db', u) { assert TransactionRow(db, u); }
    forall c | c in db'.commands && db'.commands[c].kind.Stop? ensures StopCommandRow(db', c) {
      assert StopCommandRow(db, c);
    }
  }

  lemma RecoveredRows(db: Db, n: nat)
    requires Rows(db)
    ensures Rows(RecoveredTables(db, n))
  {
    if n == STOP_CLAIMS {
      RecoverStopKeeps(db, PendingDelivery, Persisted);
    } else if n == STOP_ATTEMPTS {
      RecoverStopKeeps(db, DeliveryAttempted, Ambiguous);
    } else {
      assert SameStop(db, RecoveredTables(db, n));
      SameStopKeeps(db, RecoveredTables(db, n));
    }
  }

  // ----- the tables over whole runs -----

  lemma RequestAdvances(s: State, step: Step)
    requires Rows(s.db)
    requires step.RequestStart? || step.RequestStop? || step.EnsureStop?
             || step.ChargerStarted? || step.ChargerStopped? || step.ChargerMetered?
    ensures Rows(Work(s, step).db) && Advances(s.db, Work(s, step).db)
    ensures Work(s, step) == s.(db := Work(s, step).db)
  {
    match step
    case RequestStart(i) => CreateStartKeeps(s.db, i);
    case RequestStop(i) => CreateStopKeeps(s.db, i);
    case EnsureStop(t, cause) => EnsureKeeps(s.db, t, cause);
    case ChargerStarted(i, halId) => if halId !in s.db.transactions { MaterializeKeeps(s.db, i, halId); }
    case ChargerStopped(t, e) => CompleteKeeps(s.db, t, e);
    case ChargerMetered(t, m) => TelemetryKeeps(s.db, t, m);
  }

  /** A START dispatcher moves no stop row. */
  lemma StartStepMoves(s: State, step: Step)
    requires StartSafety.Bound(s) && StartSafety.IsStartStep(step)
    ensures SameStop(s.db, Work(s, step).db)
  {
    if step.StartMark? && StartAt(s, step.thread, Sent) {
      MarkStartSameStop(s.db, s.threads[step.thread].command, step.status);
    }
  }

  lemma MarkStartSameStop(db: Db, c: Id, status: Status)
    requires StartSafety.IsStart(db, c)
    ensures SameStop(db, MarkStart(db, c, status))
  {}

  lemma StopStepRows(s: State, step: Step)
    requires Rows(s.db) && StartSafety.IsStopStep(step)
    ensures Rows(Work(s, step).db)
  {
    if Work(s, step).db != s.db {
      if step.StopClaim? { ClaimStopKeeps(s.db, step.transaction); }
      else if step.StopBegin? { BeginStopKeeps(s.db, s.threads[step.thread].transaction); }
      else { MarkStopKeeps(s.db, s.threads[step.thread].transaction, step.status, step.order); }
    }
  }

  lemma WorkRows(s: State, step: Step)
    requires Rows(s.db) && StartSafety.Bound(s) && step.Works()
    ensures Rows(Work(s, step).db)
  {
    if StartSafety.IsStartStep(step) {
      StartStepMoves(s, step);
      SameStopKeeps(s.db, Work(s, step).db);
    } else if StartSafety.IsStopStep(step) {
      StopStepRows(s, step);
    } else {
      RequestAdvances(s, step);
    }
  }

  lemma StepRows(s: State, step: Step)
    requires Rows(s.db) && StartSafety.Bound(s)
    ensures Rows(Apply(s, step).db)
  {
    if step.Works() {
      if s.recovery >= RECOVERY_STATEMENTS { WorkRows(s, step); }
    } else {
      RecoveredRows(s.db, if step.OtherRecover? then step.statement else s.recovery);
    }
  }

  // ----- deliveries for one transaction -----

  /** What the table says about a transaction while a dispatcher stands at `pc`. */
  ghost predicate ThreadRow(db: Db, wire: multiset<Message>, t: Id, pc: Pc) {
    && t in db.workflows && t in db.transactions
    && var w := db.workflows[t];
    match pc
    case Claimed => w.state in {PendingDelivery, Completed} && w.attempts == 0
    case Begun =>
      w.state !in {Persisted, PendingDelivery} && wire[StopSent(t)] == 0
      && (w.attempts == 1 || db.transactions[t].Done())
    case Ready => w.attempts == 1 && wire[StopSent(t)] == 0
    case Sent => w.attempts == 1
  }

  predicate On(s: State, i: Id, t: Id) {
    i in s.threads && s.threads[i].StopThread? && s.threads[i].transaction == t
  }

  /** Sends covered by committed attempts, and at most one dispatcher, where the row says it may be. */
  ghost predicate Guarded(s: State, t: Id) {
    && s.wire[StopSent(t)] <= Attempts(s.db, t)
    && (forall i :: On(s, i, t) ==> ThreadRow(s.db, s.wire, t, s.threads[i].pc))
    && (forall i, j :: On(s, i, t) && On(s, j, t) ==> i == j)
  }

  /** How far somebody else may move the rows of `t` under its dispatcher. */
  ghost predicate RowAdvances(a: Db, b: Db, t: Id) {
    && (t in a.transactions ==> t in b.transactions && (a.transactions[t].Done() ==> b.transactions[t].Done()))
    && (t in a.workflows ==>
          && t in b.workflows && b.workflows[t].attempts == a.workflows[t].attempts
          && (|| b.workflows[t].state == a.workflows[t].state
              || (b.workflows[t].state == Completed && t in b.transactions && b.transactions[t].Done())
              || (a.workflows[t].state == DeliveryAttempted && b.workflows[t].state == Ambiguous)))
  }

  /** A step that is not about `t`: its sends stay, its rows advance, its dispatchers stay or go. */
  ghost predicate Frame(s: State, s': State, t: Id) {
    && RowAdvances(s.db, s'.db, t) && s'.wire[StopSent(t)] == s.wire[StopSent(t)]
    && (forall i :: On(s', i, t) ==> On(s, i, t) && s'.threads[i] == s.threads[i])
  }

  lemma FrameKeeps(s: State, s': State, t: Id)
    requires Guarded(s, t) && Frame(s, s', t)
    ensures Guarded(s', t)
  {
    forall i | On(s', i, t) ensures ThreadRow(s'.db, s'.wire, t, s'.threads[i].pc) {
      assert ThreadRow(s.db, s.wire, t, s.threads[i].pc);
    }
  }

  /** The step is a claim of `t` or a move of its dispatcher. */
  predicate About(s: State, step: Step, t: Id) {
    (step.StopClaim? && step.transaction == t)
    || ((step.StopBegin? || step.StopCheck? || step.StopSend? || step.StopMark?) && On(s, step.thread, t))
  }

  lemma StartStepFrame(s: State, step: Step, t: Id)
    requires StartSafety.Bound(s) && StartSafety.IsStartStep(step)
    ensures Frame(s, Work(s, step), t)
  {
    StartStepMoves(s, step);
    var s' := Work(s, step);
    assert s'.wire[StopSent(t)] == s.wire[StopSent(t)];
  }

  lemma TableStepFrame(s: State, step: Step, t: Id)
    requires (step.StopClaim? || step.StopBegin? || step.StopMark?) && !About(s, step, t)
    ensures Frame(s, Work(s, step), t)
  {
    if step.StopMark? && Work(s, step) != s {
      MarkMovesOwnRow(s.db, s.threads[step.thread].transaction, step.status, step.order);
    }
  }

  lemma WireStepFrame(s: State, step: Step, t: Id)
    requires (step.StopCheck? || step.StopSend? || step.Abandon?) && !About(s, step, t)
    ensures Frame(s, Work(s, step), t)
  {
    var s' := Work(s, step);
    assert s'.db == s.db && s'.wire[StopSent(t)] == s.wire[StopSent(t)];
  }

  /** Nobody stands at a row that is claimable, or claimed but not exposed. */
  lemma Unattended(s: State, t: Id)
    requires Guarded(s, t) && OpenWorkflow(s.db, t) && s.db.workflows[t].state in {Persisted, PendingDelivery}
    requires WorkflowRow(s.db, t) && (s.db.workflows[t].state == Persisted || !Exposed(s, t))
    ensures forall i :: !On(s, i, t)
  {
    forall i ensures !On(s, i, t) {}
  }

  /** The dispatcher `i` of `t` moved, alone or with its row and its sends. */
  lemma OwnMoved(s: State, s': State, i: Id, t: Id)
    requires Guarded(s, t) && On(s, i, t) && (forall j :: On(s', j, t) ==> On(s, j, t))
    requires s'.wire[StopSent(t)] <= Attempts(s'.db, t)
    requires On(s', i, t) ==> ThreadRow(s'.db, s'.wire, t, s'.threads[i].pc)
    ensures Guarded(s', t)
  {
    forall j | On(s', j, t) ensures j == i {
      assert On(s, j, t);
    }
  }

  lemma ClaimKeeps(s: State, i: Id, t: Id)
    requires Guarded(s, t) && Rows(s.db)
    ensures Guarded(Work(s, StopClaim(i, t)), t)
  {
    if Work(s, StopClaim(i, t)) != s {
      assert WorkflowRow(s.db, t);
      Unattended(s, t);
    }
  }

  lemma BeginKeeps(s: State, i: Id, t: Id)
    requires Guarded(s, t) && Rows(s.db) && On(s, i, t)
    ensures Guarded(Work(s, StopBegin(i)), t)
  {
    assert ThreadRow(s.db, s.wire, t, s.threads[i].pc);
    assert WorkflowRow(s.db, t);
    OwnMoved(s, Work(s, StopBegin(i)), i, t);
  }

  lemma CheckKeeps(s: State, i: Id, t: Id)
    requires Guarded(s, t) && On(s, i, t)
    ensures Guarded(Work(s, StopCheck(i)), t)
  {
    assert ThreadRow(s.db, s.wire, t, s.threads[i].pc);
    OwnMoved(s, Work(s, StopCheck(i)), i, t);
  }

  lemma SendKeeps(s: State, i: Id, t: Id)
    requires Guarded(s, t) && On(s, i, t)
    ensures Guarded(Work(s, StopSend(i)), t)
  {
    assert ThreadRow(s.db, s.wire, t, s.threads[i].pc);
    OwnMoved(s, Work(s, StopSend(i)), i, t);
  }

  lemma MarkKeeps(s: State, i: Id, t: Id, status: Status, order: seq<Id>)
    requires Guarded(s, t) && On(s, i, t)
    ensures Guarded(Work(s, StopMark(i, status, order)), t)
  {
    var s' := Work(s, StopMark(i, status, order));
    if s' != s {
      MarkMovesOwnRow(s.db, t, status, order);
      OwnMoved(s, s', i, t);
    }
  }

  lemma WorkGuarded(s: State, step: Step, t: Id)
    requires Rows(s.db) && StartSafety.Bound(s) && step.Works() && Guarded(s, t)
    ensures Guarded(Work(s, step), t)
  {
    if About(s, step, t) {
      match step {
        case StopClaim(i, _) => ClaimKeeps(s, i, t);
        case StopBegin(i) => BeginKeeps(s, i, t);
        case StopCheck(i) => CheckKeeps(s, i, t);
        case StopSend(i) => SendKeeps(s, i, t);
        case StopMark(i, status, order) => MarkKeeps(s, i, t, status, order);
      }
    } else {
      if StartSafety.IsStartStep(step) { StartStepFrame(s, step, t); }
      else if step.StopClaim? || step.StopBegin? || step.StopMark? { TableStepFrame(s, step, t); }
      else if StartSafety.IsStopStep(step) { WireStepFrame(s, step, t); }
      else { RequestAdvances(s, step); }
      FrameKeeps(s, Work(s, step), t);
    }
  }

  // ----- recovery by another process -----

  /** A dispatcher stands between its claim of `t` and the attempt, and the transaction is still open. */
  ghost predicate Exposed(s: State, t: Id) {
    OpenWorkflow(s.db, t) && exists i :: On(s, i, t) && s.threads[i].pc == Claimed
  }

  lemma RecoveredKeeps(s: State, n: nat, t: Id)
    requires Rows(s.db) && Guarded(s, t) && (n == STOP_CLAIMS ==> !Exposed(s, t))
    ensures Guarded(s.(db := RecoveredTables(s.db, n)), t)
  {
    if n == STOP_CLAIMS && t in s.db.workflows && s.db.workflows[t].state == PendingDelivery {
      assert WorkflowRow(s.db, t);
      Unattended(s, t);
    } else {
      FrameKeeps(s, s.(db := RecoveredTables(s.db, n)), t);
    }
  }

  /** No recovery by another process takes a claim of `t` from under its dispatcher. */
  ghost predicate Undisturbed(s: State, steps: seq<Step>, t: Id)
    decreases |steps|
  {
    steps == [] || ((steps[0] == OtherRecover(STOP_CLAIMS) ==> !Exposed(s, t)) && Undisturbed(Apply(s, steps[0]), steps[1..], t))
  }

  lemma {:induction false} OneProcessIsUndisturbed(s: State, steps: seq<Step>, t: Id)
    requires OneProcess(steps)
    ensures Undisturbed(s, steps, t)
    decreases |steps|
  {
    if steps != [] {
      assert steps[0] != OtherRecover(STOP_CLAIMS);
      OneProcessIsUndisturbed(Apply(s, steps[0]), steps[1..], t);
    }
  }

  lemma StepGuarded(s: State, step: Step, t: Id)
    requires Rows(s.db) && StartSafety.Sound(s) && Guarded(s, t) && (step == OtherRecover(STOP_CLAIMS) ==> !Exposed(s, t))
    ensures Guarded(Apply(s, step), t)
  {
    if step.Works() {
      if s.recovery >= RECOVERY_STATEMENTS { WorkGuarded(s, step, t); }
    } else if step.OtherRecover? {
      RecoveredKeeps(s, step.statement, t);
    } else if step.Crash? {
      FrameKeeps(s, s.(threads := map[], recovery := 0), t);
    } else {
      OwnRecoveryKeeps(s, t);
    }
  }

  lemma OwnRecoveryKeeps(s: State, t: Id)
    requires Rows(s.db) && Recovering(s) && Guarded(s, t)
    ensures Guarded(Apply(s, Recover), t)
  {
    if s.recovery < RECOVERY_STATEMENTS {
      RecoveredKeeps(s, s.recovery, t);
      FrameKeeps(s.(db := RecoveredTables(s.db, s.recovery)), Apply(s, Recover), t);
    }
  }

  lemma {:induction false} RunGuarded(s: State, steps: seq<Step>, t: Id)
    requires Rows(s.db) && StartSafety.Sound(s) && Guarded(s, t) && Undisturbed(s, steps, t)
    ensures Guarded(Run(s, steps), t)
    decreases |steps|
  {
    if steps != [] {
      StepGuarded(s, steps[0], t);
      StepRows(s, steps[0]);
      StartSafety.StepSound(s, steps[0]);
      RunGuarded(Apply(s, steps[0]), steps[1..], t);
    }
  }
}
