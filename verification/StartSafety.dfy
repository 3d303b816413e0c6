/**
 * RemoteStart. The links of credentials, commands and transactions hold in every run of any number
 * of processes; the delivery protocol is kept command by command, and holds for a command as long as
 * no other process recovers its claim from under a dispatcher. The links come first, statement by
 * statement, then the protocol: what the row of a command says about a dispatcher that stands at a
 * given place, and how far other steps may move that row under it.
 */
module StartSafety {
  import opened Base
  import opened MeterEvidence
  import opened LifecycleTables
  import opened LifecycleSystem

  // ----- credentials, commands and transactions -----

  predicate IsStart(db: Db, c: Id) {
    c in db.commands && db.commands[c].kind.Start?
  }

  ghost predicate CommandLink(db: Db, c: Id)
    requires IsStart(db, c)
  {
    var row := db.commands[c];
    && row.kind.idTag in db.credentials
    && db.credentials[row.kind.idTag].intent == row.kind.intent
    && db.credentials[row.kind.idTag].binding == row.binding
    && db.credentials[row.kind.idTag].transaction == row.transaction
    && (row.state == Materialized <==> row.transaction.Some?)
    && (row.transaction.Some? ==>
          && row.transaction.value in db.transactions
          && db.transactions[row.transaction.value].command == c)
  }

  ghost predicate CredentialLink(db: Db, g: Id)
    requires g in db.credentials
  {
    var row := db.credentials[g];
    && (row.consumedAt.Some? <==> row.transaction.Some?)
    && (row.transaction.Some? ==>
          && row.transaction.value in db.transactions
          && db.transactions[row.transaction.value].idTag == g)
  }

  ghost predicate TransactionLink(db: Db, t: Id)
    requires t in db.transactions
  {
    var tx := db.transactions[t];
    && IsStart(db, tx.command)
    && db.commands[tx.command].kind.idTag == tx.idTag
    && db.commands[tx.command].kind.intent == tx.intent
    && db.commands[tx.command].transaction == Some(t)
    && tx.idTag in db.credentials
    && db.credentials[tx.idTag].transaction == Some(t)
    && db.credentials[tx.idTag].binding == tx.binding
  }

  ghost predicate OneCommandPerTag(db: Db) {
    forall c, d :: IsStart(db, c) && IsStart(db, d) && db.commands[c].kind.idTag == db.commands[d].kind.idTag ==> c == d
  }

  ghost predicate Links(db: Db) {
    && (forall c :: IsStart(db, c) ==> CommandLink(db, c))
    && (forall g :: g in db.credentials ==> CredentialLink(db, g))
    && (forall t :: t in db.transactions ==> TransactionLink(db, t))
    && OneCommandPerTag(db)
  }

  // ----- requests and charger messages -----

  /** START rows either stay or materialize; new ones are undelivered. */
  ghost predicate Advances(a: Db, b: Db) {
    && (forall c :: IsStart(a, c) ==>
          && IsStart(b, c) && b.commands[c].attempts == a.commands[c].attempts
          && (b.commands[c].state == a.commands[c].state || b.commands[c].state == Materialized))
    && (forall c :: IsStart(b, c) && !IsStart(a, c) ==> b.commands[c].attempts == 0 && b.commands[c].state == Persisted)
  }

  /** A stop or telemetry step: START commands and credentials stay, no transaction is rebound. */
  ghost predicate SameStart(a: Db, b: Db) {
    && a.credentials == b.credentials
    && (forall c :: IsStart(a, c) <==> IsStart(b, c))
    && (forall c :: IsStart(a, c) ==> a.commands[c] == b.commands[c])
    && a.transactions.Keys == b.transactions.Keys
    && (forall t :: t in a.transactions ==>
          && a.transactions[t].command == b.transactions[t].command && a.transactions[t].idTag == b.transactions[t].idTag
          && a.transactions[t].intent == b.transactions[t].intent && a.transactions[t].binding == b.transactions[t].binding)
  }

  lemma SameStartKeeps(a: Db, b: Db)
    requires Links(a) && SameStart(a, b)
    ensures Links(b) && Advances(a, b)
  {
    forall c | IsStart(b, c) ensures CommandLink(b, c) { assert CommandLink(a, c); }
    forall g | g in b.credentials ensures CredentialLink(b, g) { assert CredentialLink(a, g); }
    forall t | t in b.transactions ensures TransactionLink(b, t) { assert TransactionLink(a, t); }
  }

  lemma CreateStartKeeps(db: Db, i: StartInput)
    requires Links(db)
    ensures Links(CreateStart(db, i).0) && Advances(db, CreateStart(db, i).0)
  {
    var db' := CreateStart(db, i).0;
    if db' != db {
      forall c | IsStart(db', c) ensures CommandLink(db', c) { if c != i.command { assert CommandLink(db, c); } }
      forall g | g in db'.credentials ensures CredentialLink(db', g) { if g != i.idTag { assert CredentialLink(db, g); } }
      forall t | t in db'.transactions ensures TransactionLink(db', t) { assert TransactionLink(db, t); }
      forall c, d | IsStart(db', c) && IsStart(db', d) && db'.commands[c].kind.idTag == db'.commands[d].kind.idTag
        ensures c == d
      {
        if c != i.command { assert CommandLink(db, c); }
        if d != i.command { assert CommandLink(db, d); }
      }
    }
  }

  /** The three rows of a materialization. */
  ghost predicate Materializes(db: Db, db': Db, c: Id, i: StartEvidence, halId: Id)
    requires IsStart(db, c) && i.idTag in db.credentials
  {
    && db'.commands == db.commands[c := db.commands[c].(state := Materialized, transaction := Some(halId))]
    && db'.credentials == db.credentials[i.idTag := db.credentials[i.idTag].(
                                           consumedAt := Some(Stored(i.observedAt)), transaction := Some(halId))]
    && db'.transactions == db.transactions[halId := NewTransaction(db.credentials[i.idTag], c, db.commands[c].kind.limits, i)]
    && db'.workflows == db.workflows
  }

  lemma MaterializedShape(db: Db, c: Id, i: StartEvidence, halId: Id)
    requires IsStart(db, c) && i.idTag in db.credentials
    ensures Materializes(db, MaterializedRows(db, c, i, halId), c, i, halId)
  {}

  lemma MaterializedRowsKeep(db: Db, c: Id, i: StartEvidence, halId: Id)
    requires Links(db) && halId !in db.transactions
    requires IsStart(db, c) && db.commands[c].kind.idTag == i.idTag
    requires i.idTag in db.credentials && db.credentials[i.idTag].transaction == None
    ensures Links(MaterializedRows(db, c, i, halId)) && Advances(db, MaterializedRows(db, c, i, halId))
  {
    var db' := MaterializedRows(db, c, i, halId);
    MaterializedShape(db, c, i, halId);
    assert CommandLink(db, c);
    forall d | IsStart(db', d) ensures CommandLink(db', d) { MaterializedCommand(db, db', c, i, halId, d); }
    forall g | g in db'.credentials ensures CredentialLink(db', g) { MaterializedCredential(db, db', c, i, halId, g); }
    forall t | t in db'.transactions ensures TransactionLink(db', t) { MaterializedTransaction(db, db', c, i, halId, t); }
    MaterializedAdvances(db, db', c, i, halId);
  }

  lemma MaterializedCommand(db: Db, db': Db, c: Id, i: StartEvidence, halId: Id, d: Id)
    requires Links(db) && halId !in db.transactions && IsStart(db, c) && db.commands[c].kind.idTag == i.idTag
    requires i.idTag in db.credentials && Materializes(db, db', c, i, halId) && IsStart(db', d)
    ensures CommandLink(db', d)
  {
    assert CommandLink(db, c) && CommandLink(db, d);
  }

  lemma MaterializedCredential(db: Db, db': Db, c: Id, i: StartEvidence, halId: Id, g: Id)
    requires Links(db) && halId !in db.transactions && IsStart(db, c)
    requires i.idTag in db.credentials && Materializes(db, db', c, i, halId) && g in db'.credentials
    ensures CredentialLink(db', g)
  {
    assert CredentialLink(db, g);
  }

  lemma MaterializedTransaction(db: Db, db': Db, c: Id, i: StartEvidence, halId: Id, t: Id)
    requires Links(db) && halId !in db.transactions && IsStart(db, c) && db.commands[c].kind.idTag == i.idTag
    requires i.idTag in db.credentials && db.credentials[i.idTag].transaction == None
    requires Materializes(db, db', c, i, halId) && t in db'.transactions
    ensures TransactionLink(db', t)
  {
    assert CommandLink(db, c);
    if t != halId { assert TransactionLink(db, t); }
  }

  lemma MaterializedAdvances(db: Db, db': Db, c: Id, i: StartEvidence, halId: Id)
    requires IsStart(db, c) && i.idTag in db.credentials && Materializes(db, db', c, i, halId) && OneCommandPerTag(db)
    ensures Advances(db, db') && OneCommandPerTag(db')
  {
    forall d, e | IsStart(db', d) && IsStart(db', e) && db'.commands[d].kind.idTag == db'.commands[e].kind.idTag ensures d == e {
      assert IsStart(db, d) && IsStart(db, e);
    }
  }

  lemma MaterializeKeeps(db: Db, i: StartEvidence, halId: Id)
    requires Links(db) && halId !in db.transactions
    ensures Links(Materialize(db, i, halId).0) && Advances(db, Materialize(db, i, halId).0)
  {
    if Materialize(db, i, halId).0 != db {
      MaterializedRowsKeep(db, StartCommandFor(db, i.idTag).value, i, halId);
    }
  }

  lemma EnsureSameStart(db: Db, t: Id, cause: StopCause)
    ensures SameStart(db, EnsureWorkflow(db, t, cause).0)
  {}

  /** Beyond the workflow at most one fresh stop command is added, live and on an open transaction. */
  lemma CreateStopAdds(db: Db, i: StopInput)
    requires CreateStop(db, i).0 != db
    ensures var db1, db' := EnsureWorkflow(db, i.transaction, i.cause).0, CreateStop(db, i).0;
            && db'.transactions == db1.transactions && db'.workflows == db1.workflows
            && OpenWorkflow(db1, i.transaction)
            && (db' == db1 || (i.command !in db1.commands && i.command in db'.commands
                               && db'.commands == db1.commands[i.command := db'.commands[i.command]]
                               && db'.commands[i.command].kind == Stop(i.transaction, i.cause)
                               && db'.commands[i.command].transaction == Some(i.transaction)
                               && db'.commands[i.command].state == Persisted))
  {}

  lemma CreateStopSameStart(db: Db, i: StopInput)
    ensures SameStart(db, CreateStop(db, i).0)
  {
    if CreateStop(db, i).0 != db {
      EnsureSameStart(db, i.transaction, i.cause);
      CreateStopAdds(db, i);
      assert CreateStop(db, i).0.credentials == db.credentials;
    }
  }

  lemma CompleteSameStart(db: Db, t: Id, e: StopEvidence)
    ensures SameStart(db, Complete(db, t, e).0)
  {
    if t in db.transactions && !db.transactions[t].Done() && StopAdmissible(db.transactions[t], e) {
      var rows := CompletedRows(db, t, e);
      assert SameStart(db, rows);
      assert SameTables(rows, Complete(db, t, e).0);
    }
  }

  lemma TelemetrySameStart(db: Db, t: Id, m: Telemetry)
    ensures SameStart(db, UpdateTelemetry(db, t, m).0)
  {
    if t in db.transactions && (m.energyWh.Some? || m.soc.Some?) {
      TelemetryRowsSameStart(db, t, m);
      assert SameTables(TelemetryRows(db, t, m), UpdateTelemetry(db, t, m).0);
    }
  }

  lemma TelemetryRowsSameStart(db: Db, t: Id, m: Telemetry)
    requires t in db.transactions
    ensures SameStart(db, TelemetryRows(db, t, m))
  {
    var current := UpdatedRow(db.transactions[t], m);
    EnsureSameStart(db.(transactions := db.transactions[t := current]), t, EnergyStopCause(current.limits));
  }

  lemma MarkStopSameStart(db: Db, t: Id, status: Status, order: seq<Id>)
    requires Enumerates(order, LiveStops(db, t))
    ensures SameStart(db, MarkStop(db, t, status, order))
  {
    if OpenWorkflow(db, t) && db.workflows[t].state !in {Completed, Superseded} {
      var rows := MarkedRows(db, t, DeliveryOf(status));
      assert SameStart(db, rows);
      assert SameTables(rows, MarkStop(db, t, status, order));
    }
  }

  // ----- dispatchers and recovery over the tables -----

  /** Only the delivery columns of START command `c` moved, and not into or out of MATERIALIZED. */
  ghost predicate CommandMoved(db: Db, db': Db, c: Id) {
    && IsStart(db, c) && c in db'.commands
    && db'.transactions == db.transactions && db'.credentials == db.credentials
    && db'.commands == db.commands[c := db'.commands[c]]
    && db'.commands[c] == db.commands[c].(state := db'.commands[c].state, attempts := db'.commands[c].attempts)
    && (db'.commands[c].state == Materialized <==> db.commands[c].state == Materialized)
  }

  lemma CommandMovedLinks(db: Db, db': Db, c: Id)
    requires Links(db) && CommandMoved(db, db', c)
    ensures Links(db')
  {
    forall d | IsStart(db', d) ensures CommandLink(db', d) { assert CommandLink(db, d); }
    forall g | g in db'.credentials ensures CredentialLink(db', g) { assert CredentialLink(db, g); }
    forall t | t in db'.transactions ensures TransactionLink(db', t) { assert TransactionLink(db, t); }
  }

  lemma MarkStartMoves(db: Db, c: Id, status: Status)
    requires IsStart(db, c)
    ensures CommandMoved(db, MarkStart(db, c, status), c)
  {}

  lemma RecoverStartLinks(db: Db, from: Delivery, to: Delivery)
    requires Links(db) && from != Materialized && to != Materialized
    ensures Links(RecoverStart(db, from, to))
  {
    var db' := RecoverStart(db, from, to);
    RecoverStartFrame(db, from, to);
    StatesMovedLinks(db, db');
  }

  /** Only delivery states of START commands moved, and not into or out of MATERIALIZED. */
  ghost predicate StatesMoved(db: Db, db': Db) {
    && db'.transactions == db.transactions && db'.credentials == db.credentials && db'.commands.Keys == db.commands.Keys
    && (forall c :: c in db.commands ==> db'.commands[c] == db.commands[c].(state := db'.commands[c].state))
    && (forall c :: c in db.commands ==> (db'.commands[c].state == Materialized <==> db.commands[c].state == Materialized))
  }

  lemma RecoverStartFrame(db: Db, from: Delivery, to: Delivery)
    requires from != Materialized && to != Materialized
    ensures StatesMoved(db, RecoverStart(db, from, to))
  {}

  lemma StatesMovedLinks(db: Db, db': Db)
    requires Links(db) && StatesMoved(db, db')
    ensures Links(db')
  {
    forall d | IsStart(db', d) ensures CommandLink(db', d) { assert CommandLink(db, d); }
    forall g | g in db'.credentials ensures CredentialLink(db', g) { assert CredentialLink(db, g); }
    forall t | t in db'.transactions ensures TransactionLink(db', t) { assert TransactionLink(db, t); }
    forall c, d | IsStart(db', c) && IsStart(db', d) && db'.commands[c].kind.idTag == db'.commands[d].kind.idTag
      ensures c == d
    {
      assert IsStart(db, c) && IsStart(db, d);
    }
  }

  lemma RecoveredLinks(db: Db, n: nat)
    requires Links(db)
    ensures Links(RecoveredTables(db, n)) && KeepsStarts(db, RecoveredTables(db, n))
  {
    if n == START_CLAIMS {
      RecoverStartLinks(db, PendingDelivery, Persisted);
    } else if n == START_ATTEMPTS {
      RecoverStartLinks(db, DeliveryAttempted, Ambiguous);
    } else {
      assert SameStart(db, RecoveredTables(db, n));
      SameStartKeeps(db, RecoveredTables(db, n));
    }
  }

  // ----- the tables over whole runs -----

  ghost predicate KeepsStarts(a: Db, b: Db) {
    forall c :: IsStart(a, c) ==> IsStart(b, c)
  }

  /** Every RemoteStart dispatcher works on a START command. */
  ghost predicate Bound(s: State) {
    forall i :: i in s.threads && s.threads[i].StartThread? ==> IsStart(s.db, s.threads[i].command)
  }

  ghost predicate Sound(s: State) {
    Links(s.db) && Bound(s) && Recovering(s)
  }

  lemma RequestAdvances(s: State, step: Step)
    requires Links(s.db)
    requires step.RequestStart? || step.RequestStop? || step.EnsureStop?
             || step.ChargerStarted? || step.ChargerStopped? || step.ChargerMetered?
    ensures Links(Work(s, step).db) && Advances(s.db, Work(s, step).db)
    ensures Work(s, step) == s.(db := Work(s, step).db)
  {
    var after := Work(s, step).db;
    match step
    case RequestStart(i) => CreateStartKeeps(s.db, i);
    case RequestStop(i) => CreateStopSameStart(s.db, i); SameStartKeeps(s.db, after);
    case EnsureStop(t, cause) => EnsureSameStart(s.db, t, cause); SameStartKeeps(s.db, after);
    case ChargerStarted(i, halId) => if halId !in s.db.transactions { MaterializeKeeps(s.db, i, halId); }
    case ChargerStopped(t, e) => CompleteSameStart(s.db, t, e); SameStartKeeps(s.db, after);
    case ChargerMetered(t, m) => TelemetrySameStart(s.db, t, m); SameStartKeeps(s.db, after);
  }

  predicate IsStartStep(step: Step) {
    step.StartClaim? || step.StartBegin? || step.StartSend? || step.StartMark?
  }

  predicate IsStopStep(step: Step) {
    step.StopClaim? || step.StopBegin? || step.StopCheck? || step.StopSend? || step.StopMark? || step.Abandon?
  }

  /** A START dispatcher moves the row of its own command, if any. */
  lemma StartStepMoves(s: State, step: Step)
    requires Bound(s) && IsStartStep(step)
    ensures var s' := Work(s, step);
            s' == s || s'.db == s.db ||
            CommandMoved(s.db, s'.db, if step.StartClaim? then step.command else s.threads[step.thread].command)
  {
    if step.StartMark? && StartAt(s, step.thread, Sent) {
      MarkStartMoves(s.db, s.threads[step.thread].command, step.status);
    }
  }

  /** A STOP dispatcher moves no START row. */
  lemma StopStepMoves(s: State, step: Step)
    requires IsStopStep(step)
    ensures SameStart(s.db, Work(s, step).db)
  {
    if Work(s, step).db != s.db {
      if step.StopMark? {
        MarkStopSameStart(s.db, s.threads[step.thread].transaction, step.status, step.order);
      } else if step.StopClaim? {
        ClaimSameStart(s.db, step.transaction);
      } else {
        BeginSameStart(s.db, s.threads[step.thread].transaction);
      }
    }
  }

  lemma ClaimSameStart(db: Db, t: Id)
    ensures SameStart(db, ClaimStop(db, t).0)
  {}

  lemma BeginSameStart(db: Db, t: Id)
    ensures SameStart(db, BeginStop(db, t))
  {}

  lemma WorkLinks(s: State, step: Step)
    requires Links(s.db) && Bound(s) && step.Works()
    ensures Links(Work(s, step).db) && KeepsStarts(s.db, Work(s, step).db)
  {
    if IsStartStep(step) {
      StartStepLinks(s, step);
    } else if IsStopStep(step) {
      StopStepMoves(s, step);
      SameStartKeeps(s.db, Work(s, step).db);
    } else {
      RequestAdvances(s, step);
    }
  }

  lemma StartStepLinks(s: State, step: Step)
    requires Links(s.db) && Bound(s) && IsStartStep(step)
    ensures Links(Work(s, step).db) && KeepsStarts(s.db, Work(s, step).db)
  {
    var after := Work(s, step).db;
    StartStepMoves(s, step);
    if after != s.db {
      CommandMovedLinks(s.db, after, if step.StartClaim? then step.command else s.threads[step.thread].command);
    }
  }

  lemma WorkBound(s: State, step: Step)
    requires Bound(s) && step.Works() && KeepsStarts(s.db, Work(s, step).db)
    ensures Bound(Work(s, step))
  {
    var s' := Work(s, step);
    forall i | i in s'.threads && s'.threads[i].StartThread? ensures IsStart(s'.db, s'.threads[i].command) {
      ThreadOrigin(s, step, i);
    }
  }

  /** A START thread was there before for the same command, or has just claimed it. */
  lemma ThreadOrigin(s: State, step: Step, i: Id)
    requires step.Works() && i in Work(s, step).threads && Work(s, step).threads[i].StartThread?
    ensures var c := Work(s, step).threads[i].command;
            (i in s.threads && s.threads[i].StartThread? && s.threads[i].command == c) || IsStart(s.db, c)
  {}

  lemma StepSound(s: State, step: Step)
    requires Sound(s)
    ensures Sound(Apply(s, step))
  {
    StepRecovering(s, step);
    if step.Works() {
      if s.recovery >= RECOVERY_STATEMENTS {
        WorkLinks(s, step);
        WorkBound(s, step);
      }
    } else {
      RecoveredLinks(s.db, if step.OtherRecover? then step.statement else s.recovery);
    }
  }

  lemma {:induction false} RunSound(s: State, steps: seq<Step>)
    requires Sound(s)
    ensures Sound(Run(s, steps))
    decreases |steps|
  {
    if steps != [] {
      StepSound(s, steps[0]);
      RunSound(Apply(s, steps[0]), steps[1..]);
    }
  }

  // ----- deliveries of one command -----

  ghost predicate DeliveryRow(db: Db, wire: multiset<Message>, c: Id) {
    var sent := wire[StartSent(c)];
    if !IsStart(db, c) then sent == 0
    else
      var row := db.commands[c];
      && sent <= 1 && row.attempts <= 1
      && (row.state in {Persisted, PendingDelivery} ==> sent == 0 && row.attempts == 0)
      && (sent == 1 ==> row.attempts == 1 || row.state == Materialized)
      && row.state !in {Completed, Superseded}
  }

  ghost predicate ThreadRow(db: Db, wire: multiset<Message>, c: Id, pc: Pc) {
    && IsStart(db, c)
    && var row := db.commands[c];
    match pc
    case Claimed => row.state in {PendingDelivery, Materialized} && row.attempts == 0 && wire[StartSent(c)] == 0
    case Begun =>
      row.state !in {Persisted, PendingDelivery} && wire[StartSent(c)] == 0
      && (row.attempts == 1 || row.state == Materialized)
    case Ready => false
    case Sent => row.state !in {Persisted, PendingDelivery}
  }

  predicate On(s: State, i: Id, c: Id) {
    i in s.threads && s.threads[i].StartThread? && s.threads[i].command == c
  }

  /** At most one send, covered by the row, and at most one dispatcher, where the row says it may be. */
  ghost predicate Guarded(s: State, c: Id) {
    && DeliveryRow(s.db, s.wire, c)
    && (forall i :: On(s, i, c) ==> ThreadRow(s.db, s.wire, c, s.threads[i].pc))
    && (forall i, j :: On(s, i, c) && On(s, j, c) ==> i == j)
  }

  /** How far somebody else may move the row of `c` under its dispatcher. */
  ghost predicate RowAdvances(a: Db, b: Db, c: Id) {
    if IsStart(a, c) then
      && IsStart(b, c) && b.commands[c].attempts == a.commands[c].attempts
      && (|| b.commands[c].state == a.commands[c].state || b.commands[c].state == Materialized
          || (a.commands[c].state == DeliveryAttempted && b.commands[c].state == Ambiguous))
    else
      IsStart(b, c) ==> b.commands[c].attempts == 0 && b.commands[c].state == Persisted
  }

  /** A step that is not about `c`: its sends stay, its row advances, its dispatchers stay or go. */
  ghost predicate Frame(s: State, s': State, c: Id) {
    && RowAdvances(s.db, s'.db, c) && s'.wire[StartSent(c)] == s.wire[StartSent(c)]
    && (forall i :: On(s', i, c) ==> On(s, i, c) && s'.threads[i] == s.threads[i])
  }

  lemma FrameKeeps(s: State, s': State, c: Id)
    requires Guarded(s, c) && Frame(s, s', c)
    ensures Guarded(s', c)
  {
    forall i | On(s', i, c) ensures ThreadRow(s'.db, s'.wire, c, s'.threads[i].pc) {
      assert ThreadRow(s.db, s.wire, c, s.threads[i].pc);
    }
  }

  /** The step is a claim of `c` or a move of its dispatcher. */
  predicate About(s: State, step: Step, c: Id) {
    (step.StartClaim? && step.command == c)
    || ((step.StartBegin? || step.StartSend? || step.StartMark?) && On(s, step.thread, c))
  }

  lemma StartStepFrame(s: State, step: Step, c: Id)
    requires Bound(s) && IsStartStep(step) && !About(s, step, c)
    ensures Frame(s, Work(s, step), c)
  {
    StartStepMoves(s, step);
    var s' := Work(s, step);
    if s' != s {
      assert s'.wire[StartSent(c)] == s.wire[StartSent(c)];
    }
  }

  lemma StopStepFrame(s: State, step: Step, c: Id)
    requires IsStopStep(step)
    ensures Frame(s, Work(s, step), c)
  {
    StopStepMoves(s, step);
    var s' := Work(s, step);
    assert s'.wire[StartSent(c)] == s.wire[StartSent(c)];
  }

  lemma ClaimKeeps(s: State, i: Id, c: Id)
    requires Guarded(s, c)
    ensures Guarded(Work(s, StartClaim(i, c)), c)
  {
    var s' := Work(s, StartClaim(i, c));
    if s' != s {
      Unattended(s, c);
    }
  }

  /** Nobody stands at a row that is claimable, or claimed but not exposed. */
  lemma Unattended(s: State, c: Id)
    requires Guarded(s, c) && IsStart(s.db, c) && s.db.commands[c].state in {Persisted, PendingDelivery} && !Exposed(s, c)
    ensures forall i :: !On(s, i, c)
  {
    forall i ensures !On(s, i, c) {}
  }

  /** The dispatcher `i` of `c` moved, alone or with its row and its sends. */
  lemma OwnMoved(s: State, s': State, i: Id, c: Id)
    requires Guarded(s, c) && On(s, i, c) && (forall j :: On(s', j, c) ==> On(s, j, c))
    requires DeliveryRow(s'.db, s'.wire, c) && (On(s', i, c) ==> ThreadRow(s'.db, s'.wire, c, s'.threads[i].pc))
    ensures Guarded(s', c)
  {
    forall j | On(s', j, c) ensures j == i {
      assert On(s, j, c);
    }
  }

  lemma BeginKeeps(s: State, i: Id, c: Id)
    requires Guarded(s, c) && On(s, i, c)
    ensures Guarded(Work(s, StartBegin(i)), c)
  {
    assert ThreadRow(s.db, s.wire, c, s.threads[i].pc);
    OwnMoved(s, Work(s, StartBegin(i)), i, c);
  }

  lemma SendKeeps(s: State, i: Id, c: Id)
    requires Guarded(s, c) && On(s, i, c)
    ensures Guarded(Work(s, StartSend(i)), c)
  {
    assert ThreadRow(s.db, s.wire, c, s.threads[i].pc);
    OwnMoved(s, Work(s, StartSend(i)), i, c);
  }

  lemma MarkKeeps(s: State, i: Id, c: Id, status: Status)
    requires Guarded(s, c) && On(s, i, c)
    ensures Guarded(Work(s, StartMark(i, status)), c)
  {
    assert ThreadRow(s.db, s.wire, c, s.threads[i].pc);
    if StartAt(s, i, Sent) {
      MarkStartMoves(s.db, c, status);
      OwnMoved(s, Work(s, StartMark(i, status)), i, c);
    }
  }

  lemma WorkGuarded(s: State, step: Step, c: Id)
    requires Links(s.db) && Bound(s) && step.Works() && Guarded(s, c)
    ensures Guarded(Work(s, step), c)
  {
    if About(s, step, c) {
      OwnStepGuarded(s, step, c);
    } else {
      WorkFrame(s, step, c);
      FrameKeeps(s, Work(s, step), c);
    }
  }

  lemma OwnStepGuarded(s: State, step: Step, c: Id)
    requires Guarded(s, c) && About(s, step, c)
    ensures Guarded(Work(s, step), c)
  {
    match step
    case StartClaim(i, _) => ClaimKeeps(s, i, c);
    case StartBegin(i) => BeginKeeps(s, i, c);
    case StartSend(i) => SendKeeps(s, i, c);
    case StartMark(i, status) => MarkKeeps(s, i, c, status);
  }

  lemma WorkFrame(s: State, step: Step, c: Id)
    requires Links(s.db) && Bound(s) && step.Works() && !About(s, step, c)
    ensures Frame(s, Work(s, step), c)
  {
    if IsStartStep(step) { StartStepFrame(s, step, c); }
    else if IsStopStep(step) { StopStepFrame(s, step, c); }
    else { RequestAdvances(s, step); }
  }

  // ----- recovery by another process -----

  /** A dispatcher stands between its claim of `c` and the attempt, and the row still shows the claim. */
  ghost predicate Exposed(s: State, c: Id) {
    IsStart(s.db, c) && s.db.commands[c].state == PendingDelivery && exists i :: On(s, i, c) && s.threads[i].pc == Claimed
  }

  lemma RecoveredKeeps(s: State, n: nat, c: Id)
    requires Guarded(s, c) && (n == START_CLAIMS ==> !Exposed(s, c))
    ensures Guarded(s.(db := RecoveredTables(s.db, n)), c)
  {
    var s' := s.(db := RecoveredTables(s.db, n));
    if n == START_CLAIMS && IsStart(s.db, c) && s.db.commands[c].state == PendingDelivery {
      Unattended(s, c);
    } else {
      FrameKeeps(s, s', c);
    }
  }

  /** No recovery by another process takes a claim of `c` from under its dispatcher. */
  ghost predicate Undisturbed(s: State, steps: seq<Step>, c: Id)
    decreases |steps|
  {
    steps == [] || ((steps[0] == OtherRecover(START_CLAIMS) ==> !Exposed(s, c)) && Undisturbed(Apply(s, steps[0]), steps[1..], c))
  }

  lemma {:induction false} OneProcessIsUndisturbed(s: State, steps: seq<Step>, c: Id)
    requires OneProcess(steps)
    ensures Undisturbed(s, steps, c)
    decreases |steps|
  {
    if steps != [] {
      assert steps[0] != OtherRecover(START_CLAIMS);
      OneProcessIsUndisturbed(Apply(s, steps[0]), steps[1..], c);
    }
  }

  lemma StepGuarded(s: State, step: Step, c: Id)
    requires Sound(s) && Guarded(s, c) && (step == OtherRecover(START_CLAIMS) ==> !Exposed(s, c))
    ensures Guarded(Apply(s, step), c)
  {
    if step.Works() {
      if s.recovery >= RECOVERY_STATEMENTS { WorkGuarded(s, step, c); }
    } else if step.OtherRecover? {
      RecoveredKeeps(s, step.statement, c);
    } else if step.Crash? {
      FrameKeeps(s, s.(threads := map[], recovery := 0), c);
    } else {
      OwnRecoveryKeeps(s, c);
    }
  }

  lemma OwnRecoveryKeeps(s: State, c: Id)
    requires Recovering(s) && Guarded(s, c)
    ensures Guarded(Apply(s, Recover), c)
  {
    if s.recovery < RECOVERY_STATEMENTS {
      RecoveredKeeps(s, s.recovery, c);
      FrameKeeps(s.(db := RecoveredTables(s.db, s.recovery)), Apply(s, Recover), c);
    }
  }

  lemma {:induction false} RunGuarded(s: State, steps: seq<Step>, c: Id)
    requires Sound(s) && Guarded(s, c) && Undisturbed(s, steps, c)
    ensures Guarded(Run(s, steps), c)
    decreases |steps|
  {
    if steps != [] {
      StepGuarded(s, steps[0], c);
      StepSound(s, steps[0]);
      RunGuarded(Apply(s, steps[0]), steps[1..], c);
    }
  }
}
