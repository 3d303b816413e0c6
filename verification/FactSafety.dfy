/**
 * The facts of a transaction: gap-free meter and SoC sequences, one completion fact that agrees
 * with the row for ever, the stop-meter identity, the drift bound and the energy-limit guard.
 * Rows and facts are related transaction by transaction; a step either leaves that relation alone,
 * because it publishes command facts only, or moves one transaction together with its facts, and
 * the reservation ledger points at the one completion fact of its aggregate.
 */
module FactSafety {
  import opened Base
  import opened MeterEvidence
  import opened LifecycleTables
  import opened LifecycleSystem

  /** The facts of one transaction, by kind, in insertion order. */
  datatype Ledgered = Ledgered(started: seq<Fact>, meter: seq<Fact>, soc: seq<Fact>, completed: seq<Fact>)

  const NOTHING: Ledgered := Ledgered([], [], [], [])

  ghost function FactsFor(facts: seq<Fact>, t: Id): Ledgered {
    Ledgered(FactsOf(facts, StartedFact, t), FactsOf(facts, MeterFact, t),
             FactsOf(facts, SoCFact, t), FactsOf(facts, CompletedFact, t))
  }

  ghost function With(l: Ledgered, f: Fact, t: Id): Ledgered {
    if f.aggregate != t then l
    else match f.kind
      case StartedFact => l.(started := l.started + [f])
      case MeterFact => l.(meter := l.meter + [f])
      case SoCFact => l.(soc := l.soc + [f])
      case CompletedFact => l.(completed := l.completed + [f])
      case CommandFact => l
  }

  /** Exactly the sequences 1..n, each once, in insertion order. */
  ghost predicate Numbered(facts: seq<Fact>, n: nat) {
    |facts| == n && forall i :: 0 <= i < n ==> facts[i].sequence == Some(i + 1)
  }

  ghost predicate MeterFacts(tx: Transaction, facts: seq<Fact>) {
    && Numbered(facts, tx.meter.sequence)
    && (forall i :: 0 <= i < |facts| ==>
          && facts[i].payload.MeterReading?
          && facts[i].payload.wh >= tx.meterStart
          && facts[i].payload.consumed == facts[i].payload.wh - tx.meterStart
          && tx.meter.latest.Some?
          && facts[i].payload.wh <= tx.meter.latest.value + tx.meter.anomalies)
    && (tx.meter.latest.Some? ==> tx.meter.latest.value >= tx.meterStart)
    && (!tx.Done() ==>
          tx.meter.latest == if facts == [] then None else Some(facts[|facts| - 1].payload.wh))
  }

  ghost predicate SoCFacts(soc: SoC, facts: seq<Fact>) {
    && Numbered(facts, soc.sequence)
    && (forall i :: 0 <= i < |facts| ==> facts[i].payload.SoCReading?)
    && soc.initial == (if facts == [] then None else Some(facts[0].payload.percent))
    && soc.latest == (if facts == [] then None else Some(facts[|facts| - 1].payload.percent))
    && soc.observedAt == (if facts == [] then None else Some(facts[|facts| - 1].payload.at))
  }

  /** The completion columns: effective = raw + adjustment, and the meter ends on the effective value. */
  ghost predicate StopMeter(tx: Transaction) {
    && tx.stop.rawMeterStop.Some? && tx.stop.meterStop.Some? && tx.stop.adjustment.Some? && tx.stop.evidence.Some?
    && tx.stop.meterStop.value == tx.stop.rawMeterStop.value + tx.stop.adjustment.value
    && 0 <= tx.stop.adjustment.value <= 1
    && (tx.stop.evidence.value == QuantizationNormalized <==> tx.stop.adjustment.value == 1)
    && tx.stop.meterStop.value >= tx.meterStart
    && tx.meter.latest == tx.stop.meterStop
  }

  ghost predicate CompletionFacts(tx: Transaction, facts: seq<Fact>) {
    if tx.Done() then
      && StopMeter(tx)
      && |facts| == 1 && facts[0].payload == Completion(tx.meterStart, tx.stop, tx.cause)
    else facts == []
  }

  ghost predicate RowFacts(tx: Transaction, l: Ledgered, reserved: bool, stopping: bool) {
    && |l.started| == 1
    && MeterFacts(tx, l.meter)
    && SoCFacts(tx.soc, l.soc)
    && CompletionFacts(tx, l.completed)
    && (reserved <==> tx.Done())
    && (!tx.Done() && LimitReached(tx) ==> stopping)
  }

  ghost predicate TransactionFacts(db: Db, t: Id)
    requires t in db.transactions
  {
    RowFacts(db.transactions[t], FactsFor(db.facts, t), t in db.completionKeys, t in db.workflows)
  }

  ghost predicate NoFacts(db: Db, t: Id) {
    FactsFor(db.facts, t) == NOTHING && t !in db.completionKeys
  }

  /** The reservation ledger points at a completion fact of its aggregate. */
  ghost predicate Reservations(db: Db) {
    forall t :: t in db.completionKeys ==>
      && db.completionKeys[t] < |db.facts|
      && db.facts[db.completionKeys[t]].kind == CompletedFact && db.facts[db.completionKeys[t]].aggregate == t
  }

  ghost predicate Inv(db: Db) {
    && (forall t :: t in db.transactions ==> TransactionFacts(db, t))
    && (forall t :: t !in db.transactions ==> NoFacts(db, t))
    && Reservations(db)
  }

  // ----- the outbox as a list -----

  lemma FactsOfAppend(facts: seq<Fact>, f: Fact, kind: FactKind, t: Id)
    ensures FactsOf(facts + [f], kind, t) ==
            FactsOf(facts, kind, t) + (if f.kind == kind && f.aggregate == t then [f] else [])
  {
    assert (facts + [f])[..|facts|] == facts;
  }

  lemma FactsForAppend(facts: seq<Fact>, f: Fact, t: Id)
    ensures FactsFor(facts + [f], t) == With(FactsFor(facts, t), f, t)
  {
    FactsOfAppend(facts, f, StartedFact, t);
    FactsOfAppend(facts, f, MeterFact, t);
    FactsOfAppend(facts, f, SoCFact, t);
    FactsOfAppend(facts, f, CompletedFact, t);
  }

  lemma {:induction false} Listed(facts: seq<Fact>, i: nat, kind: FactKind, t: Id)
    requires i < |facts| && facts[i].kind == kind && facts[i].aggregate == t
    ensures facts[i] in FactsOf(facts, kind, t)
  {
    if i < |facts| - 1 { Listed(facts[..|facts| - 1], i, kind, t); }
  }

  /** The next number of a gap-free sequence is never refused by the outbox's unique key. */
  lemma NextNumberInserted(db: Db, f: Fact, n: nat)
    requires f.kind in {MeterFact, SoCFact} && f.sequence == Some(n + 1)
    requires Numbered(FactsOf(db.facts, f.kind, f.aggregate), n)
    ensures InsertFact(db, f) == db.(facts := db.facts + [f])
  {
    forall i | 0 <= i < |db.facts| ensures !SameKey(db.facts[i], f) {
      if SameKey(db.facts[i], f) { Listed(db.facts, i, f.kind, f.aggregate); }
    }
  }

  // ----- frames -----

  /** The facts of aggregate `t`, apart from command facts, are the same in both. */
  ghost predicate SameFacts(db: Db, db': Db, t: Id) {
    FactsFor(db'.facts, t) == FactsFor(db.facts, t) && (t in db'.completionKeys <==> t in db.completionKeys)
  }

  lemma InsertOther(db: Db, f: Fact, t: Id)
    requires f.kind == CommandFact || f.aggregate != t
    ensures SameFacts(db, InsertFact(db, f), t)
  {
    FactsForAppend(db.facts, f, t);
  }

  lemma ReservationsGrow(db: Db, f: Fact)
    requires Reservations(db)
    ensures Reservations(InsertFact(db, f))
  {}

  predicate SameUpToCause(tx: Transaction, tx': Transaction) {
    tx' == tx || (!tx.Done() && tx' == tx.(stopState := tx'.stopState, cause := tx'.cause))
  }

  lemma RowKept(tx: Transaction, tx': Transaction, l: Ledgered, reserved: bool, stopping: bool, stopping': bool)
    requires RowFacts(tx, l, reserved, stopping) && SameUpToCause(tx, tx') && (stopping ==> stopping')
    ensures RowFacts(tx', l, reserved, stopping')
  {}

  /** Steps that add command facts only and leave meters and completions alone. */
  lemma QuietKeeps(db: Db, db': Db)
    requires Inv(db) && Reservations(db') && db'.transactions.Keys == db.transactions.Keys
    requires forall t :: SameFacts(db, db', t)
    requires db.workflows.Keys <= db'.workflows.Keys
    requires forall t :: t in db.transactions ==> SameUpToCause(db.transactions[t], db'.transactions[t])
    ensures Inv(db')
  {
    forall t | t in db'.transactions ensures TransactionFacts(db', t) {
      assert TransactionFacts(db, t) && SameFacts(db, db', t);
      RowKept(db.transactions[t], db'.transactions[t], FactsFor(db.facts, t), t in db.completionKeys,
              t in db.workflows, t in db'.workflows);
    }
    forall t | t !in db'.transactions ensures NoFacts(db', t) { assert NoFacts(db, t) && SameFacts(db, db', t); }
  }

  /** No fact is written and no meter or completion column moves. */
  ghost predicate Silent(db: Db, db': Db) {
    && db'.facts == db.facts && db'.completionKeys == db.completionKeys
    && db'.transactions.Keys == db.transactions.Keys && db.workflows.Keys <= db'.workflows.Keys
    && (forall t :: t in db.transactions ==> SameUpToCause(db.transactions[t], db'.transactions[t]))
  }

  lemma SilentKeeps(db: Db, db': Db)
    requires Inv(db) && Silent(db, db')
    ensures Inv(db')
  {
    forall t ensures SameFacts(db, db', t) {}
    QuietKeeps(db, db');
  }

  lemma EnsureSilent(db: Db, t: Id, cause: StopCause)
    ensures Silent(db, EnsureWorkflow(db, t, cause).0)
  {}

  lemma StartStatementsSilent(db: Db, id: Id)
    ensures Silent(db, ClaimStart(db, id).0) && Silent(db, BeginStart(db, id))
  {}

  lemma StopStatementsSilent(db: Db, id: Id)
    ensures Silent(db, ClaimStop(db, id).0) && Silent(db, BeginStop(db, id))
  {}

  lemma MarkedRowsSilent(db: Db, t: Id, state: Delivery)
    requires OpenWorkflow(db, t)
    ensures Silent(db, MarkedRows(db, t, state))
  {}

  lemma CommandUpdatedKeeps(db: Db, c: Id)
    requires Inv(db) && c in db.commands
    ensures Inv(CommandUpdated(db, c))
  {
    CommandFactKeeps(db, Fact(CommandFact, c, None, CommandStatus(db.commands[c].state, db.commands[c].attempts)));
  }

  lemma CommandFactKeeps(db: Db, f: Fact)
    requires Inv(db) && f.kind == CommandFact && f.sequence.None?
    ensures Inv(InsertFact(db, f))
  {
    var db' := InsertFact(db, f);
    ReservationsGrow(db, f);
    QuietKeeps(db, db');
  }

  lemma {:induction false} CommandFactsKeep(db: Db, order: seq<Id>)
    requires Inv(db) && forall c :: c in order ==> c in db.commands
    ensures Inv(CommandFacts(db, order))
  {
    if order != [] {
      CommandFactsKeep(db, order[..|order| - 1]);
      CommandUpdatedKeeps(CommandFacts(db, order[..|order| - 1]), order[|order| - 1]);
    }
  }

  /** One transaction's row and facts moved; everybody else's stayed. */
  lemma OneMoved(db: Db, db': Db, t: Id)
    requires Inv(db) && Reservations(db') && t in db'.transactions && TransactionFacts(db', t)
    requires db'.transactions == db.transactions[t := db'.transactions[t]]
    requires forall u :: u != t ==> SameFacts(db, db', u)
    requires db.workflows.Keys <= db'.workflows.Keys
    ensures Inv(db')
  {
    forall u | u in db'.transactions && u != t ensures TransactionFacts(db', u) {
      assert TransactionFacts(db, u) && SameFacts(db, db', u);
      RowKept(db.transactions[u], db'.transactions[u], FactsFor(db.facts, u), u in db.completionKeys,
              u in db.workflows, u in db'.workflows);
    }
    forall u | u !in db'.transactions ensures NoFacts(db', u) { assert NoFacts(db, u) && SameFacts(db, db', u); }
  }

  // ----- steps -----

  lemma CreateStartSilent(db: Db, i: StartInput)
    ensures Silent(db, CreateStart(db, i).0)
  {}

  lemma CreateStartKeeps(db: Db, i: StartInput)
    requires Inv(db)
    ensures Inv(CreateStart(db, i).0)
  {
    CreateStartSilent(db, i);
    SilentKeeps(db, CreateStart(db, i).0);
  }

  lemma EnsureKeeps(db: Db, t: Id, cause: StopCause)
    requires Inv(db)
    ensures Inv(EnsureWorkflow(db, t, cause).0)
  {
    EnsureSilent(db, t, cause);
    SilentKeeps(db, EnsureWorkflow(db, t, cause).0);
  }

  /** A new stop command is a silent change of the rows followed by one command fact. */
  lemma CreateStopSplits(db: Db, i: StopInput) returns (db2: Db)
    ensures var db' := CreateStop(db, i).0;
            && Silent(db, db2)
            && (db' == db2 || (i.command in db2.commands && db' == CommandUpdated(db2, i.command)))
  {
    EnsureSilent(db, i.transaction, i.cause);
    var db1 := EnsureWorkflow(db, i.transaction, i.cause).0;
    var db' := CreateStop(db, i).0;
    db2 := if db' == db then db else db1.(commands := db'.commands);
  }

  lemma CreateStopKeeps(db: Db, i: StopInput)
    requires Inv(db)
    ensures Inv(CreateStop(db, i).0)
  {
    var db2 := CreateStopSplits(db, i);
    SilentKeeps(db, db2);
    if i.command in db2.commands { CommandUpdatedKeeps(db2, i.command); }
  }

  lemma NewRowFacts(cred: Credential, c: Id, limits: Limits, i: StartEvidence, f: Fact, t: Id)
    requires f.kind == StartedFact && f.aggregate == t
    ensures RowFacts(NewTransaction(cred, c, limits, i), With(NOTHING, f, t), false, false)
  {}

  lemma NewTransactionKeeps(db: Db, rows: Db, f: Fact, t: Id)
    requires Inv(db) && t !in db.transactions && f.kind == StartedFact && f.aggregate == t && f.sequence == None
    requires rows.facts == db.facts && rows.completionKeys == db.completionKeys && rows.workflows == db.workflows
    requires t in rows.transactions && rows.transactions == db.transactions[t := rows.transactions[t]]
    requires RowFacts(rows.transactions[t], With(NOTHING, f, t), false, false)
    ensures Inv(InsertFact(rows, f))
  {
    var db' := InsertFact(rows, f);
    assert db'.facts == db.facts + [f] && NoFacts(db, t);
    FactsForAppend(db.facts, f, t);
    forall u | u != t ensures SameFacts(db, db', u) { InsertOther(rows, f, u); }
    ReservationsGrow(rows, f);
    RowKept(rows.transactions[t], rows.transactions[t], FactsFor(db'.facts, t), false, false, t in db'.workflows);
    OneMoved(db, db', t);
  }

  lemma MaterializedRowsKeep(db: Db, c: Id, i: StartEvidence, halId: Id)
    requires Inv(db) && halId !in db.transactions
    requires c in db.commands && db.commands[c].kind.Start? && i.idTag in db.credentials
    ensures Inv(MaterializedRows(db, c, i, halId))
  {
    var f := Fact(StartedFact, halId, None, Started(c, i.meterStart));
    var db' := MaterializedRows(db, c, i, halId);
    var rows := db.(transactions := db'.transactions, credentials := db'.credentials, commands := db'.commands);
    assert db' == InsertFact(InsertFact(rows, f), MaterializedFact(c));
    NewRowFacts(db.credentials[i.idTag], c, db.commands[c].kind.limits, i, f, halId);
    NewTransactionKeeps(db, rows, f, halId);
    CommandFactKeeps(InsertFact(rows, f), MaterializedFact(c));
  }

  lemma MaterializeKeeps(db: Db, i: StartEvidence, halId: Id)
    requires Inv(db) && halId !in db.transactions
    ensures Inv(Materialize(db, i, halId).0)
  {
    if Materialize(db, i, halId).0 != db {
      MaterializedRowsKeep(db, StartCommandFor(db, i.idTag).value, i, halId);
    }
  }

  /** Accepting stop evidence never lowers the meter and yields the stop-meter identity. */
  lemma CompletedRowMeter(tx: Transaction, e: StopEvidence)
    requires !tx.Done() && StopAdmissible(tx, e)
    requires tx.meter.latest.Some? ==> tx.meter.latest.value >= tx.meterStart
    ensures var done := CompletedRow(tx, e);
            && done.Done() && StopMeter(done)
            && done.meter.sequence == tx.meter.sequence && done.meter.anomalies == tx.meter.anomalies
            && done.stop.rawMeterStop == Some(e.meterStop)
            && done.stop.meterStop.value == (if tx.meter.latest.Some? && tx.meter.latest.value > e.meterStop
                                             then tx.meter.latest.value else e.meterStop)
  {}

  lemma CompletedRowFacts(tx: Transaction, e: StopEvidence, t: Id, l: Ledgered, stopping: bool)
    requires !tx.Done() && StopAdmissible(tx, e) && RowFacts(tx, l, false, stopping)
    ensures var done := CompletedRow(tx, e);
            RowFacts(done, With(l, CompletedFactOf(t, done), t), true, stopping)
  {
    CompletedRowMeter(tx, e);
  }

  lemma CompleteKeeps(db: Db, t: Id, e: StopEvidence)
    requires Inv(db)
    ensures Inv(Complete(db, t, e).0)
  {
    if t in db.transactions && !db.transactions[t].Done() && StopAdmissible(db.transactions[t], e) {
      var f := CompletedFactOf(t, CompletedRow(db.transactions[t], e));
      assert TransactionFacts(db, t);
      CompletedRowFacts(db.transactions[t], e, t, FactsFor(db.facts, t), t in db.workflows);
      FactsForAppend(db.facts, f, t);
      CompletedRowsShape(db, t, e);
      ClosedKeeps(db, CompletedRows(db, t, e), t, f);
      assert Complete(db, t, e).0 == InsertFact(CompletedRows(db, t, e), f);
    } else {
      assert Complete(db, t, e).0 == db;
    }
  }

  lemma CompletedRowsShape(db: Db, t: Id, e: StopEvidence)
    requires t in db.transactions && StopAdmissible(db.transactions[t], e)
    ensures var rows := CompletedRows(db, t, e);
            && rows.facts == db.facts && rows.completionKeys == db.completionKeys && t in rows.transactions
            && rows.transactions == db.transactions[t := rows.transactions[t]]
            && rows.transactions[t] == CompletedRow(db.transactions[t], e) && rows.workflows.Keys == db.workflows.Keys
  {}

  lemma ClosedKeeps(db: Db, rows: Db, t: Id, f: Fact)
    requires Inv(db) && t in db.transactions && t !in db.completionKeys && f.kind == CompletedFact && f.aggregate == t
    requires rows.facts == db.facts && rows.completionKeys == db.completionKeys && t in rows.transactions
    requires rows.transactions == db.transactions[t := rows.transactions[t]] && rows.workflows.Keys == db.workflows.Keys
    requires RowFacts(rows.transactions[t], FactsFor(db.facts + [f], t), true, t in db.workflows)
    ensures Inv(InsertFact(rows, f))
  {
    var db' := InsertFact(rows, f);
    forall u | u != t ensures SameFacts(db, db', u) { InsertOther(rows, f, u); }
    ReservationsGrow(rows, f);
    OneMoved(db, db', t);
  }

  // ----- telemetry -----

  lemma EnergyRowFacts(tx: Transaction, m: Telemetry, t: Id, facts: seq<Fact>)
    requires EnergyAccepted(tx, m) && MeterFacts(tx, facts)
    ensures var current := UpdatedRow(tx, m);
            current.meter.latest.Some? && current.meter.observedAt.Some?
            && MeterFacts(current, facts + [MeterFactOf(t, current)])
  {}

  lemma SoCRowFacts(tx: Transaction, m: Telemetry, t: Id, facts: seq<Fact>)
    requires SoCAccepted(tx, m) && SoCFacts(tx.soc, facts)
    ensures var current := UpdatedRow(tx, m);
            current.soc.latest.Some? && current.soc.observedAt.Some?
            && SoCFacts(current.soc, facts + [SoCFactOf(t, current)])
  {}

  /** The row of `t` after telemetry, before the outbox: the workflow is there once the limit is. */
  lemma TelemetryRowsHold(db: Db, t: Id, m: Telemetry)
    requires t in db.transactions && (!db.transactions[t].Done() && LimitReached(db.transactions[t]) ==> t in db.workflows)
    ensures var rows := TelemetryRows(db, t, m);
            var current := UpdatedRow(db.transactions[t], m);
            && t in rows.transactions
            && rows.transactions == db.transactions[t := rows.transactions[t]]
            && SameUpToCause(current, rows.transactions[t])
            && db.workflows.Keys <= rows.workflows.Keys
            && (!current.Done() && LimitReached(current) ==> t in rows.workflows)
            && rows.facts == db.facts && rows.completionKeys == db.completionKeys
  {
    var current := UpdatedRow(db.transactions[t], m);
    var db1 := db.(transactions := db.transactions[t := current]);
    EnsureAdds(db1, t, EnergyStopCause(current.limits));
  }

  lemma EnsureAdds(db: Db, t: Id, cause: StopCause)
    requires t in db.transactions
    ensures var r := EnsureWorkflow(db, t, cause).0;
            && t in r.transactions && r.transactions == db.transactions[t := r.transactions[t]]
            && SameUpToCause(db.transactions[t], r.transactions[t])
            && db.workflows.Keys <= r.workflows.Keys && (!db.transactions[t].Done() ==> t in r.workflows)
            && r.facts == db.facts && r.completionKeys == db.completionKeys
  {}

  ghost function AfterTelemetry(l: Ledgered, t: Id, tx: Transaction, m: Telemetry): Ledgered {
    var current := UpdatedRow(tx, m);
    var l1 := if EnergyAccepted(tx, m) then With(l, MeterFactOf(t, current), t) else l;
    if SoCAccepted(tx, m) then With(l1, SoCFactOf(t, current), t) else l1
  }

  lemma UpdatedRowFacts(tx: Transaction, m: Telemetry, t: Id, l: Ledgered, reserved: bool, stopping: bool)
    requires RowFacts(tx, l, reserved, stopping)
    ensures var current := UpdatedRow(tx, m);
            RowFacts(current, AfterTelemetry(l, t, tx, m), reserved, !current.Done() && LimitReached(current))
  {
    if EnergyAccepted(tx, m) { EnergyRowFacts(tx, m, t, l.meter); }
    if SoCAccepted(tx, m) { SoCRowFacts(tx, m, t, l.soc); }
  }

  /** An accepted reading appends one fact of its kind; nobody else's facts move. */
  lemma ReadingAppended(db: Db, f: Fact, n: nat)
    requires Reservations(db) && f.kind in {MeterFact, SoCFact} && f.sequence == Some(n + 1)
    requires Numbered(FactsOf(db.facts, f.kind, f.aggregate), n)
    ensures var db' := InsertFact(db, f);
            && Reservations(db') && db'.completionKeys == db.completionKeys
            && FactsFor(db'.facts, f.aggregate) == With(FactsFor(db.facts, f.aggregate), f, f.aggregate)
            && forall u :: u != f.aggregate ==> SameFacts(db, db', u)
  {
    NextNumberInserted(db, f, n);
    FactsForAppend(db.facts, f, f.aggregate);
    forall u | u != f.aggregate ensures SameFacts(db, InsertFact(db, f), u) { InsertOther(db, f, u); }
  }

  lemma TelemetryFactsAppended(db: Db, t: Id, tx: Transaction, m: Telemetry)
    requires Reservations(db)
    requires Numbered(FactsFor(db.facts, t).meter, tx.meter.sequence)
    requires Numbered(FactsFor(db.facts, t).soc, tx.soc.sequence)
    ensures var db' := TelemetryFacts(db, t, UpdatedRow(tx, m), EnergyAccepted(tx, m), SoCAccepted(tx, m));
            && Reservations(db') && db'.completionKeys == db.completionKeys
            && FactsFor(db'.facts, t) == AfterTelemetry(FactsFor(db.facts, t), t, tx, m)
            && forall u :: u != t ==> SameFacts(db, db', u)
  {
    var current := UpdatedRow(tx, m);
    var db1 := db;
    if EnergyAccepted(tx, m) {
      ReadingAppended(db, MeterFactOf(t, current), tx.meter.sequence);
      db1 := InsertFact(db, MeterFactOf(t, current));
    }
    assert FactsFor(db1.facts, t).soc == FactsFor(db.facts, t).soc;
    if SoCAccepted(tx, m) {
      ReadingAppended(db1, SoCFactOf(t, current), tx.soc.sequence);
      forall u | u != t ensures SameFacts(db, InsertFact(db1, SoCFactOf(t, current)), u) {
        assert SameFacts(db, db1, u);
      }
    }
  }

  /** Telemetry moved the row of `t` and appended its facts; nothing else changed. */
  ghost predicate MovedByTelemetry(db: Db, rows: Db, db': Db, t: Id, m: Telemetry)
    requires t in db.transactions
  {
    var tx := db.transactions[t];
    var current := UpdatedRow(tx, m);
    && SameTables(rows, db')
    && t in rows.transactions && SameUpToCause(current, rows.transactions[t])
    && rows.transactions == db.transactions[t := rows.transactions[t]]
    && db.workflows.Keys <= rows.workflows.Keys
    && (!current.Done() && LimitReached(current) ==> t in rows.workflows)
    && Reservations(db') && db'.completionKeys == db.completionKeys
    && FactsFor(db'.facts, t) == AfterTelemetry(FactsFor(db.facts, t), t, tx, m)
    && forall u :: u != t ==> SameFacts(db, db', u)
  }

  lemma TelemetryMoves(db: Db, t: Id, m: Telemetry)
    requires t in db.transactions && (m.energyWh.Some? || m.soc.Some?) && Reservations(db)
    requires !db.transactions[t].Done() && LimitReached(db.transactions[t]) ==> t in db.workflows
    requires Numbered(FactsFor(db.facts, t).meter, db.transactions[t].meter.sequence)
    requires Numbered(FactsFor(db.facts, t).soc, db.transactions[t].soc.sequence)
    ensures MovedByTelemetry(db, TelemetryRows(db, t, m), UpdateTelemetry(db, t, m).0, t, m)
  {
    var rows := TelemetryRows(db, t, m);
    var db' := UpdateTelemetry(db, t, m).0;
    TelemetryRowsHold(db, t, m);
    TelemetryFactsAppended(rows, t, db.transactions[t], m);
    forall u | u != t ensures SameFacts(db, db', u) { assert SameFacts(rows, db', u); }
  }

  lemma TelemetryRowKept(db: Db, rows: Db, db': Db, t: Id, m: Telemetry)
    requires Inv(db) && t in db.transactions && MovedByTelemetry(db, rows, db', t, m)
    ensures Inv(db')
  {
    var tx := db.transactions[t];
    var current := UpdatedRow(tx, m);
    assert TransactionFacts(db, t);
    UpdatedRowFacts(tx, m, t, FactsFor(db.facts, t), t in db.completionKeys, t in db.workflows);
    RowKept(current, rows.transactions[t], FactsFor(db'.facts, t), t in db.completionKeys,
            !current.Done() && LimitReached(current), t in rows.workflows);
    OneMoved(db, db', t);
  }

  lemma TelemetryKeeps(db: Db, t: Id, m: Telemetry)
    requires Inv(db)
    ensures Inv(UpdateTelemetry(db, t, m).0)
  {
    if t in db.transactions && (m.energyWh.Some? || m.soc.Some?) {
      assert TransactionFacts(db, t);
      TelemetryMoves(db, t, m);
      TelemetryRowKept(db, TelemetryRows(db, t, m), UpdateTelemetry(db, t, m).0, t, m);
    } else {
      assert UpdateTelemetry(db, t, m).0 == db;
    }
  }

  // ----- whole runs -----

  lemma MarkStartKeeps(db: Db, c: Id, status: Status)
    requires Inv(db)
    ensures Inv(MarkStart(db, c, status))
  {
    var db' := MarkStart(db, c, status);
    if db' != db {
      SilentKeeps(db, db.(commands := db'.commands));
      CommandUpdatedKeeps(db.(commands := db'.commands), c);
    }
  }

  lemma MarkStopKeeps(db: Db, t: Id, status: Status, order: seq<Id>)
    requires Inv(db) && Enumerates(order, LiveStops(db, t))
    ensures Inv(MarkStop(db, t, status, order))
  {
    if OpenWorkflow(db, t) && db.workflows[t].state !in {Completed, Superseded} {
      assert forall c :: c in order ==> c in LiveStops(db, t);
      MarkedRowsSilent(db, t, DeliveryOf(status));
      SilentKeeps(db, MarkedRows(db, t, DeliveryOf(status)));
      CommandFactsKeep(MarkedRows(db, t, DeliveryOf(status)), order);
    }
  }

  lemma RecoveryKeeps(db: Db, n: nat)
    requires Inv(db)
    ensures Inv(RecoveredTables(db, n))
  {
    RecoverySilent(db, n);
    SilentKeeps(db, RecoveredTables(db, n));
  }

  lemma RecoverySilent(db: Db, n: nat)
    ensures Silent(db, RecoveredTables(db, n))
  {}

  lemma RequestKeeps(s: State, step: Step)
    requires Inv(s.db)
    requires step.RequestStart? || step.RequestStop? || step.EnsureStop?
             || step.ChargerStarted? || step.ChargerStopped? || step.ChargerMetered?
    ensures Inv(Work(s, step).db)
  {
    var after := Work(s, step).db;
    match step
    case RequestStart(i) => CreateStartKeeps(s.db, i); assert after == CreateStart(s.db, i).0;
    case RequestStop(i) => CreateStopKeeps(s.db, i); assert after == CreateStop(s.db, i).0;
    case EnsureStop(t, cause) => EnsureKeeps(s.db, t, cause); assert after == EnsureWorkflow(s.db, t, cause).0;
    case ChargerStarted(i, halId) =>
      if halId in s.db.transactions {
        Unmoved(s.db, after);
      } else {
        MaterializeKeeps(s.db, i, halId);
        assert after == Materialize(s.db, i, halId).0;
      }
    case ChargerStopped(t, e) => CompleteKeeps(s.db, t, e); assert after == Complete(s.db, t, e).0;
    case ChargerMetered(t, m) => TelemetryKeeps(s.db, t, m); assert after == UpdateTelemetry(s.db, t, m).0;
  }

  lemma StartMarkStep(s: State, i: Id, status: Status)
    ensures Work(s, StartMark(i, status)).db ==
            if StartAt(s, i, Sent) then MarkStart(s.db, s.threads[i].command, status) else s.db
  {}

  lemma StartMarkKeeps(s: State, i: Id, status: Status)
    requires Inv(s.db)
    ensures Inv(Work(s, StartMark(i, status)).db)
  {
    StartMarkStep(s, i, status);
    if StartAt(s, i, Sent) {
      MarkStartKeeps(s.db, s.threads[i].command, status);
      Unmoved(MarkStart(s.db, s.threads[i].command, status), Work(s, StartMark(i, status)).db);
    } else {
      Unmoved(s.db, Work(s, StartMark(i, status)).db);
    }
  }

  lemma StopMarkStep(s: State, i: Id, status: Status, order: seq<Id>)
    ensures Work(s, StopMark(i, status, order)).db ==
            if StopAt(s, i, Sent) && Enumerates(order, LiveStops(s.db, s.threads[i].transaction))
            then MarkStop(s.db, s.threads[i].transaction, status, order) else s.db
  {}

  lemma StopMarkKeeps(s: State, i: Id, status: Status, order: seq<Id>)
    requires Inv(s.db)
    ensures Inv(Work(s, StopMark(i, status, order)).db)
  {
    StopMarkStep(s, i, status, order);
    if StopAt(s, i, Sent) && Enumerates(order, LiveStops(s.db, s.threads[i].transaction)) {
      MarkStopKeeps(s.db, s.threads[i].transaction, status, order);
      Unmoved(MarkStop(s.db, s.threads[i].transaction, status, order), Work(s, StopMark(i, status, order)).db);
    } else {
      Unmoved(s.db, Work(s, StopMark(i, status, order)).db);
    }
  }

  lemma Unmoved(db: Db, db': Db)
    requires Inv(db) && db' == db
    ensures Inv(db')
  {}

  lemma DispatchKeeps(s: State, step: Step)
    requires Inv(s.db)
    requires || step.StartClaim? || step.StartBegin? || step.StartSend? || step.StopClaim? || step.StopBegin?
             || step.StopCheck? || step.StopSend? || step.Abandon?
    ensures Inv(Work(s, step).db)
  {
    DispatchSilent(s, step);
    SilentKeeps(s.db, Work(s, step).db);
  }

  lemma DispatchSilent(s: State, step: Step)
    requires || step.StartClaim? || step.StartBegin? || step.StartSend? || step.StopClaim? || step.StopBegin?
             || step.StopCheck? || step.StopSend? || step.Abandon?
    ensures Silent(s.db, Work(s, step).db)
  {
    if step.StartClaim? { StartStatementsSilent(s.db, step.command); }
    else if step.StopClaim? { StopStatementsSilent(s.db, step.transaction); }
    else if step.StartBegin? { StartBeginSilent(s, step.thread); }
    else if step.StopBegin? { StopBeginSilent(s, step.thread); }
    else { assert Work(s, step).db == s.db; }
  }

  lemma StartBeginSilent(s: State, i: Id)
    ensures Silent(s.db, Work(s, StartBegin(i)).db)
  {
    if StartAt(s, i, Claimed) { StartStatementsSilent(s.db, s.threads[i].command); }
  }

  lemma StopBeginSilent(s: State, i: Id)
    ensures Silent(s.db, Work(s, StopBegin(i)).db)
  {
    if StopAt(s, i, Claimed) { StopStatementsSilent(s.db, s.threads[i].transaction); }
  }

  lemma WorkKeeps(s: State, step: Step)
    requires Inv(s.db) && step.Works()
    ensures Inv(Work(s, step).db)
  {
    if step.StartMark? {
      StartMarkKeeps(s, step.thread, step.status);
    } else if step.StopMark? {
      StopMarkKeeps(s, step.thread, step.status, step.order);
    } else if step.StartClaim? || step.StartBegin? || step.StartSend? || step.StopClaim? || step.StopBegin?
              || step.StopCheck? || step.StopSend? || step.Abandon? {
      DispatchKeeps(s, step);
    } else {
      RequestKeeps(s, step);
    }
  }

  lemma StepKeeps(s: State, step: Step)
    requires Inv(s.db)
    ensures Inv(Apply(s, step).db)
  {
    StepTables(s, step);
    if step.Works() {
      WorkKeeps(s, step);
    } else {
      RecoveryKeeps(s.db, if step.OtherRecover? then step.statement else s.recovery);
    }
  }

  lemma {:induction false} RunKeeps(s: State, steps: seq<Step>)
    requires Inv(s.db)
    ensures Inv(Run(s, steps).db)
    decreases |steps|
  {
    if steps != [] {
      StepKeeps(s, steps[0]);
      RunKeeps(Apply(s, steps[0]), steps[1..]);
    }
  }
}
