/**
 * The store's methods statement by statement (internal/store/v1_postgres.go,
 * internal/store/v1_lifecycle_postgres.go): each changes the tables in place, rolls back on an
 * error, and is proved to commit exactly the step of LifecycleTables that the run theorems are about.
 * A precondition asks only for what the tables of every run satisfy, and a loop over the rows that
 * an UPDATE returns visits them in any order.
 */
module PostgresStore {
  import opened Base
  import opened MeterEvidence
  import opened LifecycleTables
  import LifecycleSystem
  import StartSafety
  import LifecycleTheorems
  import StopProgress
  import opened Sorting

  /** In every run one START command carries an id tag, so a lookup by tag has one answer. */
  lemma TagsAreUnique(steps: seq<LifecycleSystem.Step>)
    ensures StartSafety.OneCommandPerTag(LifecycleSystem.Run(LifecycleSystem.INITIAL, steps).db)
  {
    var s := LifecycleTheorems.Reached(steps);
  }

  predicate Matches(transactions: map<Id, Transaction>, t: Id, charger: Id, ocppId: int) {
    t in transactions && transactions[t].binding.charger == charger && transactions[t].ocppId == ocppId
  }

  function MovedCommand(c: Command, from: Delivery, to: Delivery): Command {
    if c.kind.Start? && c.state == from then c.(state := to) else c
  }

  function MovedWorkflow(w: Workflow, from: Delivery, to: Delivery): Workflow {
    if w.state == from then w.(state := to) else w
  }

  lemma CommandsMoved(db: Db, commands: map<Id, Command>, from: Delivery, to: Delivery)
    requires commands.Keys == db.commands.Keys
    requires forall c :: c in commands ==> commands[c] == MovedCommand(db.commands[c], from, to)
    ensures db.(commands := commands) == RecoverStart(db, from, to)
  {}

  lemma WorkflowsMoved(db: Db, workflows: map<Id, Workflow>, from: Delivery, to: Delivery)
    requires workflows.Keys == db.workflows.Keys
    requires forall t :: t in workflows ==> workflows[t] == MovedWorkflow(db.workflows[t], from, to)
    ensures db.(workflows := workflows) == RecoverStop(db, from, to)
  {}

  /** Any listing of a set. */
  method Listing(ids: set<Id>) returns (order: seq<Id>)
    ensures Enumerates(order, ids)
  {
    order := [];
    var pending := ids;
    while pending != {}
      invariant pending <= ids && Enumerates(order, ids - pending)
      decreases |pending|
    {
      var c :| c in pending;
      assert ids - (pending - {c}) == (ids - pending) + {c};
      pending := pending - {c};
      order := order + [c];
    }
    assert ids - pending == ids;
  }

  class Store {
    var commands: map<Id, Command>
    var credentials: map<Id, Credential>
    var transactions: map<Id, Transaction>
    var workflows: map<Id, Workflow>
    var facts: seq<Fact>
    var completionKeys: map<Id, nat>

    function Tables(): Db
      reads this
    {
      Db(commands, credentials, transactions, workflows, facts, completionKeys)
    }

    constructor ()
      ensures Tables() == EMPTY
    {
      commands, credentials, transactions, workflows, facts, completionKeys := map[], map[], map[], map[], [], map[];
    }

    method Rollback(saved: Db)
      modifies this
      ensures Tables() == saved
    {
      commands, credentials, transactions := saved.commands, saved.credentials, saved.transactions;
      workflows, facts, completionKeys := saved.workflows, saved.facts, saved.completionKeys;
    }

    // ----- facts -----

    /** A completion goes through its own key table; any other fact relies on the outbox key. */
    method InsertFactTx(f: Fact)
      modifies this`facts, this`completionKeys
      ensures Tables() == InsertFact(old(Tables()), f)
    {
      if f.kind == CompletedFact {
        if f.aggregate in completionKeys {
          return;
        }
        completionKeys := completionKeys[f.aggregate := |facts|];
        facts := facts + [f];
        return;
      }
      var i := 0;
      while i < |facts|
        invariant 0 <= i <= |facts| && forall k :: 0 <= k < i ==> !SameKey(facts[k], f)
      {
        if SameKey(facts[i], f) {
          return;
        }
        i := i + 1;
      }
      facts := facts + [f];
    }

    // ----- start -----

    method CreateStartCommand(i: StartInput) returns (r: Result<bool>)
      modifies this
      ensures (Tables(), r) == CreateStart(old(Tables()), i)
    {
      var saved := Tables();
      if i.command in commands {
        if commands[i.command].digest != i.digest {
          return Err(IdempotencyConflict);
        }
        return Ok(true);
      }
      if IntentTaken(Tables(), i.intent) {
        return Err(IdempotencyConflict);
      }
      commands := commands[i.command :=
        Command(Start(i.intent, i.idTag, i.limits), i.digest, i.binding, Stored(i.commandExpiresAt), Persisted, 0, None)];
      if CredentialTaken(saved, i.intent, i.idTag) {
        Rollback(saved);
        return Err(StorageFailure);
      }
      credentials := credentials[i.idTag := Credential(i.intent, i.binding, Stored(i.credentialExpiresAt), None, None)];
      r := Ok(false);
    }

    /** Replies the row as it is afterwards and whether this caller won it. */
    method ClaimStartDelivery(c: Id) returns (r: Result<(Command, bool)>)
      modifies this`commands
      ensures Tables() == ClaimStart(old(Tables()), c).0
      ensures r == if c in commands then Ok((commands[c], ClaimStart(old(Tables()), c).1)) else Err(NotFound)
    {
      var won := c in commands && commands[c].kind.Start? && commands[c].state == Persisted;
      if won {
        commands := commands[c := commands[c].(state := PendingDelivery)];
      }
      r := if c in commands then Ok((commands[c], won)) else Err(NotFound);
    }

    method BeginCommandDelivery(c: Id) returns (r: Result<Command>)
      modifies this`commands
      ensures Tables() == BeginStart(old(Tables()), c)
      ensures r == if c in commands then Ok(commands[c]) else Err(NotFound)
    {
      if c in commands && commands[c].kind.Start? && commands[c].state == PendingDelivery {
        commands := commands[c := commands[c].(state := DeliveryAttempted, attempts := commands[c].attempts + 1)];
      }
      r := if c in commands then Ok(commands[c]) else Err(NotFound);
    }

    method MarkCommandDelivery(c: Id, status: Status) returns (r: Result<Command>)
      modifies this
      ensures Tables() == MarkStart(old(Tables()), c, status)
      ensures r == if c in commands then Ok(commands[c]) else Err(NotFound)
    {
      var state := DeliveryAttempted;
      if status == Accepted {
        state := OcppAccepted;
      }
      if status == ResultUnavailable {
        state := Ambiguous;
      }
      if status == Rejected {
        state := OcppRejected;
      }
      if c !in commands {
        return Err(NotFound);
      }
      if commands[c].state != Materialized && commands[c].state != Superseded {
        commands := commands[c := commands[c].(state := state)];
        InsertFactTx(Fact(CommandFact, c, None, CommandStatus(commands[c].state, commands[c].attempts)));
      }
      r := Ok(commands[c]);
    }

    /** Inserts the transaction, consumes the credential, binds the command, and adds two facts. */
    method InsertMaterialized(c: Id, i: StartEvidence, halId: Id)
      requires i.idTag in credentials && c in commands && commands[c].kind.Start?
      modifies this
      ensures Tables() == MaterializedRows(old(Tables()), c, i, halId)
    {
      var credential, command := credentials[i.idTag], commands[c];
      transactions := transactions[halId := NewTransaction(credential, c, command.kind.limits, i)];
      credentials := credentials[i.idTag := credential.(consumedAt := Some(Stored(i.observedAt)), transaction := Some(halId))];
      commands := commands[c := command.(state := Materialized, transaction := Some(halId))];
      InsertFactTx(Fact(StartedFact, halId, None, Started(c, i.meterStart)));
      InsertFactTx(MaterializedFact(c));
    }

    method MaterializeStart(i: StartEvidence, halId: Id) returns (r: Result<(Id, bool)>)
      requires StartSafety.OneCommandPerTag(Tables())
      modifies this
      ensures (Tables(), r) == Materialize(old(Tables()), i, halId)
    {
      if i.meterStart < 0 || i.ocppId <= 0 || i.connector <= 0 || !Plausible(i.actualStartedAt, i.observedAt) {
        return Err(InvalidEvidence);
      }
      if i.idTag !in credentials {
        return Err(CredentialRejected);
      }
      var credential := credentials[i.idTag];
      if credential.transaction.Some? {
        var existing := credential.transaction.value;
        if existing !in transactions {
          return Err(NotFound);
        }
        var tx := transactions[existing];
        if tx.binding.charger == i.charger && tx.binding.connector == i.connector && tx.idTag == i.idTag && tx.meterStart == i.meterStart {
          return Ok((existing, true));
        }
        return Err(CredentialRejected);
      }
      if credential.expiresAt <= i.observedAt || credential.binding.charger != i.charger || credential.binding.connector != i.connector {
        return Err(CredentialRejected);
      }
      var selected := SelectStart(i.idTag);
      if selected.None? {
        return Err(StorageFailure);
      }
      var c := selected.value;
      if commands[c].expiresAt <= i.observedAt || TransactionKeyTaken(Tables(), credential.intent, c, i.ocppId) {
        return Err(CredentialRejected);
      }
      InsertMaterialized(c, i, halId);
      r := Ok((halId, false));
    }

    method SelectStart(idTag: Id) returns (selected: Option<Id>)
      requires StartSafety.OneCommandPerTag(Tables())
      ensures selected == StartCommandFor(Tables(), idTag)
    {
      var unseen := commands.Keys;
      while unseen != {}
        invariant unseen <= commands.Keys
        invariant forall c :: c in commands && c !in unseen ==> !(commands[c].kind.Start? && commands[c].kind.idTag == idTag)
        decreases |unseen|
      {
        var c :| c in unseen;
        unseen := unseen - {c};
        if commands[c].kind.Start? && commands[c].kind.idTag == idTag {
          assert StartSafety.IsStart(Tables(), c);
          ghost var chosen := StartCommandFor(Tables(), idTag);
          assert chosen.Some? && StartSafety.IsStart(Tables(), chosen.value);
          return Some(c);
        }
      }
      selected := None;
    }

    // ----- stop -----

    method EnsureStopWorkflow(t: Id, cause: StopCause) returns (r: Result<bool>)
      modifies this`workflows, this`transactions
      ensures (Tables(), r) == EnsureWorkflow(old(Tables()), t, cause)
    {
      if t !in transactions {
        return Err(NotFound);
      }
      if t in workflows {
        return Ok(false);
      }
      if transactions[t].Done() {
        return Err(NotFound);
      }
      workflows := workflows[t := Workflow(cause, Persisted, 0, None)];
      transactions := transactions[t := transactions[t].(stopState := Some(Persisted), cause := Some(cause))];
      r := Ok(true);
    }

    method CreateStopCommand(i: StopInput) returns (r: Result<bool>)
      modifies this
      ensures (Tables(), r) == CreateStop(old(Tables()), i)
    {
      var saved := Tables();
      if i.transaction !in transactions {
        return Err(NotFound);
      }
      var tx := transactions[i.transaction];
      if tx.Done() || tx.ocppId != i.ocppId || tx.binding != i.binding {
        return Err(NotFound);
      }
      var ensured := EnsureStopWorkflow(i.transaction, i.cause);
      if i.command in commands {
        if commands[i.command].digest != i.digest {
          Rollback(saved);
          return Err(IdempotencyConflict);
        }
        return Ok(true);
      }
      var command := Command(Stop(i.transaction, i.cause), i.digest, i.binding, Stored(i.expiresAt), Persisted, 0, Some(i.transaction));
      commands := commands[i.command := command];
      InsertFactTx(Fact(CommandFact, i.command, None, CommandStatus(command.state, command.attempts)));
      r := Ok(false);
    }

    /** Both the locking and the final read report a missing transaction or workflow. */
    method ClaimStopDelivery(t: Id) returns (r: Result<(Workflow, bool)>)
      modifies this`workflows
      ensures Tables() == ClaimStop(old(Tables()), t).0
      ensures r == if t in transactions && t in workflows then Ok((workflows[t], ClaimStop(old(Tables()), t).1)) else Err(NotFound)
    {
      if t !in transactions || t !in workflows {
        return Err(NotFound);
      }
      if transactions[t].Done() || workflows[t].state != Persisted {
        return Ok((workflows[t], false));
      }
      workflows := workflows[t := workflows[t].(state := PendingDelivery)];
      r := Ok((workflows[t], true));
    }

    method BeginStopDelivery(t: Id) returns (r: Result<Workflow>)
      modifies this`workflows
      ensures Tables() == BeginStop(old(Tables()), t)
      ensures r == if t in transactions && t in workflows then Ok(workflows[t]) else Err(NotFound)
    {
      if t !in transactions || t !in workflows {
        return Err(NotFound);
      }
      if !transactions[t].Done() && workflows[t].state == PendingDelivery {
        workflows := workflows[t := workflows[t].(state := DeliveryAttempted, attempts := workflows[t].attempts + 1)];
      }
      r := Ok(workflows[t]);
    }

    /** One fact per command that UPDATE ... RETURNING listed. */
    method AppendCommandFacts(order: seq<Id>)
      requires forall c :: c in order ==> c in commands
      modifies this`facts, this`completionKeys
      ensures Tables() == CommandFacts(old(Tables()), order)
    {
      var k := 0;
      while k < |order|
        invariant 0 <= k <= |order| && commands == old(commands)
        invariant forall c :: c in order[..k] ==> c in old(commands)
        invariant Tables() == CommandFacts(old(Tables()), order[..k])
      {
        assert order[..k + 1][..k] == order[..k];
        var command := commands[order[k]];
        InsertFactTx(Fact(CommandFact, order[k], None, CommandStatus(command.state, command.attempts)));
        k := k + 1;
      }
      assert order[..k] == order;
    }

    /** UPDATE ... RETURNING: moves each live STOP command of `t` and lists it, in whatever order. */
    method MoveLiveCommands(t: Id, state: Delivery) returns (order: seq<Id>)
      modifies this`commands
      ensures commands == WithCommandState(old(commands), t, state)
      ensures Enumerates(order, LiveStops(old(Tables()), t))
    {
      var live := LiveStops(Tables(), t);
      order := Listing(live);
      SetStates(live, state);
      assert commands == WithCommandState(old(commands), t, state);
    }

    method SetStates(ids: set<Id>, state: Delivery)
      requires ids <= commands.Keys
      modifies this`commands
      ensures commands.Keys == old(commands).Keys
      ensures forall c :: c in commands ==> commands[c] == if c in ids then old(commands)[c].(state := state) else old(commands)[c]
    {
      var pending := ids;
      while pending != {}
        invariant pending <= ids && commands.Keys == old(commands).Keys
        invariant forall c :: c in commands ==>
                    commands[c] == if c in ids && c !in pending then old(commands)[c].(state := state) else old(commands)[c]
        decreases |pending|
      {
        var c :| c in pending;
        pending := pending - {c};
        commands := commands[c := commands[c].(state := state)];
      }
    }

    method MarkStopDelivery(t: Id, status: Status) returns (r: Result<Workflow>, order: seq<Id>)
      modifies this
      ensures Enumerates(order, LiveStops(old(Tables()), t))
      ensures Tables() == MarkStop(old(Tables()), t, status, order)
      ensures r == if t in transactions && t in workflows then Ok(workflows[t]) else Err(NotFound)
    {
      var state := DeliveryAttempted;
      match status {
        case Accepted => state := OcppAccepted;
        case Rejected => state := OcppRejected;
        case ResultUnavailable => state := Ambiguous;
        case OtherStatus =>
      }
      if t !in transactions || t !in workflows || transactions[t].Done()
         || workflows[t].state == Completed || workflows[t].state == Superseded {
        order := Listing(LiveStops(Tables(), t));
        return if t in transactions && t in workflows then Ok(workflows[t]) else Err(NotFound), order;
      }
      ghost var before := Tables();
      workflows := workflows[t := workflows[t].(state := state)];
      transactions := transactions[t := transactions[t].(stopState := Some(state))];
      assert LiveStops(Tables(), t) == LiveStops(before, t);
      order := MoveLiveCommands(t, state);
      assert Tables() == MarkedRows(before, t, DeliveryOf(status));
      assert forall c :: c in order ==> c in LiveStops(before, t);
      AppendCommandFacts(order);
      r := Ok(workflows[t]);
    }

    method CompleteTransaction(t: Id, e: StopEvidence) returns (r: Result<Transaction>)
      modifies this
      ensures (Tables(), r) == Complete(old(Tables()), t, e)
    {
      if t !in transactions {
        return Err(NotFound);
      }
      var tx := transactions[t];
      if tx.Done() {
        var expected := tx.stop.meterStop;
        if tx.stop.rawMeterStop.Some? {
          expected := tx.stop.rawMeterStop;
        }
        if expected != Some(e.meterStop) || tx.stop.ocppReason != e.reason || tx.stop.completedAt != Some(e.completedAt) {
          return Err(InvalidEvidence);
        }
        return Ok(tx);
      }
      if e.completedAt < tx.actualStartedAt || e.observedAt < tx.observedStartedAt || !Plausible(e.completedAt, e.observedAt) {
        return Err(InvalidEvidence);
      }
      if tx.meter.observedAt.Some? && tx.meter.observedAt.value > e.completedAt
         && tx.meter.latest.Some? && e.meterStop < tx.meter.latest.value {
        return Err(InvalidEvidence);
      }
      var judged := Classify(tx.meterStart, tx.meter.latest, e.meterStop);
      if judged.Err? {
        return Err(InvalidEvidence);
      }
      CloseRows(t, e, judged.value);
      var completed := transactions[t];
      InsertFactTx(CompletedFactOf(t, completed));
      r := Ok(completed);
    }

    /** The three UPDATE statements of a completion, in lock order. */
    method CloseRows(t: Id, e: StopEvidence, evidence: Evidence)
      requires t in transactions && StopAdmissible(transactions[t], e)
      requires evidence == Classify(transactions[t].meterStart, transactions[t].meter.latest, e.meterStop).value
      modifies this
      ensures Tables() == CompletedRows(old(Tables()), t, e)
    {
      var tx := transactions[t];
      var meterAt := e.completedAt;
      if tx.meter.observedAt.Some? && meterAt < tx.meter.observedAt.value {
        meterAt := tx.meter.observedAt.value;
      }
      transactions := transactions[t := tx.(
        stopState := Some(Completed),
        meter := tx.meter.(latest := Some(evidence.effectiveWh), observedAt := Some(Stored(meterAt))),
        stop := StopColumns(Some(Stored(e.completedAt)), Some(Stored(e.observedAt)), e.reason, Some(evidence.effectiveWh),
                            Some(e.meterStop), Some(evidence.adjustmentWh), Some(evidence.kind)))];
      if t in workflows && workflows[t].state != Completed {
        workflows := workflows[t := workflows[t].(state := Completed, completedAt := Some(Stored(e.completedAt)))];
      }
      commands := WithCommandState(commands, t, Superseded);
    }

    // ----- telemetry -----

    /** The energy statements: count a one-Wh rollback, then store the reading that was let through. */
    method StoreEnergy(t: Id, m: Telemetry) returns (accepted: bool)
      requires t in transactions
      modifies this`transactions
      ensures accepted == EnergyAccepted(old(transactions)[t], m)
      ensures transactions == old(transactions)[t := if accepted then EnergyRow(old(transactions)[t], m) else old(transactions)[t]]
    {
      var tx := transactions[t];
      if tx.Done() || m.energyWh.None? || m.energyAt.None? || m.energyWh.value < tx.meterStart {
        return false;
      }
      var wh, observed := m.energyWh.value, m.energyAt.value;
      accepted := true;
      if tx.meter.latest.Some? && wh < tx.meter.latest.value {
        var judged := Classify(tx.meterStart, tx.meter.latest, wh);
        if judged.Err? || judged.value.kind != QuantizationNormalized {
          accepted := false;
        } else {
          transactions := transactions[t := tx.(meter := tx.meter.(anomalies := tx.meter.anomalies + 1))];
        }
      }
      if accepted {
        if tx.meter.observedAt.Some? && observed < tx.meter.observedAt.value {
          observed := tx.meter.observedAt.value;
        }
        var row := transactions[t];
        transactions := transactions[t :=
          row.(meter := row.meter.(latest := Some(wh), observedAt := Some(Stored(observed)), sequence := row.meter.sequence + 1))];
      }
    }

    /** The SoC statements; `before` is the row as it was locked. */
    method StoreSoC(t: Id, m: Telemetry, before: Transaction) returns (accepted: bool)
      requires t in transactions && transactions[t].soc == before.soc
      modifies this`transactions
      ensures accepted == SoCAccepted(before, m)
      ensures transactions == old(transactions)[t := if accepted then
                                                       old(transactions)[t].(soc := SoCRow(before, m).soc)
                                                     else old(transactions)[t]]
    {
      if before.Done() || m.soc.None? || m.socAt.None? || (before.soc.observedAt.Some? && m.socAt.value <= before.soc.observedAt.value) {
        return false;
      }
      var row := transactions[t];
      var soc := row.soc.(latest := m.soc, observedAt := Some(Stored(m.socAt.value)), sequence := row.soc.sequence + 1);
      if before.soc.initial.None? {
        soc := soc.(initial := m.soc);
      }
      transactions := transactions[t := row.(soc := soc)];
      accepted := true;
    }

    method FindByOcpp(charger: Id, ocppId: int) returns (found: Option<Id>)
      ensures found.Some? ==> Matches(transactions, found.value, charger, ocppId)
      ensures found.None? ==> forall t :: !Matches(transactions, t, charger, ocppId)
    {
      var unseen := transactions.Keys;
      while unseen != {}
        invariant unseen <= transactions.Keys
        invariant forall t :: t in transactions && t !in unseen ==> !Matches(transactions, t, charger, ocppId)
        decreases |unseen|
      {
        var t :| t in unseen;
        unseen := unseen - {t};
        if Matches(transactions, t, charger, ocppId) {
          return Some(t);
        }
      }
      found := None;
    }

    /** An empty request is refused before the lookup; the located row then takes the whole update. */
    method UpdateTelemetryForOcpp(charger: Id, ocppId: int, m: Telemetry) returns (r: Result<(bool, bool)>, located: Option<Id>)
      modifies this
      ensures m.energyWh.None? && m.soc.None? ==> r == Err(InvalidEvidence) && Tables() == old(Tables())
      ensures m.energyWh.Some? || m.soc.Some? ==>
                && (located.None? ==> (forall t :: !Matches(old(transactions), t, charger, ocppId)) && r == Err(NotFound) && Tables() == old(Tables()))
                && (located.Some? ==> Matches(old(transactions), located.value, charger, ocppId)
                                      && (Tables(), r) == UpdateTelemetry(old(Tables()), located.value, m))
    {
      located := None;
      if m.energyWh.None? && m.soc.None? {
        return Err(InvalidEvidence), None;
      }
      located := FindByOcpp(charger, ocppId);
      if located.None? {
        return Err(NotFound), None;
      }
      r := UpdateLocated(located.value, m);
    }

    method UpdateLocated(t: Id, m: Telemetry) returns (r: Result<(bool, bool)>)
      requires t in transactions && (m.energyWh.Some? || m.soc.Some?)
      modifies this
      ensures (Tables(), r) == UpdateTelemetry(old(Tables()), t, m)
    {
      var locked := transactions[t];
      var energy := StoreEnergy(t, m);
      var soc := StoreSoC(t, m, locked);
      var current := transactions[t];
      assert current == UpdatedRow(locked, m);
      if energy && current.limits.energyWh.Some? && current.meter.latest.value - current.meterStart >= current.limits.energyWh.value {
        var _ := EnsureStopWorkflow(t, EnergyStopCause(current.limits));
      }
      assert Tables() == TelemetryRows(old(Tables()), t, m);
      if energy {
        InsertFactTx(MeterFactOf(t, current));
      }
      if soc {
        InsertFactTx(SoCFactOf(t, current));
      }
      r := Ok((energy, soc));
    }

    /** Any dispatchable workflows, up to the limit. */
    method ListDispatchableStops(limit: nat) returns (batch: seq<Id>)
      ensures |batch| == Least(limit, |StopProgress.Dispatchable(Tables())|)
      ensures ElementsOf(batch) <= StopProgress.Dispatchable(Tables())
      ensures forall j, k :: 0 <= j < k < |batch| ==> batch[j] != batch[k]
    {
      var found := set t | t in workflows && OpenWorkflow(Tables(), t) && workflows[t].state == Persisted;
      assert found == StopProgress.Dispatchable(Tables());
      batch := Listing(found);
      assert ElementsOf(batch) == found;
      DistinctElements(batch);
      if |batch| > limit {
        batch := batch[..limit];
      }
    }

    // ----- recovery -----

    /** UPDATE v1_remote_commands SET state = to WHERE kind = START AND state = from, row by row. */
    method MoveStartCommands(from: Delivery, to: Delivery)
      modifies this`commands
      ensures Tables() == RecoverStart(old(Tables()), from, to)
    {
      ghost var was := commands;
      var pending := commands.Keys;
      while pending != {}
        invariant pending <= commands.Keys == was.Keys
        invariant forall c :: c in commands ==> commands[c] == if c in pending then was[c] else MovedCommand(was[c], from, to)
        decreases |pending|
      {
        var c :| c in pending;
        pending := pending - {c};
        if commands[c].kind.Start? && commands[c].state == from {
          commands := commands[c := commands[c].(state := to)];
        }
      }
      CommandsMoved(old(Tables()), commands, from, to);
    }

    method MoveWorkflows(from: Delivery, to: Delivery)
      modifies this`workflows
      ensures Tables() == RecoverStop(old(Tables()), from, to)
    {
      ghost var was := workflows;
      var pending := workflows.Keys;
      while pending != {}
        invariant pending <= workflows.Keys == was.Keys
        invariant forall t :: t in workflows ==> workflows[t] == if t in pending then was[t] else MovedWorkflow(was[t], from, to)
        decreases |pending|
      {
        var t :| t in pending;
        pending := pending - {t};
        if workflows[t].state == from {
          workflows := workflows[t := workflows[t].(state := to)];
        }
      }
      WorkflowsMoved(old(Tables()), workflows, from, to);
    }

    /** An unattempted claim becomes claimable again; an attempt that may have been sent never does. */
    method RecoverCommandDelivery()
      modifies this`commands
      ensures Tables() == RecoverStart(RecoverStart(old(Tables()), PendingDelivery, Persisted), DeliveryAttempted, Ambiguous)
      ensures forall c :: c in commands && commands[c].kind.Start? ==> commands[c].state !in {PendingDelivery, DeliveryAttempted}
    {
      MoveStartCommands(PendingDelivery, Persisted);
      MoveStartCommands(DeliveryAttempted, Ambiguous);
    }

    method RecoverStopDelivery()
      modifies this`workflows
      ensures Tables() == RecoverStop(RecoverStop(old(Tables()), PendingDelivery, Persisted), DeliveryAttempted, Ambiguous)
      ensures forall t :: t in workflows ==> workflows[t].state !in {PendingDelivery, DeliveryAttempted}
    {
      MoveWorkflows(PendingDelivery, Persisted);
      MoveWorkflows(DeliveryAttempted, Ambiguous);
    }
  }
}
