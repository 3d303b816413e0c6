/**
 * The durable tables of a charging transaction and the SQL transactions over them
 * (internal/store/v1_postgres.go, internal/store/v1_lifecycle_postgres.go).
 * Every function below is one committed SQL transaction: it yields the tables after the commit
 * and the reply of the call. An error reply always comes with the tables unchanged (rollback).
 */
module LifecycleTables {
  import opened Base
  import opened MeterEvidence

  datatype Delivery =
    | Persisted | PendingDelivery | DeliveryAttempted
    | OcppAccepted | OcppRejected | Ambiguous
    | Completed | Superseded | Materialized

  datatype Status = Accepted | Rejected | ResultUnavailable | OtherStatus

  datatype Binding = Binding(cpo: Id, cmsCharger: Id, cmsConnector: Id, charger: Id, connector: int)

  datatype LimitType = AutoLimit | EnergyLimitType | TimeLimitType | MoneyLimitType
  datatype LimitSource = Unspecified | NoLimitSource | CustomerEnergy | CustomerTime | CustomerMoney | Wallet
  datatype Limits = Limits(limitType: LimitType, energyWh: Option<int>, energySource: LimitSource)

  datatype Initiator = Customer | Cpo | EnergyLimit | TimeLimit | MoneyLimit | WalletLimit
  datatype Reason = Requested(text: Id) | EnergyReached | TimeReached | MoneyReached | WalletReached
  datatype StopCause = StopCause(initiator: Initiator, reason: Reason)

  datatype Meter = Meter(latest: Option<int>, observedAt: Option<Time>, sequence: nat, anomalies: nat)
  datatype SoC = SoC(initial: Option<int>, latest: Option<int>, observedAt: Option<Time>, sequence: nat)

  datatype StopColumns = StopColumns(
    completedAt: Option<Time>, observedCompletedAt: Option<Time>, ocppReason: Id,
    meterStop: Option<int>, rawMeterStop: Option<int>, adjustment: Option<int>, evidence: Option<Class>)

  datatype Transaction = Transaction(
    intent: Id, command: Id, binding: Binding, idTag: Id, ocppId: int,
    actualStartedAt: Time, observedStartedAt: Time, meterStart: int, limits: Limits,
    meter: Meter, soc: SoC,
    stopState: Option<Delivery>, cause: Option<StopCause>, stop: StopColumns)
  {
    predicate Done() { stop.completedAt.Some? }
  }

  /** The columns a transaction keeps from its start on. */
  predicate SameIdentity(a: Transaction, b: Transaction) {
    && a.intent == b.intent && a.command == b.command && a.binding == b.binding && a.idTag == b.idTag
    && a.ocppId == b.ocppId && a.actualStartedAt == b.actualStartedAt && a.observedStartedAt == b.observedStartedAt
    && a.meterStart == b.meterStart && a.limits == b.limits
  }

  datatype Workflow = Workflow(cause: StopCause, state: Delivery, attempts: nat, completedAt: Option<Time>)

  datatype CommandKind = Start(intent: Id, idTag: Id, limits: Limits) | Stop(workflow: Id, cause: StopCause)

  datatype Command = Command(
    kind: CommandKind, digest: Id, binding: Binding, expiresAt: Time,
    state: Delivery, attempts: nat, transaction: Option<Id>)

  datatype Credential = Credential(
    intent: Id, binding: Binding, expiresAt: Time, consumedAt: Option<Time>, transaction: Option<Id>)

  datatype FactKind = StartedFact | MeterFact | SoCFact | CompletedFact | CommandFact

  datatype Payload =
    | Started(command: Id, meterStart: int)
    | MeterReading(wh: int, consumed: int, at: Time)
    | SoCReading(percent: int, at: Time)
    | Completion(meterStart: int, stop: StopColumns, cause: Option<StopCause>)
    | CommandStatus(state: Delivery, attempts: nat)

  datatype Fact = Fact(kind: FactKind, aggregate: Id, sequence: Option<nat>, payload: Payload)

  datatype Db = Db(
    commands: map<Id, Command>, credentials: map<Id, Credential>,
    transactions: map<Id, Transaction>, workflows: map<Id, Workflow>,
    facts: seq<Fact>, completionKeys: map<Id, nat>)

  const EMPTY: Db := Db(map[], map[], map[], map[], [], map[])

  /** Only the outbox differs. */
  predicate SameTables(a: Db, b: Db) {
    && a.commands == b.commands && a.credentials == b.credentials
    && a.transactions == b.transactions && a.workflows == b.workflows
  }

  // ----- facts -----

  /** The outbox's unique key; PostgreSQL treats a missing sequence as distinct from every other. */
  predicate SameKey(f: Fact, g: Fact) {
    f.kind == g.kind && f.aggregate == g.aggregate && f.sequence.Some? && f.sequence == g.sequence
  }

  function InsertFact(db: Db, f: Fact): Db {
    if f.kind == CompletedFact then
      if f.aggregate in db.completionKeys then db
      else db.(facts := db.facts + [f], completionKeys := db.completionKeys[f.aggregate := |db.facts|])
    else if exists i :: 0 <= i < |db.facts| && SameKey(db.facts[i], f) then db
    else db.(facts := db.facts + [f])
  }

  /** The facts of one kind and aggregate, in insertion order. */
  function FactsOf(facts: seq<Fact>, kind: FactKind, aggregate: Id): seq<Fact> {
    if facts == [] then []
    else
      var last := facts[|facts| - 1];
      FactsOf(facts[..|facts| - 1], kind, aggregate)
      + (if last.kind == kind && last.aggregate == aggregate then [last] else [])
  }

  // ----- start -----

  datatype StartInput = StartInput(
    command: Id, digest: Id, intent: Id, idTag: Id, binding: Binding,
    credentialExpiresAt: Time, commandExpiresAt: Time, limits: Limits)

  predicate IntentTaken(db: Db, intent: Id) {
    exists c :: c in db.commands && db.commands[c].kind.Start? && db.commands[c].kind.intent == intent
  }

  predicate CredentialTaken(db: Db, intent: Id, idTag: Id) {
    idTag in db.credentials || exists g :: g in db.credentials && db.credentials[g].intent == intent
  }

  /** Replies whether the command already existed. */
  function CreateStart(db: Db, i: StartInput): (Db, Result<bool>) {
    if i.command in db.commands then
      (db, if db.commands[i.command].digest == i.digest then Ok(true) else Err(IdempotencyConflict))
    else if IntentTaken(db, i.intent) then (db, Err(IdempotencyConflict))
    else if CredentialTaken(db, i.intent, i.idTag) then (db, Err(StorageFailure))
    else
      (db.(commands := db.commands[i.command :=
             Command(Start(i.intent, i.idTag, i.limits), i.digest, i.binding,
                     Stored(i.commandExpiresAt), Persisted, 0, None)],
           credentials := db.credentials[i.idTag :=
             Credential(i.intent, i.binding, Stored(i.credentialExpiresAt), None, None)]),
       Ok(false))
  }

  /** Replies whether this caller won the claim. */
  function ClaimStart(db: Db, c: Id): (Db, bool) {
    if c in db.commands && db.commands[c].kind.Start? && db.commands[c].state == Persisted
    then (db.(commands := db.commands[c := db.commands[c].(state := PendingDelivery)]), true)
    else (db, false)
  }

  /** Succeeds silently when the row is not PENDING_DELIVERY. */
  function BeginStart(db: Db, c: Id): Db {
    if c in db.commands && db.commands[c].kind.Start? && db.commands[c].state == PendingDelivery
    then db.(commands := db.commands[c :=
               db.commands[c].(state := DeliveryAttempted, attempts := db.commands[c].attempts + 1)])
    else db
  }

  function DeliveryOf(status: Status): Delivery {
    match status
    case Accepted => OcppAccepted
    case Rejected => OcppRejected
    case ResultUnavailable => Ambiguous
    case OtherStatus => DeliveryAttempted
  }

  function CommandUpdated(db: Db, c: Id): Db
    requires c in db.commands
  {
    InsertFact(db, Fact(CommandFact, c, None, CommandStatus(db.commands[c].state, db.commands[c].attempts)))
  }

  function MarkStart(db: Db, c: Id, status: Status): Db {
    if c in db.commands && db.commands[c].state !in {Materialized, Superseded}
    then CommandUpdated(db.(commands := db.commands[c := db.commands[c].(state := DeliveryOf(status))]), c)
    else db
  }

  datatype StartEvidence = StartEvidence(
    charger: Id, connector: int, idTag: Id, meterStart: int,
    actualStartedAt: Time, observedAt: Time, ocppId: int)

  /** The START row selected by id tag. */
  ghost function StartCommandFor(db: Db, idTag: Id): Option<Id> {
    if c :| c in db.commands && db.commands[c].kind.Start? && db.commands[c].kind.idTag == idTag
    then Some(c) else None
  }

  predicate TransactionKeyTaken(db: Db, intent: Id, command: Id, ocppId: int) {
    exists t :: t in db.transactions &&
      (db.transactions[t].intent == intent || db.transactions[t].command == command
       || db.transactions[t].ocppId == ocppId)
  }

  function NewTransaction(cred: Credential, command: Id, limits: Limits, i: StartEvidence): Transaction {
    Transaction(cred.intent, command, cred.binding, i.idTag, i.ocppId,
                Stored(i.actualStartedAt), Stored(i.observedAt), i.meterStart, limits,
                Meter(None, None, 0, 0), SoC(None, None, None, 0),
                None, None, StopColumns(None, None, 0, None, None, None, None))
  }

  /** The rows written when credential and command both admit the StartTransaction. */
  function MaterializedRows(db: Db, c: Id, i: StartEvidence, halId: Id): Db
    requires i.idTag in db.credentials && c in db.commands && db.commands[c].kind.Start?
  {
    var cred := db.credentials[i.idTag];
    var command := db.commands[c].(state := Materialized, transaction := Some(halId));
    var db1 := db.(
      transactions := db.transactions[halId := NewTransaction(cred, c, command.kind.limits, i)],
      credentials := db.credentials[i.idTag :=
        cred.(consumedAt := Some(Stored(i.observedAt)), transaction := Some(halId))],
      commands := db.commands[c := command]);
    InsertFact(InsertFact(db1, Fact(StartedFact, halId, None, Started(c, i.meterStart))), MaterializedFact(c))
  }

  /** Built from a fresh record, so it reports no delivery attempts whatever the row says. */
  function MaterializedFact(c: Id): Fact {
    Fact(CommandFact, c, None, CommandStatus(Materialized, 0))
  }

  /** MaterializeV1Start; halId is the fresh HAL transaction id. Replies (id, duplicate). */
  ghost function Materialize(db: Db, i: StartEvidence, halId: Id): (Db, Result<(Id, bool)>) {
    if i.meterStart < 0 || i.ocppId <= 0 || i.connector <= 0 || !Plausible(i.actualStartedAt, i.observedAt) then
      (db, Err(InvalidEvidence))
    else if i.idTag !in db.credentials then (db, Err(CredentialRejected))
    else
      var cred := db.credentials[i.idTag];
      if cred.transaction.Some? then
        if cred.transaction.value !in db.transactions then (db, Err(NotFound))
        else
          var tx := db.transactions[cred.transaction.value];
          if tx.binding.charger == i.charger && tx.binding.connector == i.connector
             && tx.idTag == i.idTag && tx.meterStart == i.meterStart
          then (db, Ok((cred.transaction.value, true)))
          else (db, Err(CredentialRejected))
      else if cred.expiresAt <= i.observedAt || cred.binding.charger != i.charger
              || cred.binding.connector != i.connector then (db, Err(CredentialRejected))
      else
        match StartCommandFor(db, i.idTag)
        case None => (db, Err(StorageFailure))
        case Some(c) =>
          if db.commands[c].expiresAt <= i.observedAt
             || TransactionKeyTaken(db, cred.intent, c, i.ocppId)
          then (db, Err(CredentialRejected))
          else (MaterializedRows(db, c, i, halId), Ok((halId, false)))
  }

  // ----- stop -----

  function EnsureWorkflow(db: Db, t: Id, cause: StopCause): (Db, Result<bool>) {
    if t !in db.transactions then (db, Err(NotFound))
    else if t in db.workflows then (db, Ok(false))
    else if db.transactions[t].Done() then (db, Err(NotFound))
    else
      (db.(workflows := db.workflows[t := Workflow(cause, Persisted, 0, None)],
           transactions := db.transactions[t :=
             db.transactions[t].(stopState := Some(Persisted), cause := Some(cause))]),
       Ok(true))
  }

  datatype StopInput = StopInput(
    command: Id, digest: Id, transaction: Id, ocppId: int, binding: Binding,
    cause: StopCause, expiresAt: Time)

  /** Replies whether the command is a duplicate. */
  function CreateStop(db: Db, i: StopInput): (Db, Result<bool>) {
    if i.transaction !in db.transactions then (db, Err(NotFound))
    else
      var tx := db.transactions[i.transaction];
      if tx.Done() || tx.ocppId != i.ocppId || tx.binding != i.binding then (db, Err(NotFound))
      else
        var db1 := EnsureWorkflow(db, i.transaction, i.cause).0;
        if i.command in db1.commands then
          if db1.commands[i.command].digest == i.digest then (db1, Ok(true))
          else (db, Err(IdempotencyConflict))
        else
          var command := Command(Stop(i.transaction, i.cause), i.digest, i.binding,
                                 Stored(i.expiresAt), Persisted, 0, Some(i.transaction));
          (CommandUpdated(db1.(commands := db1.commands[i.command := command]), i.command), Ok(false))
  }

  /** The lifecycle rows are locked and the transaction is still open. */
  predicate OpenWorkflow(db: Db, t: Id) {
    t in db.transactions && !db.transactions[t].Done() && t in db.workflows
  }

  function ClaimStop(db: Db, t: Id): (Db, bool) {
    if OpenWorkflow(db, t) && db.workflows[t].state == Persisted
    then (db.(workflows := db.workflows[t := db.workflows[t].(state := PendingDelivery)]), true)
    else (db, false)
  }

  /** Succeeds silently when the row is not PENDING_DELIVERY. */
  function BeginStop(db: Db, t: Id): Db {
    if OpenWorkflow(db, t) && db.workflows[t].state == PendingDelivery
    then db.(workflows := db.workflows[t :=
               db.workflows[t].(state := DeliveryAttempted, attempts := db.workflows[t].attempts + 1)])
    else db
  }

  predicate LiveStopOf(c: Command, t: Id) {
    c.kind.Stop? && c.kind.workflow == t && c.state !in {Superseded, Materialized}
  }

  function LiveStops(db: Db, t: Id): set<Id> {
    set c | c in db.commands && LiveStopOf(db.commands[c], t)
  }

  function WithCommandState(commands: map<Id, Command>, t: Id, state: Delivery): map<Id, Command> {
    map c | c in commands ::
      if LiveStopOf(commands[c], t) then commands[c].(state := state) else commands[c]
  }

  predicate Enumerates(order: seq<Id>, ids: set<Id>) {
    (forall i, j :: 0 <= i < j < |order| ==> order[i] != order[j]) && (set c | c in order) == ids
  }

  function CommandFacts(db: Db, order: seq<Id>): (r: Db)
    requires forall c :: c in order ==> c in db.commands
    ensures SameTables(db, r)
  {
    if order == [] then db
    else CommandUpdated(CommandFacts(db, order[..|order| - 1]), order[|order| - 1])
  }

  function MarkedRows(db: Db, t: Id, state: Delivery): Db
    requires OpenWorkflow(db, t)
  {
    db.(workflows := db.workflows[t := db.workflows[t].(state := state)],
        transactions := db.transactions[t := db.transactions[t].(stopState := Some(state))],
        commands := WithCommandState(db.commands, t, state))
  }

  /** `order` is the order in which UPDATE ... RETURNING lists the touched commands. */
  function MarkStop(db: Db, t: Id, status: Status, order: seq<Id>): Db
    requires Enumerates(order, LiveStops(db, t))
  {
    if !OpenWorkflow(db, t) || db.workflows[t].state in {Completed, Superseded} then db
    else
      assert forall c :: c in order ==> c in LiveStops(db, t);
      CommandFacts(MarkedRows(db, t, DeliveryOf(status)), order)
  }

  predicate SameCompletion(stop: StopColumns, e: StopEvidence) {
    var expected := if stop.rawMeterStop.Some? then stop.rawMeterStop else stop.meterStop;
    expected == Some(e.meterStop) && stop.ocppReason == e.reason && stop.completedAt == Some(e.completedAt)
  }

  /** The stop evidence a still open transaction admits. */
  predicate StopAdmissible(tx: Transaction, e: StopEvidence) {
    && e.completedAt >= tx.actualStartedAt
    && e.observedAt >= tx.observedStartedAt
    && Plausible(e.completedAt, e.observedAt)
    && !(tx.meter.observedAt.Some? && tx.meter.observedAt.value > e.completedAt
         && tx.meter.latest.Some? && e.meterStop < tx.meter.latest.value)
    && Classify(tx.meterStart, tx.meter.latest, e.meterStop).Ok?
  }

  function CompletedRow(tx: Transaction, e: StopEvidence): (done: Transaction)
    requires StopAdmissible(tx, e)
    ensures SameIdentity(tx, done) && done.cause == tx.cause && done.soc == tx.soc
  {
    var evidence := Classify(tx.meterStart, tx.meter.latest, e.meterStop).value;
    var meterAt := if tx.meter.observedAt.Some? && e.completedAt < tx.meter.observedAt.value
                   then tx.meter.observedAt.value else e.completedAt;
    tx.(stopState := Some(Completed),
        meter := tx.meter.(latest := Some(evidence.effectiveWh), observedAt := Some(Stored(meterAt))),
        stop := StopColumns(Some(Stored(e.completedAt)), Some(Stored(e.observedAt)), e.reason,
                            Some(evidence.effectiveWh), Some(e.meterStop),
                            Some(evidence.adjustmentWh), Some(evidence.kind)))
  }

  /** Transaction, workflow and commands close together. */
  function CompletedRows(db: Db, t: Id, e: StopEvidence): Db
    requires t in db.transactions && StopAdmissible(db.transactions[t], e)
  {
    db.(transactions := db.transactions[t := CompletedRow(db.transactions[t], e)],
        workflows := if t in db.workflows && db.workflows[t].state != Completed
                     then db.workflows[t := db.workflows[t].(state := Completed, completedAt := Some(Stored(e.completedAt)))]
                     else db.workflows,
        commands := WithCommandState(db.commands, t, Superseded))
  }

  function CompletedFactOf(t: Id, tx: Transaction): Fact {
    Fact(CompletedFact, t, None, Completion(tx.meterStart, tx.stop, tx.cause))
  }

  function Complete(db: Db, t: Id, e: StopEvidence): (Db, Result<Transaction>) {
    if t !in db.transactions then (db, Err(NotFound))
    else
      var tx := db.transactions[t];
      if tx.Done() then
        (db, if SameCompletion(tx.stop, e) then Ok(tx) else Err(InvalidEvidence))
      else if !StopAdmissible(tx, e) then (db, Err(InvalidEvidence))
      else
        var done := CompletedRow(tx, e);
        (InsertFact(CompletedRows(db, t, e), CompletedFactOf(t, done)), Ok(done))
  }

  // ----- telemetry -----

  predicate EnergyAccepted(tx: Transaction, m: Telemetry) {
    && !tx.Done() && m.energyWh.Some? && m.energyAt.Some? && m.energyWh.value >= tx.meterStart
    && (tx.meter.latest.Some? && m.energyWh.value < tx.meter.latest.value ==>
          var judged := Classify(tx.meterStart, tx.meter.latest, m.energyWh.value);
          judged.Ok? && judged.value.kind == QuantizationNormalized)
  }

  function EnergyRow(tx: Transaction, m: Telemetry): Transaction
    requires EnergyAccepted(tx, m)
  {
    var wh, at := m.energyWh.value, m.energyAt.value;
    var rollback := tx.meter.latest.Some? && wh < tx.meter.latest.value;
    var observed := if tx.meter.observedAt.Some? && at < tx.meter.observedAt.value
                    then tx.meter.observedAt.value else at;
    tx.(meter := Meter(Some(wh), Some(Stored(observed)), tx.meter.sequence + 1,
                       if rollback then tx.meter.anomalies + 1 else tx.meter.anomalies))
  }

  predicate SoCAccepted(tx: Transaction, m: Telemetry) {
    !tx.Done() && m.soc.Some? && m.socAt.Some?
    && (tx.soc.observedAt.Some? ==> m.socAt.value > tx.soc.observedAt.value)
  }

  function SoCRow(tx: Transaction, m: Telemetry): Transaction
    requires SoCAccepted(tx, m)
  {
    tx.(soc := SoC(if tx.soc.initial.Some? then tx.soc.initial else m.soc, m.soc,
                   Some(Stored(m.socAt.value)), tx.soc.sequence + 1))
  }

  function EnergyStopCause(limits: Limits): StopCause {
    if limits.energySource == CustomerMoney
       || (limits.energySource == Unspecified && limits.limitType == MoneyLimitType)
    then StopCause(MoneyLimit, MoneyReached)
    else if limits.energySource == Wallet
            || (limits.energySource == Unspecified && limits.limitType == AutoLimit)
    then StopCause(WalletLimit, WalletReached)
    else StopCause(EnergyLimit, EnergyReached)
  }

  predicate LimitReached(tx: Transaction) {
    tx.limits.energyWh.Some? && tx.meter.latest.Some?
    && tx.meter.latest.value - tx.meterStart >= tx.limits.energyWh.value
  }

  function UpdatedRow(tx: Transaction, m: Telemetry): (current: Transaction)
    ensures SameIdentity(tx, current) && current.stopState == tx.stopState
    ensures current.cause == tx.cause && current.stop == tx.stop
  {
    var tx1 := if EnergyAccepted(tx, m) then EnergyRow(tx, m) else tx;
    if SoCAccepted(tx, m) then SoCRow(tx1, m) else tx1
  }

  function MeterFactOf(t: Id, tx: Transaction): Fact
    requires tx.meter.latest.Some? && tx.meter.observedAt.Some?
  {
    Fact(MeterFact, t, Some(tx.meter.sequence),
         MeterReading(tx.meter.latest.value, tx.meter.latest.value - tx.meterStart, tx.meter.observedAt.value))
  }

  function SoCFactOf(t: Id, tx: Transaction): Fact
    requires tx.soc.latest.Some? && tx.soc.observedAt.Some?
  {
    Fact(SoCFact, t, Some(tx.soc.sequence), SoCReading(tx.soc.latest.value, tx.soc.observedAt.value))
  }

  /** Transaction row and, when the accepted reading reaches the limit, its stop workflow. */
  function TelemetryRows(db: Db, t: Id, m: Telemetry): Db
    requires t in db.transactions
  {
    var current := UpdatedRow(db.transactions[t], m);
    var db1 := db.(transactions := db.transactions[t := current]);
    if EnergyAccepted(db.transactions[t], m) && LimitReached(current)
    then EnsureWorkflow(db1, t, EnergyStopCause(current.limits)).0 else db1
  }

  function TelemetryFacts(db: Db, t: Id, current: Transaction, energy: bool, soc: bool): (r: Db)
    requires energy ==> current.meter.latest.Some? && current.meter.observedAt.Some?
    requires soc ==> current.soc.latest.Some? && current.soc.observedAt.Some?
    ensures SameTables(db, r)
  {
    var db1 := if energy then InsertFact(db, MeterFactOf(t, current)) else db;
    if soc then InsertFact(db1, SoCFactOf(t, current)) else db1
  }

  /** UpdateV1TelemetryForOCPP on the located row; replies what was accepted. */
  function UpdateTelemetry(db: Db, t: Id, m: Telemetry): (Db, Result<(bool, bool)>) {
    if m.energyWh.None? && m.soc.None? then (db, Err(InvalidEvidence))
    else if t !in db.transactions then (db, Err(NotFound))
    else
      var tx := db.transactions[t];
      var energy, soc := EnergyAccepted(tx, m), SoCAccepted(tx, m);
      (TelemetryFacts(TelemetryRows(db, t, m), t, UpdatedRow(tx, m), energy, soc), Ok((energy, soc)))
  }

  // ----- restart recovery; each function is one autocommitted statement -----

  function RecoverStart(db: Db, from: Delivery, to: Delivery): Db {
    db.(commands := map c | c in db.commands ::
          if db.commands[c].kind.Start? && db.commands[c].state == from
          then db.commands[c].(state := to) else db.commands[c])
  }

  function RecoverStop(db: Db, from: Delivery, to: Delivery): Db {
    db.(workflows := map t | t in db.workflows ::
          if db.workflows[t].state == from then db.workflows[t].(state := to) else db.workflows[t])
  }
}
