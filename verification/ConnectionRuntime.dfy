/**
 * Durable connection and connector state (internal/store/v1_postgres.go): mapping sync,
 * generation-fenced connection observations, heartbeat renewals, connector status and the
 * startup reset, each one SQL transaction together with the fact it publishes.
 */
module ConnectionRuntime {
  import opened Base

  datatype Presence = Unknown | Online | Offline

  /** `serial` is the expected serial number, 0 when none is demanded. */
  datatype Charger = Charger(cmsCharger: Id, cpo: Id, serial: Id, enabled: bool)

  datatype Audit = Enrolled(cmsCharger: Id) | EnablementChanged(cmsCharger: Id)

  datatype Runtime = Runtime(
    state: Presence, generation: int, sequence: nat,
    connectedAt: Option<Time>, lastObservedAt: Option<Time>)

  datatype ConnectorStatus = ConnectorStatus(status: Id, sequence: nat, observedAt: Time)

  /** Every fact here is sequenced, so the outbox is a table keyed by its unique columns. */
  datatype Key = ConnectionKey(identity: Id, sequence: nat) | StatusKey(connector: Id, sequence: nat)

  datatype Content =
    | Connection(state: Presence, generation: int, at: Time)
    | Status(status: Id, at: Time)

  /** Connectors are keyed by their unique (identity, number) pair. */
  datatype Db = Db(
    chargers: map<Id, Charger>, connectors: map<(Id, int), Id>,
    runtime: map<Id, Runtime>, statuses: map<(Id, int), ConnectorStatus>, facts: map<Key, Content>, audit: seq<Audit>)

  const EMPTY: Db := Db(map[], map[], map[], map[], map[], [])

  /** INSERT ... ON CONFLICT DO NOTHING. */
  function Publish(facts: map<Key, Content>, key: Key, content: Content): map<Key, Content> {
    if key in facts then facts else facts[key := content]
  }

  // ----- mapping -----

  function AddConnectors(connectors: map<(Id, int), Id>, identity: Id, more: seq<(Id, int)>): Result<map<(Id, int), Id>>
    decreases |more|
  {
    if more == [] then Ok(connectors)
    else
      var (connector, number) := more[0];
      if connector in connectors.Values then
        if (identity, number) in connectors && connectors[(identity, number)] == connector
        then AddConnectors(connectors, identity, more[1..]) else Err(IdempotencyConflict)
      else if (identity, number) in connectors then Err(IdempotencyConflict)
      else AddConnectors(connectors[(identity, number) := connector], identity, more[1..])
  }

  function SyncMapping(db: Db, identity: Id, charger: Charger, more: seq<(Id, int)>): (Db, Result<bool>) {
    var known := exists i :: i in db.chargers && db.chargers[i].cmsCharger == charger.cmsCharger;
    var same := identity in db.chargers && db.chargers[identity].cmsCharger == charger.cmsCharger
                && db.chargers[identity].cpo == charger.cpo;
    if (known && !same) || (!known && identity in db.chargers) then (db, Err(IdempotencyConflict))
    else
      match AddConnectors(db.connectors, identity, more)
      case Err(e) => (db, Err(e))
      case Ok(connectors) =>
        (db.(chargers := db.chargers[identity := charger], connectors := connectors,
             runtime := if identity in db.runtime then db.runtime
                        else db.runtime[identity := Runtime(Unknown, 0, 0, None, None)],
             audit := db.audit + (if !known then [Enrolled(charger.cmsCharger)]
                                  else if db.chargers[identity].enabled != charger.enabled
                                  then [EnablementChanged(charger.cmsCharger)] else [])),
         Ok(known))
  }

  // ----- connection observations -----

  datatype Observation = Observation(generation: int, online: bool)

  function StateOf(o: Observation): Presence {
    if o.online then Online else Offline
  }

  predicate Accepts(row: Runtime, o: Observation) {
    o.generation > row.generation
    || (o.generation == row.generation && row.state == Online && !o.online)
  }

  /** The upsert of RecordV1ChargerConnection on an existing row. */
  function Observed(row: Runtime, o: Observation, at: Time): Runtime {
    if Accepts(row, o) then
      Runtime(StateOf(o), o.generation, row.sequence + 1,
              if o.online then Some(Stored(at)) else row.connectedAt, Some(Stored(at)))
    else row
  }

  predicate Renews(row: Runtime, generation: int, at: Time) {
    row.generation == generation && row.state == Online
    && row.lastObservedAt.Some? && row.lastObservedAt.value < Stored(at)
  }

  function Renewed(row: Runtime, generation: int, at: Time): Runtime {
    if Renews(row, generation, at)
    then row.(lastObservedAt := Some(Stored(at)), sequence := row.sequence + 1) else row
  }

  /** Writes the row and, when it moved, its fact. */
  function Wrote(db: Db, identity: Id, row: Runtime, at: Time): Db {
    db.(runtime := db.runtime[identity := row],
        facts := Publish(db.facts, ConnectionKey(identity, row.sequence), Connection(row.state, row.generation, Stored(at))))
  }

  function Record(db: Db, identity: Id, o: Observation, at: Time): (Db, Result<()>) {
    if identity !in db.chargers then (db, Err(NotFound))
    else if !db.chargers[identity].enabled then (db, Err(CredentialRejected))
    else if identity !in db.runtime then
      (Wrote(db, identity, Runtime(StateOf(o), o.generation, 1, if o.online then Some(Stored(at)) else None, Some(Stored(at))), at), Ok(()))
    else if Accepts(db.runtime[identity], o) then
      (Wrote(db, identity, Observed(db.runtime[identity], o, at), at), Ok(()))
    else (db, Ok(()))
  }

  function Renew(db: Db, identity: Id, generation: int, at: Time): (Db, Result<()>) {
    if identity !in db.chargers then (db, Err(NotFound))
    else if !db.chargers[identity].enabled then (db, Err(CredentialRejected))
    else if identity in db.runtime && Renews(db.runtime[identity], generation, at)
    then (Wrote(db, identity, Renewed(db.runtime[identity], generation, at), at), Ok(()))
    else (db, Ok(()))
  }

  function RecordStatus(db: Db, identity: Id, number: int, status: Id, at: Time): (Db, Result<()>) {
    if identity !in db.chargers || (identity, number) !in db.connectors then (db, Err(NotFound))
    else if !db.chargers[identity].enabled then (db, Err(CredentialRejected))
    else
      var key := (identity, number);
      var sequence := if key in db.statuses then db.statuses[key].sequence + 1 else 1;
      (db.(statuses := db.statuses[key := ConnectorStatus(status, sequence, Stored(at))],
           facts := Publish(db.facts, StatusKey(db.connectors[key], sequence), Status(status, Stored(at)))),
       Ok(()))
  }

  // ----- startup reset -----

  function ResetRow(row: Runtime): Runtime {
    if row.state == Unknown then row.(generation := 0)
    else row.(state := Unknown, generation := 0, sequence := row.sequence + 1)
  }

  predicate ResetPublishes(db: Db, key: Key) {
    && key.ConnectionKey? && key.identity in db.chargers && key.identity in db.runtime
    && db.runtime[key.identity].state != Unknown && key.sequence == db.runtime[key.identity].sequence + 1
  }

  function Reset(db: Db, at: Time): Db {
    var added := set i | i in db.runtime && i in db.chargers && db.runtime[i].state != Unknown
                     :: ConnectionKey(i, db.runtime[i].sequence + 1);
    db.(runtime := map i | i in db.runtime :: if i in db.chargers then ResetRow(db.runtime[i]) else db.runtime[i],
        facts := map k | k in db.facts.Keys + added ::
                   if k in db.facts then db.facts[k] else Connection(Unknown, 0, Stored(at)))
  }

  // ----- runs -----

  datatype Step =
    | Sync(identity: Id, charger: Charger, connectors: seq<(Id, int)>)
    | Observe(identity: Id, o: Observation, at: Time)
    | Heartbeat(identity: Id, generation: int, at: Time)
    | StatusNotified(identity: Id, number: int, status: Id, at: Time)
    | Restart(at: Time)

  function Apply(db: Db, step: Step): Db {
    match step
    case Sync(i, charger, more) => SyncMapping(db, i, charger, more).0
    case Observe(i, o, at) => Record(db, i, o, at).0
    case Heartbeat(i, generation, at) => Renew(db, i, generation, at).0
    case StatusNotified(i, number, status, at) => RecordStatus(db, i, number, status, at).0
    case Restart(at) => Reset(db, at)
  }

  ghost function Run(db: Db, steps: seq<Step>): Db
    decreases |steps|
  {
    if steps == [] then db else Run(Apply(db, steps[0]), steps[1..])
  }

  // ----- gap-free facts -----

  ghost predicate ConnectionFacts(facts: map<Key, Content>, i: Id, n: nat) {
    forall k: nat :: ConnectionKey(i, k) in facts <==> 1 <= k <= n
  }

  ghost predicate StatusFacts(facts: map<Key, Content>, c: Id, n: nat) {
    forall k: nat :: StatusKey(c, k) in facts <==> 1 <= k <= n
  }

  ghost predicate RuntimeRow(db: Db, i: Id)
    requires i in db.runtime
  {
    var row := db.runtime[i];
    && i in db.chargers
    && row.generation >= 0 && (row.state == Unknown <==> row.generation == 0)
    && ConnectionFacts(db.facts, i, row.sequence)
    && (row.sequence == 0 ==> row.state == Unknown)
    && (row.sequence > 0 ==>
          var last := db.facts[ConnectionKey(i, row.sequence)];
          last.Connection? && last.state == row.state && last.generation == row.generation)
  }

  function StatusSequence(db: Db, key: (Id, int)): nat {
    if key in db.statuses then db.statuses[key].sequence else 0
  }

  ghost predicate StatusRow(db: Db, key: (Id, int))
    requires key in db.connectors
  {
    var n := StatusSequence(db, key);
    && StatusFacts(db.facts, db.connectors[key], n)
    && (n > 0 ==>
          && key in db.statuses
          && db.facts[StatusKey(db.connectors[key], n)] == Status(db.statuses[key].status, db.statuses[key].observedAt))
  }

  ghost predicate Injective(connectors: map<(Id, int), Id>) {
    forall a, b :: a in connectors && b in connectors && connectors[a] == connectors[b] ==> a == b
  }

  ghost predicate Inv(db: Db) {
    && (forall i :: i in db.chargers ==> i in db.runtime)
    && (forall i :: i in db.runtime ==> RuntimeRow(db, i))
    && (forall i :: i !in db.runtime ==> ConnectionFacts(db.facts, i, 0))
    && Injective(db.connectors)
    && (forall key :: key in db.statuses ==> key in db.connectors)
    && (forall key :: key in db.connectors ==> StatusRow(db, key))
    && (forall c :: c !in db.connectors.Values ==> StatusFacts(db.facts, c, 0))
  }

  lemma {:induction false} AddConnectorsGrows(connectors: map<(Id, int), Id>, identity: Id, more: seq<(Id, int)>)
    requires Injective(connectors) && AddConnectors(connectors, identity, more).Ok?
    ensures var grown := AddConnectors(connectors, identity, more).value;
            Injective(grown) && forall key :: key in connectors ==> key in grown && grown[key] == connectors[key]
    ensures forall key :: key in AddConnectors(connectors, identity, more).value && key !in connectors ==>
              AddConnectors(connectors, identity, more).value[key] !in connectors.Values
    decreases |more|
  {
    if more != [] {
      var (connector, number) := more[0];
      if connector in connectors.Values {
        AddConnectorsGrows(connectors, identity, more[1..]);
      } else {
        var next := connectors[(identity, number) := connector];
        AddConnectorsGrows(next, identity, more[1..]);
        forall key | key in connectors ensures connectors[key] in next.Values {
          assert next[key] == connectors[key];
        }
      }
    }
  }

  lemma SyncKeeps(db: Db, identity: Id, charger: Charger, more: seq<(Id, int)>)
    requires Inv(db)
    ensures Inv(SyncMapping(db, identity, charger, more).0)
  {
    var db' := SyncMapping(db, identity, charger, more).0;
    if db' != db {
      AddConnectorsGrows(db.connectors, identity, more);
      forall i | i in db'.runtime ensures RuntimeRow(db', i) { if i in db.runtime { assert RuntimeRow(db, i); } }
      forall key | key in db'.connectors ensures StatusRow(db', key) {
        if key in db.connectors { assert StatusRow(db, key); }
      }
      forall c | c !in db'.connectors.Values ensures StatusFacts(db'.facts, c, 0) {
        assert forall key :: key in db.connectors ==> db'.connectors[key] != c;
        assert StatusFacts(db.facts, c, 0);
      }
    }
  }

  lemma WroteKeeps(db: Db, identity: Id, row: Runtime, at: Time)
    requires Inv(db) && identity in db.runtime
    requires row.sequence == db.runtime[identity].sequence + 1
    requires row.generation > 0 && row.state != Unknown
    ensures Inv(Wrote(db, identity, row, at))
  {
    var db' := Wrote(db, identity, row, at);
    assert RuntimeRow(db, identity);
    forall i | i in db'.runtime ensures RuntimeRow(db', i) { assert RuntimeRow(db, i); }
    forall key | key in db'.connectors ensures StatusRow(db', key) { assert StatusRow(db, key); }
    forall c | c !in db'.connectors.Values ensures StatusFacts(db'.facts, c, 0) { assert StatusFacts(db.facts, c, 0); }
    forall i | i !in db'.runtime ensures ConnectionFacts(db'.facts, i, 0) { assert ConnectionFacts(db.facts, i, 0); }
  }

  lemma StatusKeeps(db: Db, identity: Id, number: int, status: Id, at: Time)
    requires Inv(db)
    ensures Inv(RecordStatus(db, identity, number, status, at).0)
  {
    var db' := RecordStatus(db, identity, number, status, at).0;
    if db' != db {
      var own := (identity, number);
      assert StatusRow(db, own);
      forall i | i in db'.runtime ensures RuntimeRow(db', i) { assert RuntimeRow(db, i); }
      forall key | key in db'.connectors ensures StatusRow(db', key) { assert StatusRow(db, key); }
      forall c | c !in db'.connectors.Values ensures StatusFacts(db'.facts, c, 0) { assert StatusFacts(db.facts, c, 0); }
      forall i | i !in db'.runtime ensures ConnectionFacts(db'.facts, i, 0) { assert ConnectionFacts(db.facts, i, 0); }
    }
  }

  /** What the reset publishes: one fact per charger that was not UNKNOWN, numbered next. */
  lemma ResetFacts(db: Db, at: Time)
    ensures forall k :: k in Reset(db, at).facts <==> k in db.facts || ResetPublishes(db, k)
    ensures forall k :: k in db.facts ==> Reset(db, at).facts[k] == db.facts[k]
    ensures forall k :: k !in db.facts && ResetPublishes(db, k) ==> Reset(db, at).facts[k] == Connection(Unknown, 0, Stored(at))
  {
    var added := set i | i in db.runtime && i in db.chargers && db.runtime[i].state != Unknown
                     :: ConnectionKey(i, db.runtime[i].sequence + 1);
    assert forall k :: k in added <==> ResetPublishes(db, k);
    assert Reset(db, at).facts.Keys == db.facts.Keys + added;
  }

  lemma ResetKeeps(db: Db, at: Time)
    requires Inv(db)
    ensures Inv(Reset(db, at))
  {
    var db' := Reset(db, at);
    ResetFacts(db, at);
    forall i | i in db'.runtime ensures RuntimeRow(db', i) {
      assert RuntimeRow(db, i);
      forall k: nat ensures ConnectionKey(i, k) in db'.facts <==> 1 <= k <= db'.runtime[i].sequence {
        assert ResetPublishes(db, ConnectionKey(i, k)) <==> db.runtime[i].state != Unknown && k == db.runtime[i].sequence + 1;
      }
    }
    forall key | key in db'.connectors ensures StatusRow(db', key) { assert StatusRow(db, key); }
    forall c | c !in db'.connectors.Values ensures StatusFacts(db'.facts, c, 0) { assert StatusFacts(db.facts, c, 0); }
    forall i | i !in db'.runtime ensures ConnectionFacts(db'.facts, i, 0) { assert ConnectionFacts(db.facts, i, 0); }
  }

  lemma StepKeeps(db: Db, step: Step)
    requires Inv(db)
    ensures Inv(Apply(db, step))
  {
    match step
    case Sync(i, charger, more) => SyncKeeps(db, i, charger, more);
    case Observe(i, o, at) =>
      if i in db.runtime && Accepts(db.runtime[i], o) {
        assert RuntimeRow(db, i);
        WroteKeeps(db, i, Observed(db.runtime[i], o, at), at);
      }
    case Heartbeat(i, generation, at) =>
      if i in db.runtime && Renews(db.runtime[i], generation, at) {
        assert RuntimeRow(db, i);
        WroteKeeps(db, i, Renewed(db.runtime[i], generation, at), at);
      }
    case StatusNotified(i, number, status, at) => StatusKeeps(db, i, number, status, at);
    case Restart(at) => ResetKeeps(db, at);
  }

  lemma {:induction false} RunKeeps(db: Db, steps: seq<Step>)
    requires Inv(db)
    ensures Inv(Run(db, steps))
    decreases |steps|
  {
    if steps != [] {
      StepKeeps(db, steps[0]);
      RunKeeps(Apply(db, steps[0]), steps[1..]);
    }
  }

  /**
   * Over every run with restarts: the connection facts of a charger and the status facts of a
   * connector carry exactly 1..n, n being the row's counter, and the last one repeats the row.
   */
  lemma GaplessRuntimeFacts(steps: seq<Step>)
    ensures var db := Run(EMPTY, steps);
            && (forall i :: i in db.runtime ==>
                  && ConnectionFacts(db.facts, i, db.runtime[i].sequence)
                  && (db.runtime[i].sequence > 0 ==>
                        var last := db.facts[ConnectionKey(i, db.runtime[i].sequence)];
                        last.Connection? && last.state == db.runtime[i].state && last.generation == db.runtime[i].generation))
            && (forall key :: key in db.connectors ==>
                  StatusFacts(db.facts, db.connectors[key], StatusSequence(db, key)))
  {
    RunKeeps(EMPTY, steps);
    var db := Run(EMPTY, steps);
    assert forall i :: i in db.runtime ==> RuntimeRow(db, i);
    assert forall key :: key in db.connectors ==> StatusRow(db, key);
  }
}
