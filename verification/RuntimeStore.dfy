/**
 * The connection methods of the store (internal/store/v1_postgres.go) statement by statement,
 * each proved to commit the step of ConnectionRuntime that its run theorems are about.
 * An observation that the upsert's guard refuses publishes no fact, and a reset publishes
 * one fact for every row that its two updates return, in any order of the rows. The audit
 * entries of a mapping sync are kept beside the rows.
 */
module RuntimeStore {
  import opened Base
  import opened ConnectionRuntime

  ghost function KeysOf(runtime: map<Id, Runtime>, changed: set<Id>): set<Key> {
    set i | i in changed && i in runtime :: ConnectionKey(i, runtime[i].sequence)
  }

  /** The rows that the reset returns carry the numbers that follow the old ones. */
  lemma SameKeys(before: map<Id, Runtime>, after: map<Id, Runtime>, chargers: map<Id, Charger>, changed: set<Id>)
    requires forall i :: i in changed <==> i in before && i in chargers && before[i].state != Unknown
    requires forall i :: i in changed ==> i in after && after[i].sequence == before[i].sequence + 1
    ensures KeysOf(after, changed) ==
            set i | i in before && i in chargers && before[i].state != Unknown :: ConnectionKey(i, before[i].sequence + 1)
  {
    var expected := set i | i in before && i in chargers && before[i].state != Unknown :: ConnectionKey(i, before[i].sequence + 1);
    forall k | k in KeysOf(after, changed) ensures k in expected {}
    forall k | k in expected ensures k in KeysOf(after, changed) {
      assert k == ConnectionKey(k.identity, after[k.identity].sequence);
    }
  }

  lemma OneMoreKey(runtime: map<Id, Runtime>, changed: set<Id>, rest: set<Id>, i: Id)
    requires i in changed && i in runtime && i !in rest
    ensures KeysOf(runtime, changed - rest) == KeysOf(runtime, changed - (rest + {i})) + {ConnectionKey(i, runtime[i].sequence)}
  {
    assert changed - rest == (changed - (rest + {i})) + {i};
  }

  /** The outbox with UNKNOWN published under new keys. */
  ghost function WithUnknown(facts: map<Key, Content>, keys: set<Key>, at: Time): map<Key, Content> {
    map k | k in facts.Keys + keys :: if k in facts then facts[k] else Connection(Unknown, 0, Stored(at))
  }

  lemma OneMoreUnknown(facts: map<Key, Content>, keys: set<Key>, key: Key, at: Time)
    ensures WithUnknown(facts, keys + {key}, at) == Publish(WithUnknown(facts, keys, at), key, Connection(Unknown, 0, Stored(at)))
  {}

  class Store {
    var chargers: map<Id, Charger>
    var connectors: map<(Id, int), Id>
    var runtime: map<Id, Runtime>
    var statuses: map<(Id, int), ConnectorStatus>
    var facts: map<Key, Content>
    var audit: seq<Audit>

    function Tables(): Db
      reads this
    {
      Db(chargers, connectors, runtime, statuses, facts, audit)
    }

    constructor ()
      ensures Tables() == EMPTY
    {
      chargers, connectors, runtime, statuses, facts, audit := map[], map[], map[], map[], map[], [];
    }

    method InsertFactTx(key: Key, content: Content)
      modifies this`facts
      ensures facts == Publish(old(facts), key, content)
    {
      if key !in facts {
        facts := facts[key := content];
      }
    }

    /** Inserts the connectors one by one; a conflicting one refuses the whole mapping. */
    method InsertConnectors(identity: Id, more: seq<(Id, int)>) returns (r: Result<()>)
      modifies this`connectors
      ensures var added := AddConnectors(old(connectors), identity, more);
              if added.Ok? then r == Ok(()) && connectors == added.value
              else r == Err(added.error) && connectors == old(connectors)
    {
      var saved := connectors;
      var k := 0;
      while k < |more|
        invariant 0 <= k <= |more|
        invariant AddConnectors(connectors, identity, more[k..]) == AddConnectors(old(connectors), identity, more)
      {
        var (connector, number) := more[k];
        assert more[k..][0] == more[k] && more[k..][1..] == more[k + 1..];
        var bound := connector in connectors.Values;
        if bound && !((identity, number) in connectors && connectors[(identity, number)] == connector) {
          connectors := saved;
          return Err(IdempotencyConflict);
        }
        if !bound {
          if (identity, number) in connectors {
            connectors := saved;
            return Err(IdempotencyConflict);
          }
          connectors := connectors[(identity, number) := connector];
        }
        k := k + 1;
      }
      r := Ok(());
    }

    method SyncChargerMapping(identity: Id, charger: Charger, more: seq<(Id, int)>) returns (r: Result<bool>)
      modifies this
      ensures (Tables(), r) == SyncMapping(old(Tables()), identity, charger, more)
    {
      var known := exists i :: i in chargers && chargers[i].cmsCharger == charger.cmsCharger;
      if known {
        if identity !in chargers || chargers[identity].cmsCharger != charger.cmsCharger || chargers[identity].cpo != charger.cpo {
          return Err(IdempotencyConflict);
        }
      } else if identity in chargers {
        return Err(IdempotencyConflict);
      }
      var inserted := InsertConnectors(identity, more);
      if inserted.Err? {
        return Err(inserted.error);
      }
      if !known {
        audit := audit + [Enrolled(charger.cmsCharger)];
      } else if chargers[identity].enabled != charger.enabled {
        audit := audit + [EnablementChanged(charger.cmsCharger)];
      } else {
        assert audit == audit + [];
      }
      chargers := chargers[identity := charger];
      if identity !in runtime {
        runtime := runtime[identity := Runtime(Unknown, 0, 0, None, None)];
      }
      r := Ok(known);
    }

    method RecordConnection(identity: Id, o: Observation, at: Time) returns (r: Result<()>)
      modifies this`runtime, this`facts
      ensures (Tables(), r) == Record(old(Tables()), identity, o, at)
    {
      if identity !in chargers {
        return Err(NotFound);
      }
      if !chargers[identity].enabled {
        return Err(CredentialRejected);
      }
      var state := if o.online then Online else Offline;
      if identity !in runtime {
        runtime := runtime[identity := Runtime(state, o.generation, 1, if o.online then Some(Stored(at)) else None, Some(Stored(at)))];
      } else {
        var row := runtime[identity];
        if !(o.generation > row.generation || (o.generation == row.generation && row.state == Online && state == Offline)) {
          return Ok(());
        }
        runtime := runtime[identity := row.(
          state := state, generation := o.generation, sequence := row.sequence + 1,
          connectedAt := if o.online then Some(Stored(at)) else row.connectedAt, lastObservedAt := Some(Stored(at)))];
      }
      InsertFactTx(ConnectionKey(identity, runtime[identity].sequence), Connection(state, o.generation, Stored(at)));
      r := Ok(());
    }

    method RenewConnection(identity: Id, generation: int, at: Time) returns (r: Result<()>)
      modifies this`runtime, this`facts
      ensures (Tables(), r) == Renew(old(Tables()), identity, generation, at)
    {
      if identity !in chargers {
        return Err(NotFound);
      }
      if !chargers[identity].enabled {
        return Err(CredentialRejected);
      }
      if identity !in runtime || runtime[identity].generation != generation || runtime[identity].state != Online {
        return Ok(());
      }
      var row := runtime[identity];
      if row.lastObservedAt.None? || row.lastObservedAt.value >= Stored(at) {
        return Ok(());
      }
      runtime := runtime[identity := row.(lastObservedAt := Some(Stored(at)), sequence := row.sequence + 1)];
      InsertFactTx(ConnectionKey(identity, row.sequence + 1), Connection(Online, generation, Stored(at)));
      r := Ok(());
    }

    method RecordConnectorStatus(identity: Id, number: int, status: Id, at: Time) returns (r: Result<()>)
      modifies this`statuses, this`facts
      ensures (Tables(), r) == RecordStatus(old(Tables()), identity, number, status, at)
    {
      var key := (identity, number);
      if identity !in chargers || key !in connectors {
        return Err(NotFound);
      }
      if !chargers[identity].enabled {
        return Err(CredentialRejected);
      }
      var sequence := 1;
      if key in statuses {
        sequence := statuses[key].sequence + 1;
      }
      statuses := statuses[key := ConnectorStatus(status, sequence, Stored(at))];
      InsertFactTx(StatusKey(connectors[key], sequence), Status(status, Stored(at)));
      r := Ok(());
    }

    /** Both UPDATE statements of the startup reset, then one fact per row that the second returned. */
    method ResetRuntime(at: Time)
      modifies this`runtime, this`facts
      ensures Tables() == Reset(old(Tables()), at)
    {
      var unfenced := map i | i in runtime ::
        if i in chargers && runtime[i].generation != 0 then runtime[i].(generation := 0) else runtime[i];
      var changed := set i | i in unfenced && i in chargers && unfenced[i].state != Unknown;
      runtime := map i | i in unfenced ::
        if i in changed then unfenced[i].(state := Unknown, sequence := unfenced[i].sequence + 1) else unfenced[i];
      assert runtime == Reset(old(Tables()), at).runtime;
      PublishReset(changed, at);
      SameKeys(old(runtime), runtime, chargers, changed);
    }

    method PublishReset(changed: set<Id>, at: Time)
      requires changed <= runtime.Keys
      modifies this`facts
      ensures facts == WithUnknown(old(facts), KeysOf(runtime, changed), at)
    {
      var pending := changed;
      assert KeysOf(runtime, changed - pending) == {};
      assert facts == WithUnknown(facts, {}, at);
      while pending != {}
        invariant pending <= changed && runtime == old(runtime)
        invariant facts == WithUnknown(old(facts), KeysOf(runtime, changed - pending), at)
        decreases |pending|
      {
        var i :| i in pending;
        ghost var keys := KeysOf(runtime, changed - pending);
        assert pending == (pending - {i}) + {i};
        pending := pending - {i};
        OneMoreKey(runtime, changed, pending, i);
        OneMoreUnknown(old(facts), keys, ConnectionKey(i, runtime[i].sequence), at);
        InsertFactTx(ConnectionKey(i, runtime[i].sequence), Connection(Unknown, 0, Stored(at)));
      }
      assert changed - pending == changed;
    }
  }
}
