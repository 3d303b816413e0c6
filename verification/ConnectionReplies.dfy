/** What each connection request gets and writes, when a mapping is consistent, and which status a connector shows. */
module ConnectionReplies {
  import opened Base
  import opened ConnectionRuntime

  // ----- mapping -----

  /** A connector table that keeps the old entries, has the new ones, and gives no connector two places. */
  ghost predicate Extends(grown: map<(Id, int), Id>, connectors: map<(Id, int), Id>, identity: Id, more: seq<(Id, int)>) {
    && Injective(grown)
    && (forall key :: key in connectors ==> key in grown && grown[key] == connectors[key])
    && (forall k :: 0 <= k < |more| ==> (identity, more[k].1) in grown && grown[(identity, more[k].1)] == more[k].0)
  }

  ghost predicate Consistent(connectors: map<(Id, int), Id>, identity: Id, more: seq<(Id, int)>) {
    exists grown :: Extends(grown, connectors, identity, more)
  }

  /** The connectors are taken up exactly if some table has room for them all, and then nothing else is added. */
  lemma {:induction false} AddedIffConsistent(connectors: map<(Id, int), Id>, identity: Id, more: seq<(Id, int)>)
    requires Injective(connectors)
    ensures AddConnectors(connectors, identity, more).Ok? <==> Consistent(connectors, identity, more)
    ensures var r := AddConnectors(connectors, identity, more);
            if r.Ok? then
              && Extends(r.value, connectors, identity, more)
              && r.value.Keys == connectors.Keys + set k | 0 <= k < |more| :: (identity, more[k].1)
            else r == Err(IdempotencyConflict)
    decreases |more|
  {
    if more == [] {
      assert Extends(connectors, connectors, identity, more);
    } else {
      var (connector, number) := more[0];
      var next := connectors[(identity, number) := connector];
      FirstFits(connectors, identity, more);
      if Fits(connectors, identity, more[0]) {
        AddedIffConsistent(next, identity, more[1..]);
        SameWithFirst(connectors, identity, more);
        FirstAdded(connectors, identity, more);
      }
    }
  }

  /** The place is this connector's already, or both are new. */
  predicate Fits(connectors: map<(Id, int), Id>, identity: Id, first: (Id, int)) {
    if (identity, first.1) in connectors then connectors[(identity, first.1)] == first.0 else first.0 !in connectors.Values
  }

  lemma FirstFits(connectors: map<(Id, int), Id>, identity: Id, more: seq<(Id, int)>)
    requires Injective(connectors) && more != []
    ensures Consistent(connectors, identity, more) ==> Fits(connectors, identity, more[0])
    ensures AddConnectors(connectors, identity, more) ==
            if Fits(connectors, identity, more[0])
            then AddConnectors(connectors[(identity, more[0].1) := more[0].0], identity, more[1..]) else Err(IdempotencyConflict)
  {
    if Consistent(connectors, identity, more) {
      var grown :| Extends(grown, connectors, identity, more);
      assert (identity, more[0].1) in grown && grown[(identity, more[0].1)] == more[0].0;
    }
    if (identity, more[0].1) in connectors && connectors[(identity, more[0].1)] == more[0].0 {
      assert connectors[(identity, more[0].1) := more[0].0] == connectors;
    }
  }

  lemma SameWithFirst(connectors: map<(Id, int), Id>, identity: Id, more: seq<(Id, int)>)
    requires Injective(connectors) && more != [] && Fits(connectors, identity, more[0])
    ensures var next := connectors[(identity, more[0].1) := more[0].0];
            && Injective(next)
            && forall grown :: Extends(grown, connectors, identity, more) <==> Extends(grown, next, identity, more[1..])
  {
    var next := connectors[(identity, more[0].1) := more[0].0];
    forall grown ensures Extends(grown, connectors, identity, more) <==> Extends(grown, next, identity, more[1..]) {
      if Extends(grown, next, identity, more[1..]) {
        forall k | 0 <= k < |more| ensures (identity, more[k].1) in grown && grown[(identity, more[k].1)] == more[k].0 {
          assert k > 0 ==> more[k] == more[1..][k - 1];
        }
      }
      if Extends(grown, connectors, identity, more) {
        assert (identity, more[0].1) in grown && grown[(identity, more[0].1)] == more[0].0;
      }
    }
  }

  lemma FirstAdded(connectors: map<(Id, int), Id>, identity: Id, more: seq<(Id, int)>)
    requires more != []
    ensures connectors[(identity, more[0].1) := more[0].0].Keys + (set k | 0 <= k < |more[1..]| :: (identity, more[1..][k].1)) ==
            connectors.Keys + set k | 0 <= k < |more| :: (identity, more[k].1)
  {
    var rest, all := set k | 0 <= k < |more[1..]| :: (identity, more[1..][k].1), set k | 0 <= k < |more| :: (identity, more[k].1);
    forall key | key in all ensures key in rest || key == (identity, more[0].1) {
      var k :| 0 <= k < |more| && key == (identity, more[k].1);
      assert k > 0 ==> more[k] == more[1..][k - 1];
    }
    forall key | key in rest ensures key in all {
      var k :| 0 <= k < |more[1..]| && key == (identity, more[1..][k].1);
      assert more[1..][k] == more[k + 1];
    }
  }

  /** The charger is new under both of its names, or known by both for the same CPO. */
  ghost predicate Identifies(db: Db, identity: Id, charger: Charger) {
    if identity in db.chargers then db.chargers[identity].cmsCharger == charger.cmsCharger && db.chargers[identity].cpo == charger.cpo
    else forall i :: i in db.chargers ==> db.chargers[i].cmsCharger != charger.cmsCharger
  }

  /** A mapping is taken up exactly if it identifies one charger and its connectors are consistent; otherwise nothing changes. */
  lemma SyncReplies(db: Db, identity: Id, charger: Charger, more: seq<(Id, int)>)
    requires Injective(db.connectors)
    ensures var r := SyncMapping(db, identity, charger, more);
            if !Identifies(db, identity, charger) || !Consistent(db.connectors, identity, more) then
              r == (db, Err(IdempotencyConflict))
            else
              && r.1 == Ok(identity in db.chargers)
              && r.0 == db.(chargers := db.chargers[identity := charger], connectors := r.0.connectors,
                            runtime := r.0.runtime, audit := r.0.audit)
              && Extends(r.0.connectors, db.connectors, identity, more)
              && r.0.connectors.Keys == (db.connectors.Keys + set k | 0 <= k < |more| :: (identity, more[k].1))
              && r.0.runtime == (if identity in db.runtime then db.runtime else db.runtime[identity := Runtime(Unknown, 0, 0, None, None)])
              && r.0.audit == (if identity !in db.chargers then db.audit + [Enrolled(charger.cmsCharger)]
                               else if db.chargers[identity].enabled != charger.enabled
                               then db.audit + [EnablementChanged(charger.cmsCharger)] else db.audit)
  {
    AddedIffConsistent(db.connectors, identity, more);
    SyncKnown(db, identity, charger);
  }

  lemma SyncKnown(db: Db, identity: Id, charger: Charger)
    ensures var known := exists i :: i in db.chargers && db.chargers[i].cmsCharger == charger.cmsCharger;
            var same := identity in db.chargers && db.chargers[identity].cmsCharger == charger.cmsCharger
                        && db.chargers[identity].cpo == charger.cpo;
            && (Identifies(db, identity, charger) <==> !((known && !same) || (!known && identity in db.chargers)))
            && (Identifies(db, identity, charger) ==> (known <==> identity in db.chargers))
  {
    assert identity in db.chargers ==> db.chargers[identity].cmsCharger == db.chargers[identity].cmsCharger;
  }

  // ----- observations -----

  /** Who may report: an enabled charger that is mapped. */
  function Refusal(db: Db, identity: Id): Option<Error> {
    if identity !in db.chargers then Some(NotFound)
    else if !db.chargers[identity].enabled then Some(CredentialRejected) else None
  }

  /** The row moved to `row` and one fact with its number says so. */
  ghost predicate Published(a: Db, b: Db, identity: Id, row: Runtime, at: Time) {
    && identity in b.runtime && b.runtime[identity] == row
    && b == a.(runtime := a.runtime[identity := row],
               facts := a.facts[ConnectionKey(identity, row.sequence) := Connection(row.state, row.generation, Stored(at))])
  }

  /**
   * A connection observation of an enabled charger is stored exactly if it is news: a higher generation, or the end
   * of the current connection. It then shows state, generation and both times, and is published under the next number.
   */
  lemma ObservationReplies(steps: seq<Step>, identity: Id, o: Observation, at: Time)
    requires o.generation >= 1
    ensures var db := Run(EMPTY, steps);
            var r := Record(db, identity, o, at);
            && r.1 == (if Refusal(db, identity).Some? then Err(Refusal(db, identity).value) else Ok(()))
            && (r.1.Err? ==> r.0 == db)
            && (r.1.Ok? ==>
                  && identity in db.runtime
                  && var row := db.runtime[identity];
                  if row.generation < o.generation || (row.generation == o.generation && row.state == Online && !o.online) then
                    Published(db, r.0, identity,
                              Runtime(if o.online then Online else Offline, o.generation, row.sequence + 1,
                                      if o.online then Some(Stored(at)) else row.connectedAt, Some(Stored(at))), at)
                  else r.0 == db)
  {
    RunKeeps(EMPTY, steps);
    var db := Run(EMPTY, steps);
    if identity in db.runtime { assert RuntimeRow(db, identity); }
  }

  /** A heartbeat renews exactly the current online generation, and only forwards in whole microseconds. */
  lemma HeartbeatReplies(steps: seq<Step>, identity: Id, generation: int, at: Time)
    ensures var db := Run(EMPTY, steps);
            var r := Renew(db, identity, generation, at);
            && r.1 == (if Refusal(db, identity).Some? then Err(Refusal(db, identity).value) else Ok(()))
            && (r.1.Err? ==> r.0 == db)
            && (r.1.Ok? ==>
                  && identity in db.runtime
                  && var row := db.runtime[identity];
                  if row.generation == generation && row.state == Online && row.lastObservedAt.Some?
                     && row.lastObservedAt.value < Stored(at) then
                    Published(db, r.0, identity, Runtime(Online, generation, row.sequence + 1, row.connectedAt, Some(Stored(at))), at)
                  else r.0 == db)
  {
    RunKeeps(EMPTY, steps);
    var db := Run(EMPTY, steps);
    if identity in db.runtime { assert RuntimeRow(db, identity); }
  }

  /** A restart makes every mapped charger UNKNOWN and below every live generation, and counts those that were not. */
  lemma RestartResets(db: Db, at: Time, identity: Id)
    requires identity in db.runtime
    ensures var r := Reset(db, at);
            && identity in r.runtime && r.runtime.Keys == db.runtime.Keys
            && r == db.(runtime := r.runtime, facts := r.facts)
            && var row := db.runtime[identity];
            r.runtime[identity] ==
              if identity !in db.chargers then row
              else Runtime(Unknown, 0, if row.state == Unknown then row.sequence else row.sequence + 1, row.connectedAt, row.lastObservedAt)
  {}

  // ----- connector status -----

  /** The status of a known connector of an enabled charger is accepted. */
  predicate Reported(db: Db, step: Step, key: (Id, int)) {
    && step.StatusNotified? && key == (step.identity, step.number) && key in db.connectors
    && Refusal(db, step.identity) == None
  }

  lemma StatusReplies(steps: seq<Step>, identity: Id, number: int, status: Id, at: Time)
    ensures var db := Run(EMPTY, steps);
            var r := RecordStatus(db, identity, number, status, at);
            if identity !in db.chargers || (identity, number) !in db.connectors then r == (db, Err(NotFound))
            else if !db.chargers[identity].enabled then r == (db, Err(CredentialRejected))
            else
              var next := StatusSequence(db, (identity, number)) + 1;
              && r.1 == Ok(())
              && r.0 == db.(statuses := db.statuses[(identity, number) := ConnectorStatus(status, next, Stored(at))],
                            facts := db.facts[StatusKey(db.connectors[(identity, number)], next) := Status(status, Stored(at))])
  {
    RunKeeps(EMPTY, steps);
    var db := Run(EMPTY, steps);
    if (identity, number) in db.connectors { assert StatusRow(db, (identity, number)); }
  }

  lemma StepStatus(db: Db, step: Step, key: (Id, int))
    ensures var r := Apply(db, step);
            if Reported(db, step, key) then
              key in r.statuses && r.statuses[key].status == step.status && r.statuses[key].observedAt == Stored(step.at)
            else (key in r.statuses <==> key in db.statuses) && (key in db.statuses ==> r.statuses[key] == db.statuses[key])
  {}

  ghost predicate NeverReported(db: Db, steps: seq<Step>, key: (Id, int)) {
    forall k :: 0 <= k < |steps| ==> !Reported(Run(db, steps[..k]), steps[k], key)
  }

  ghost predicate ReportedLast(db: Db, steps: seq<Step>, k: nat, key: (Id, int)) {
    k < |steps| && Reported(Run(db, steps[..k]), steps[k], key) && NeverReported(Run(db, steps[..k + 1]), steps[k + 1..], key)
  }

  /** A connector shows the last status accepted for it, or still what it showed before. */
  lemma {:induction false} ShowsLastStatus(db: Db, steps: seq<Step>, key: (Id, int)) returns (k: nat)
    ensures var r := Run(db, steps);
            if NeverReported(db, steps, key) then
              (key in r.statuses <==> key in db.statuses) && (key in db.statuses ==> r.statuses[key] == db.statuses[key])
            else
              && ReportedLast(db, steps, k, key)
              && key in r.statuses && r.statuses[key].status == steps[k].status && r.statuses[key].observedAt == Stored(steps[k].at)
    decreases |steps|
  {
    k := 0;
    if steps != [] {
      var next, rest := Apply(db, steps[0]), steps[1..];
      StepStatus(db, steps[0], key);
      var l := ShowsLastStatus(next, rest, key);
      Shifted(db, steps, key);
      assert Run(db, steps[..1]) == next by { assert steps[..1][1..] == []; }
      if !NeverReported(next, rest, key) {
        k := l + 1;
        assert steps[..k][1..] == rest[..l] && steps[..k + 1][1..] == rest[..l + 1] && steps[k + 1..] == rest[l + 1..];
      }
    }
  }

  lemma Shifted(db: Db, steps: seq<Step>, key: (Id, int))
    requires steps != []
    ensures NeverReported(db, steps, key) <==> !Reported(db, steps[0], key) && NeverReported(Apply(db, steps[0]), steps[1..], key)
  {
    var next, rest := Apply(db, steps[0]), steps[1..];
    forall k | 0 <= k < |rest| ensures Run(db, steps[..k + 1]) == Run(next, rest[..k]) {
      assert steps[..k + 1][1..] == rest[..k];
    }
    if NeverReported(db, steps, key) {
      assert Run(db, steps[..0]) == db;
      forall k | 0 <= k < |rest| ensures !Reported(Run(next, rest[..k]), rest[k], key) {
        assert !Reported(Run(db, steps[..k + 1]), steps[k + 1], key);
      }
    }
    if !Reported(db, steps[0], key) && NeverReported(next, rest, key) {
      forall k | 0 <= k < |steps| ensures !Reported(Run(db, steps[..k]), steps[k], key) {
        assert k > 0 ==> !Reported(Run(next, rest[..k - 1]), rest[k - 1], key);
        assert k > 0 ==> steps[..k][1..] == rest[..k - 1];
      }
    }
  }
}
