/**
 * Connection observations may reach the store late, repeated and out of order (internal/ocpp16hal/connections.go):
 * the row converges to the lexicographic maximum of (generation, OFFLINE above ONLINE) and so to what the tracker knows.
 */
module ConnectionConvergence {
  import opened Base
  import opened ConnectionRuntime

  // ----- the in-process tracker -----

  datatype Live = Live(key: Id, generation: nat)

  class ConnectionTracker {
    var next: nat
    var active: map<Id, Live>

    constructor ()
      ensures next == 0 && active == map[]
    {
      next, active := 0, map[];
    }

    ghost predicate Valid()
      reads this
    {
      && (forall i :: i in active ==> 1 <= active[i].generation <= next)
      && (forall i, j :: i in active && j in active && active[i].generation == active[j].generation ==> i == j)
    }

    method Register(charger: Id, key: Id) returns (current: Live, previous: Option<Live>)
      requires Valid()
      modifies this
      ensures Valid() && next == old(next) + 1 && current == Live(key, next)
      ensures active == old(active)[charger := current]
      ensures previous == if charger in old(active) then Some(old(active)[charger]) else None
      ensures forall i :: i in old(active) ==> old(active)[i].generation < current.generation
    {
      next := next + 1;
      current := Live(key, next);
      previous := if charger in active then Some(active[charger]) else None;
      active := active[charger := current];
    }

    /** A stale disconnect, one whose key is no longer current, changes nothing. */
    method UnregisterIfCurrent(charger: Id, key: Id) returns (removed: bool, current: Option<Live>)
      requires Valid()
      modifies this
      ensures Valid() && next == old(next)
      ensures current == if charger in old(active) then Some(old(active)[charger]) else None
      ensures removed <==> charger in old(active) && old(active)[charger].key == key
      ensures active == if removed then old(active) - {charger} else old(active)
    {
      if charger !in active {
        return false, None;
      }
      current := Some(active[charger]);
      if active[charger].key != key {
        return false, current;
      }
      active := active - {charger};
      removed := true;
    }
  }

  // ----- folding observations into one row -----

  /** Position of a row in the order (generation, OFFLINE above ONLINE); UNKNOWN lies below all. */
  function Level(row: Runtime): int {
    if row.state == Unknown then 0 else 2 * row.generation + (if row.state == Offline then 1 else 0)
  }

  function LevelOf(o: Observation): int {
    2 * o.generation + (if o.online then 0 else 1)
  }

  predicate Sane(row: Runtime) {
    row.generation >= 0 && (row.state == Unknown <==> row.generation == 0)
  }

  datatype Event = Seen(o: Observation, at: Time) | Beat(generation: int, at: Time)

  function Receive(row: Runtime, e: Event): Runtime {
    match e
    case Seen(o, at) => Observed(row, o, at)
    case Beat(generation, at) => Renewed(row, generation, at)
  }

  function ReceiveAll(row: Runtime, events: seq<Event>): Runtime
    decreases |events|
  {
    if events == [] then row else ReceiveAll(Receive(row, events[0]), events[1..])
  }

  predicate FromTracker(events: seq<Event>) {
    forall i :: 0 <= i < |events| && events[i].Seen? ==> events[i].o.generation >= 1
  }

  /** The SQL guard is exactly "strictly higher in the order", and an accepted row takes that place. */
  lemma GuardIsOrder(row: Runtime, o: Observation, at: Time)
    requires Sane(row) && o.generation >= 1
    ensures Accepts(row, o) <==> LevelOf(o) > Level(row)
    ensures Sane(Observed(row, o, at))
    ensures Level(Observed(row, o, at)) == if LevelOf(o) > Level(row) then LevelOf(o) else Level(row)
  {}

  ghost predicate IsMaximum(level: int, row: Runtime, events: seq<Event>) {
    && level >= Level(row)
    && (forall i :: 0 <= i < |events| && events[i].Seen? ==> level >= LevelOf(events[i].o))
    && (level == Level(row) || exists i :: 0 <= i < |events| && events[i].Seen? && level == LevelOf(events[i].o))
  }

  /** Whatever the arrival order, repetitions and renewals in between, the row ends at the maximum. */
  lemma {:induction false} EndsAtMaximum(row: Runtime, events: seq<Event>)
    requires Sane(row) && FromTracker(events)
    ensures Sane(ReceiveAll(row, events)) && IsMaximum(Level(ReceiveAll(row, events)), row, events)
    decreases |events|
  {
    if events != [] {
      var first, rest := events[0], events[1..];
      var mid := Receive(row, first);
      if first.Seen? { GuardIsOrder(row, first.o, first.at); }
      EndsAtMaximum(mid, rest);
      var level := Level(ReceiveAll(row, events));
      forall i | 0 <= i < |events| && events[i].Seen? ensures level >= LevelOf(events[i].o) {
        assert i > 0 ==> events[i] == rest[i - 1];
      }
      if level != Level(row) && level != Level(mid) {
        var i :| 0 <= i < |rest| && rest[i].Seen? && level == LevelOf(rest[i].o);
        assert events[i + 1].Seen? && level == LevelOf(events[i + 1].o);
      }
    }
  }

  ghost function ObservationsIn(events: seq<Event>): set<Observation> {
    set i | 0 <= i < |events| && events[i].Seen? :: events[i].o
  }

  /** Deliveries of the same set of observations agree on state and generation. */
  lemma OrderAndDuplicatesDoNotMatter(row: Runtime, a: seq<Event>, b: seq<Event>)
    requires Sane(row) && FromTracker(a) && FromTracker(b) && ObservationsIn(a) == ObservationsIn(b)
    ensures ReceiveAll(row, a).state == ReceiveAll(row, b).state
    ensures ReceiveAll(row, a).generation == ReceiveAll(row, b).generation
  {
    EndsAtMaximum(row, a);
    EndsAtMaximum(row, b);
    NotHigher(row, a, b);
    NotHigher(row, b, a);
  }

  lemma NotHigher(row: Runtime, a: seq<Event>, b: seq<Event>)
    requires Sane(row) && FromTracker(a) && FromTracker(b) && ObservationsIn(a) <= ObservationsIn(b)
    ensures Level(ReceiveAll(row, a)) <= Level(ReceiveAll(row, b))
  {
    EndsAtMaximum(row, a);
    EndsAtMaximum(row, b);
    var level := Level(ReceiveAll(row, a));
    if level != Level(row) {
      var i :| 0 <= i < |a| && a[i].Seen? && level == LevelOf(a[i].o);
      assert a[i].o in ObservationsIn(a);
      var j :| 0 <= j < |b| && b[j].Seen? && b[j].o == a[i].o;
    }
  }

  // ----- tracker and store together -----

  /** What one process emits and what the store has taken in, per charger. */
  datatype World = World(
    next: nat, active: map<Id, Live>,
    last: map<Id, nat>, emitted: map<Id, set<Observation>>, delivered: map<Id, set<Observation>>,
    rows: map<Id, Runtime>)

  const FRESH: Runtime := Runtime(Unknown, 0, 0, None, None)

  function RowOf(w: World, i: Id): Runtime { if i in w.rows then w.rows[i] else FRESH }
  function EmittedBy(w: World, i: Id): set<Observation> { if i in w.emitted then w.emitted[i] else {} }
  function DeliveredOf(w: World, i: Id): set<Observation> { if i in w.delivered then w.delivered[i] else {} }

  datatype WorldStep =
    | Connect(i: Id, key: Id)
    | Disconnect(i: Id, key: Id)
    | Deliver(i: Id, o: Observation, at: Time)
    | HeartbeatAt(i: Id, generation: int, at: Time)
    | RestartProcess

  function Emit(w: World, i: Id, o: Observation): World {
    w.(emitted := w.emitted[i := EmittedBy(w, i) + {o}])
  }

  function Move(w: World, step: WorldStep): World {
    match step
    case Connect(i, key) =>
      var g := w.next + 1;
      Emit(w.(next := g, active := w.active[i := Live(key, g)], last := w.last[i := g]), i, Observation(g, true))
    case Disconnect(i, key) =>
      if i in w.active && w.active[i].key == key
      then Emit(w.(active := w.active - {i}), i, Observation(w.active[i].generation, false)) else w
    case Deliver(i, o, at) =>
      if o in EmittedBy(w, i)
      then w.(rows := w.rows[i := Observed(RowOf(w, i), o, at)], delivered := w.delivered[i := DeliveredOf(w, i) + {o}])
      else w
    case HeartbeatAt(i, generation, at) => w.(rows := w.rows[i := Renewed(RowOf(w, i), generation, at)])
    case RestartProcess =>
      World(0, map[], map[], map[], map[], map i | i in w.rows :: ResetRow(w.rows[i]))
  }

  function Moves(w: World, steps: seq<WorldStep>): World
    decreases |steps|
  {
    if steps == [] then w else Moves(Move(w, steps[0]), steps[1..])
  }

  const BEGINNING: World := World(0, map[], map[], map[], map[], map[])

  /** The place in the order that reflects what the tracker knows about the charger. */
  function TrackerLevel(w: World, i: Id): int {
    if i in w.active then 2 * w.active[i].generation
    else if i in w.last then 2 * w.last[i] + 1
    else 0
  }

  ghost predicate Tracks(w: World, i: Id) {
    var row := RowOf(w, i);
    && Sane(row)
    && DeliveredOf(w, i) <= EmittedBy(w, i)
    && (i in w.last ==> 1 <= w.last[i] <= w.next)
    && (i in w.active ==> i in w.last && w.active[i].generation == w.last[i])
    && (i !in w.last ==> EmittedBy(w, i) == {})
    && (forall o :: o in EmittedBy(w, i) ==> o.generation >= 1 && LevelOf(o) <= TrackerLevel(w, i))
    && (i in w.last ==> Observation(w.last[i], i in w.active) in EmittedBy(w, i))
    && (forall o :: o in DeliveredOf(w, i) ==> LevelOf(o) <= Level(row))
    && Level(row) <= TrackerLevel(w, i)
  }

  ghost predicate WorldInv(w: World) {
    forall i :: Tracks(w, i)
  }

  lemma MoveKeeps(w: World, step: WorldStep)
    requires WorldInv(w)
    ensures WorldInv(Move(w, step))
  {
    forall i ensures Tracks(Move(w, step), i) {
      assert Tracks(w, i);
      ViewKeeps(w, step, i);
    }
  }

  lemma ViewKeeps(w: World, step: WorldStep, i: Id)
    requires Tracks(w, i)
    ensures Tracks(Move(w, step), i)
  {
    if step.RestartProcess? { RestartKeeps(w, i); }
    else if step.i != i { OthersKeep(w, step, i); }
    else if step.Connect? { ConnectKeeps(w, step); }
    else if step.Disconnect? { DisconnectKeeps(w, step); }
    else if step.HeartbeatAt? { HeartbeatKeeps(w, step); }
    else if step.o in EmittedBy(w, i) { DeliverKeeps(w, step); }
  }

  /** What a step about another charger leaves in place. */
  lemma OthersKeep(w: World, step: WorldStep, i: Id)
    requires Tracks(w, i) && !step.RestartProcess? && step.i != i
    ensures Tracks(Move(w, step), i)
  {
    var w' := Move(w, step);
    assert RowOf(w', i) == RowOf(w, i) && EmittedBy(w', i) == EmittedBy(w, i) && DeliveredOf(w', i) == DeliveredOf(w, i);
    assert TrackerLevel(w', i) == TrackerLevel(w, i) && w'.next >= w.next;
  }

  lemma HeartbeatKeeps(w: World, step: WorldStep)
    requires step.HeartbeatAt? && Tracks(w, step.i)
    ensures Tracks(Move(w, step), step.i)
  {}

  lemma ConnectKeeps(w: World, step: WorldStep)
    requires step.Connect? && Tracks(w, step.i)
    ensures Tracks(Move(w, step), step.i)
  {}

  lemma DisconnectKeeps(w: World, step: WorldStep)
    requires step.Disconnect? && Tracks(w, step.i)
    ensures Tracks(Move(w, step), step.i)
  {}

  lemma RestartKeeps(w: World, i: Id)
    requires Tracks(w, i)
    ensures Tracks(Move(w, RestartProcess), i)
  {}

  lemma DeliverKeeps(w: World, step: WorldStep)
    requires step.Deliver? && Tracks(w, step.i) && step.o in EmittedBy(w, step.i)
    ensures Tracks(Move(w, step), step.i)
  {
    GuardIsOrder(RowOf(w, step.i), step.o, step.at);
  }

  lemma {:induction false} MovesKeep(w: World, steps: seq<WorldStep>)
    requires WorldInv(w)
    ensures WorldInv(Moves(w, steps))
    decreases |steps|
  {
    if steps != [] {
      MoveKeeps(w, steps[0]);
      MovesKeep(Move(w, steps[0]), steps[1..]);
    }
  }

  /**
   * Once every observation a process emitted for a charger has been delivered, in whatever order
   * and however often, the durable row says ONLINE at the current generation if the charger is
   * connected, OFFLINE at its last generation if it was, and UNKNOWN if it never came.
   */
  lemma StoreConvergesToTracker(steps: seq<WorldStep>, i: Id)
    requires var w := Moves(BEGINNING, steps); DeliveredOf(w, i) == EmittedBy(w, i)
    ensures var w := Moves(BEGINNING, steps);
            var row := RowOf(w, i);
            && (i in w.active ==> row.state == Online && row.generation == w.active[i].generation)
            && (i !in w.active && i in w.last ==> row.state == Offline && row.generation == w.last[i])
            && (i !in w.last ==> row.state == Unknown && row.generation == 0)
  {
    MovesKeep(BEGINNING, steps);
    assert Tracks(Moves(BEGINNING, steps), i);
  }
}
