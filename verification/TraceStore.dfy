/**
 * The memory trace store (internal/store/v1_trace_memory.go) and the follow-on windows of
 * accepted TriggerMessage requests (internal/store/v1_trigger_message_follow_on_store.go).
 * Its methods change three maps under one mutex, so a method is one step; those that settle
 * windows visit them in the order of their ids or of their deadlines, and each says what the
 * traces, the events and the windows are afterwards, on an error as well.
 */
module TraceStore {
  import opened Base
  import opened Sorting

  datatype Action =
    | BootNotification
    | DiagnosticsStatusNotification
    | FirmwareStatusNotification
    | Heartbeat
    | MeterValues
    | StatusNotification
    | OtherAction
  {
    predicate Triggerable() {
      !OtherAction?
    }

    predicate ConnectorScoped() {
      MeterValues? || StatusNotification?
    }
  }

  datatype Category = OperationOcpp | FollowOn | FollowOnClosed | Other(name: Id)

  datatype Trace = Trace(charger: Id, connector: int, createdAt: Time)

  /** `message` and `connector` are the payload of follow-on evidence. */
  datatype Event = Event(id: Id, at: Time, category: Category, message: Action, connector: int)

  /** `triggerAccepted`: the sanitized data is a TriggerMessage CALLRESULT with status Accepted. */
  datatype EventInput = EventInput(at: Time, category: Category, triggerAccepted: bool, message: Action, connector: int)

  datatype WindowState = Open | Observed | Closed

  const WINDOW: int := 60 * SECOND

  datatype Window = Window(
    message: Action, charger: Id, connector: int, acceptedAt: Time, deadlineAt: Time, state: WindowState)

  datatype Tables = Tables(traces: map<Id, Trace>, events: map<Id, seq<Event>>, windows: map<Id, Window>)

  const EMPTY: Tables := Tables(map[], map[], map[])

  /** An absent event list reads as empty; every window belongs to a trace. */
  ghost predicate Valid(s: Tables) {
    s.events.Keys == s.traces.Keys && s.windows.Keys <= s.traces.Keys
  }

  // ----- one call each -----

  function Ensured(s: Tables, t: Id, trace: Trace, now: Time): Tables {
    if t in s.traces then s
    else s.(traces := s.traces[t := if trace.createdAt == 0 then trace.(createdAt := now) else trace], events := s.events[t := []])
  }

  function EventFrom(input: EventInput, now: Time, uuid: Id): Event {
    Event(uuid, if input.at == 0 then now else input.at, input.category, input.message, input.connector)
  }

  ghost function Appended(s: Tables, t: Id, input: EventInput, now: Time, uuid: Id): Tables
    requires Valid(s)
  {
    if t in s.traces then s.(events := s.events[t := s.events[t] + [EventFrom(input, now, uuid)]]) else s
  }

  predicate ValidAcceptance(input: EventInput, message: Action) {
    message.Triggerable() && input.at != 0 && input.category == OperationOcpp && input.triggerAccepted
  }

  ghost function Accepted(s: Tables, t: Id, input: EventInput, message: Action, now: Time, uuid: Id): Tables
    requires Valid(s)
  {
    if !ValidAcceptance(input, message) || t !in s.traces || t in s.windows then s
    else
      Appended(s, t, input, now, uuid).(windows := s.windows[t :=
        Window(message, s.traces[t].charger, s.traces[t].connector, input.at, input.at + WINDOW, Open)])
  }

  predicate ValidObservation(action: Action, connector: int, at: Time) {
    action.Triggerable() && (action.ConnectorScoped() ==> connector >= 1) && at != 0
  }

  /** Strictly after the acceptance, not after the deadline, same charger and message, compatible connector. */
  predicate Matches(w: Window, charger: Id, action: Action, connector: int, at: Time) {
    && w.message == action && w.charger == charger && w.state == Open && w.acceptedAt < at <= w.deadlineAt
    && (action.ConnectorScoped() && w.connector > 0 ==> w.connector == connector)
  }

  /** How a window leaves OPEN: its new state and the event that says so. */
  datatype Settling = Settling(state: WindowState, at: Time, category: Category, connector: Option<int>, uuid: Id -> Id)

  /** The selected windows leave OPEN together with the one event that says so. */
  ghost function Settled(s: Tables, ids: set<Id>, how: Settling): Tables
    requires Valid(s)
  {
    s.(events := map t | t in s.events :: s.events[t] + SettlingEvents(s, ids, t, how),
       windows := map t | t in s.windows :: if t in ids then s.windows[t].(state := how.state) else s.windows[t])
  }

  function SettlingEvents(s: Tables, ids: set<Id>, t: Id, how: Settling): seq<Event> {
    if t in ids && t in s.windows then [SettlingEvent(s.windows[t], t, how)] else []
  }

  /** Without a connector-scoped message the evidence names no connector. */
  function SettlingEvent(w: Window, t: Id, how: Settling): Event {
    Event(how.uuid(t), how.at, how.category, w.message,
          if !w.message.ConnectorScoped() then 0 else if how.connector.Some? then how.connector.value else w.connector)
  }

  ghost function Matching(s: Tables, charger: Id, action: Action, connector: int, at: Time): set<Id> {
    set t | t in s.windows && Matches(s.windows[t], charger, action, connector, at)
  }

  ghost function Recorded(s: Tables, charger: Id, action: Action, connector: int, at: Time, uuid: Id -> Id): Tables
    requires Valid(s)
  {
    if ValidObservation(action, connector, at)
    then Settled(s, Matching(s, charger, action, connector, at), Settling(Observed, at, FollowOn, Some(connector), uuid)) else s
  }

  predicate IsDue(w: Window, now: Time) {
    w.state == Open && w.deadlineAt <= now
  }

  ghost function Due(s: Tables, now: Time): set<Id> {
    set t | t in s.windows && IsDue(s.windows[t], now)
  }

  /** As many due windows as the limit allows, none with a later deadline than one left behind. */
  ghost predicate IsDueBatch(ids: set<Id>, s: Tables, now: Time, limit: nat) {
    && ids <= Due(s, now)
    && |ids| == Least(limit, |Due(s, now)|)
    && (forall a, b :: a in ids && b in Due(s, now) - ids ==> s.windows[a].deadlineAt <= s.windows[b].deadlineAt)
  }

  ghost function ClosedOff(s: Tables, ids: set<Id>, now: Time, uuid: Id -> Id): Tables
    requires Valid(s)
  {
    Settled(s, ids, Settling(Closed, now, FollowOnClosed, None, uuid))
  }

  // ----- loops -----

  lemma SettledNothing(s: Tables, how: Settling)
    requires Valid(s)
    ensures Settled(s, {}, how) == s
  {
    assert Settled(s, {}, how).events == s.events by {
      assert forall t :: t in s.events ==> s.events[t] + [] == s.events[t];
    }
    assert Settled(s, {}, how).windows == s.windows;
  }

  /** Settling one more window after others is settling them all at once. */
  lemma SettledOneMore(s: Tables, ids: set<Id>, t: Id, how: Settling)
    requires Valid(s) && t in s.windows && t !in ids
    ensures var part := Settled(s, ids, how);
            && Valid(part) && part.windows[t] == s.windows[t]
            && Settled(s, ids + {t}, how) ==
               part.(events := part.events[t := part.events[t] + [SettlingEvent(s.windows[t], t, how)]],
                     windows := part.windows[t := s.windows[t].(state := how.state)])
  {
    var part := Settled(s, ids, how);
    var all := Settled(s, ids + {t}, how);
    assert part.events[t] == s.events[t] + [] == s.events[t];
    assert all.events == part.events[t := part.events[t] + [SettlingEvent(s.windows[t], t, how)]];
    assert all.windows == part.windows[t := s.windows[t].(state := how.state)];
  }

  function DeadlineIn(windows: map<Id, Window>, t: Id): Time {
    if t in windows then windows[t].deadlineAt else 0
  }

  method SortedIds(found: seq<Id>) returns (ids: seq<Id>)
    ensures multiset(ids) == multiset(found)
    ensures forall i, j :: 0 <= i < j < |ids| ==> ids[i] <= ids[j]
  {
    var ascending := (a: Id, b: Id) => a <= b;
    SortIsOrderedPermutation(found, ascending);
    ids := Sort(found, ascending);
    assert forall i, j :: 0 <= i < j < |ids| ==> ascending(ids[i], ids[j]);
  }

  /** Any arrangement of equal deadlines is possible: the input comes in map order. */
  method SortedByDeadline(windows: map<Id, Window>, found: seq<Id>) returns (ids: seq<Id>)
    ensures multiset(ids) == multiset(found)
    ensures forall i, j :: 0 <= i < j < |ids| ==> DeadlineIn(windows, ids[i]) <= DeadlineIn(windows, ids[j])
  {
    var earlier := (a: Id, b: Id) => DeadlineIn(windows, a) <= DeadlineIn(windows, b);
    SortIsOrderedPermutation(found, earlier);
    ids := Sort(found, earlier);
    assert forall i, j :: 0 <= i < j < |ids| ==> earlier(ids[i], ids[j]);
  }

  /** The first windows of a list sorted by deadline form a batch. */
  lemma PrefixIsDueBatch(sorted: seq<Id>, s: Tables, now: Time, limit: nat)
    requires Lists(sorted, Due(s, now))
    requires forall i, j :: 0 <= i < j < |sorted| ==> DeadlineIn(s.windows, sorted[i]) <= DeadlineIn(s.windows, sorted[j])
    ensures IsDueBatch(ElementsOf(if |sorted| > limit then sorted[..limit] else sorted), s, now, limit)
  {
    ListedSet(sorted, Due(s, now));
    var batch := if |sorted| > limit then sorted[..limit] else sorted;
    assert forall i :: 0 <= i < |batch| ==> batch[i] == sorted[i];
    DistinctElements(batch);
    var ids := ElementsOf(batch);
    assert ids <= Due(s, now);
    forall a, b | a in ids && b in Due(s, now) - ids ensures s.windows[a].deadlineAt <= s.windows[b].deadlineAt {
      assert a in Due(s, now) by { assert a in sorted; }
      var i :| 0 <= i < |batch| && batch[i] == a;
      assert b in sorted;
      var j :| 0 <= j < |sorted| && sorted[j] == b;
      assert DeadlineIn(s.windows, sorted[i]) <= DeadlineIn(s.windows, sorted[j]);
    }
  }

  // ----- listing -----

  /** Newest first, ids descending at the same instant. */
  predicate NotBefore(a: Event, b: Event) {
    a.at > b.at || (a.at == b.at && a.id >= b.id)
  }

  predicate AtOrAfterCursor(e: Event, before: Time, beforeId: Id) {
    e.at > before || (e.at == before && e.id >= beforeId)
  }

  /** What is left of a sorted list behind a cursor. */
  function Remaining(sorted: seq<Event>, before: Time, beforeId: Id): seq<Event> {
    if sorted == [] then []
    else if before != 0 && AtOrAfterCursor(sorted[0], before, beforeId) then Remaining(sorted[1..], before, beforeId)
    else [sorted[0]] + Remaining(sorted[1..], before, beforeId)
  }

  /** The first `limit` of them; a limit of zero is no limit. */
  function PageOf(sorted: seq<Event>, before: Time, beforeId: Id, limit: nat): seq<Event> {
    var remaining := Remaining(sorted, before, beforeId);
    if 0 < limit < |remaining| then remaining[..limit] else remaining
  }

  lemma {:induction false} RemainingSplits(a: seq<Event>, b: seq<Event>, before: Time, beforeId: Id)
    ensures Remaining(a + b, before, beforeId) == Remaining(a, before, beforeId) + Remaining(b, before, beforeId)
    decreases |a|
  {
    if a == [] {
      assert a + b == b;
    } else {
      assert (a + b)[1..] == a[1..] + b;
      RemainingSplits(a[1..], b, before, beforeId);
    }
  }

  lemma RemainingOneMore(sorted: seq<Event>, i: nat, before: Time, beforeId: Id)
    requires i < |sorted|
    ensures Remaining(sorted[..i + 1], before, beforeId) ==
            Remaining(sorted[..i], before, beforeId)
            + (if before != 0 && AtOrAfterCursor(sorted[i], before, beforeId) then [] else [sorted[i]])
  {
    assert sorted[..i + 1] == sorted[..i] + [sorted[i]];
    RemainingSplits(sorted[..i], [sorted[i]], before, beforeId);
  }

  class MemoryTraceStore {
    var traces: map<Id, Trace>
    var events: map<Id, seq<Event>>
    var windows: map<Id, Window>

    ghost function Value(): Tables
      reads this
    {
      Tables(traces, events, windows)
    }

    constructor ()
      ensures Value() == EMPTY && Valid(Value())
    {
      traces, events, windows := map[], map[], map[];
    }

    method EnsureTrace(t: Id, trace: Trace, now: Time) returns (r: Trace)
      requires Valid(Value())
      modifies this
      ensures Valid(Value()) && Value() == Ensured(old(Value()), t, trace, now)
      ensures t in traces && r == traces[t]
    {
      if t in traces {
        return traces[t];
      }
      r := trace;
      if r.createdAt == 0 {
        r := r.(createdAt := now);
      }
      traces := traces[t := r];
      events := events[t := []];
    }

    method AppendEvent(t: Id, input: EventInput, now: Time, uuid: Id) returns (r: Result<()>)
      requires Valid(Value())
      modifies this
      ensures Valid(Value()) && Value() == Appended(old(Value()), t, input, now, uuid)
      ensures r == if t in traces then Ok(()) else Err(NotFound)
    {
      if t !in traces {
        return Err(NotFound);
      }
      var at := input.at;
      if at == 0 {
        at := now;
      }
      events := events[t := events[t] + [Event(uuid, at, input.category, input.message, input.connector)]];
      r := Ok(());
    }

    /** `failing` is the injected failure that must leave no half of the pair behind. */
    method AppendAccepted(t: Id, input: EventInput, message: Action, failing: bool, now: Time, uuid: Id) returns (r: Result<()>)
      requires Valid(Value())
      modifies this
      ensures Valid(Value())
      ensures Value() == if failing then old(Value()) else Accepted(old(Value()), t, input, message, now, uuid)
      ensures r == if !ValidAcceptance(input, message) then Err(InvalidEvidence)
                   else if failing then Err(StorageFailure)
                   else if t !in traces then Err(NotFound) else Ok(())
    {
      if !ValidAcceptance(input, message) {
        return Err(InvalidEvidence);
      }
      if failing {
        return Err(StorageFailure);
      }
      if t !in traces {
        return Err(NotFound);
      }
      if t in windows {
        return Ok(());
      }
      r := AppendEvent(t, input, now, uuid);
      var trace := traces[t];
      windows := windows[t := Window(message, trace.charger, trace.connector, input.at, input.at + WINDOW, Open)];
    }

    method CollectMatching(charger: Id, action: Action, connector: int, at: Time) returns (found: seq<Id>)
      ensures Lists(found, Matching(Value(), charger, action, connector, at))
    {
      found := [];
      var unseen := windows.Keys;
      ghost var matching := Matching(Value(), charger, action, connector, at);
      while unseen != {}
        invariant unseen <= windows.Keys && Lists(found, matching - unseen)
        decreases |unseen|
      {
        var t :| t in unseen;
        ghost var seen := matching - unseen;
        unseen := unseen - {t};
        var w := windows[t];
        if w.message != action || w.charger != charger || w.state != Open || !(w.acceptedAt < at) || w.deadlineAt < at {
          assert matching - unseen == seen;
          continue;
        }
        if action.ConnectorScoped() && w.connector > 0 && w.connector != connector {
          assert matching - unseen == seen;
          continue;
        }
        found := found + [t];
        assert matching - unseen == seen + {t};
      }
      assert matching - unseen == matching;
    }

    method CollectDue(now: Time) returns (found: seq<Id>)
      ensures Lists(found, Due(Value(), now))
    {
      found := [];
      var unseen := windows.Keys;
      ghost var due := Due(Value(), now);
      while unseen != {}
        invariant unseen <= windows.Keys && Lists(found, due - unseen)
        decreases |unseen|
      {
        var t :| t in unseen;
        ghost var seen := due - unseen;
        unseen := unseen - {t};
        if windows[t].state == Open && windows[t].deadlineAt <= now {
          found := found + [t];
          assert due - unseen == seen + {t};
        } else {
          assert due - unseen == seen;
        }
      }
      assert due - unseen == due;
    }

    method RecordFollowOn(charger: Id, action: Action, connector: int, at: Time, uuid: Id -> Id) returns (r: Result<nat>)
      requires Valid(Value())
      modifies this
      ensures Valid(Value()) && Value() == Recorded(old(Value()), charger, action, connector, at, uuid)
      ensures r == if ValidObservation(action, connector, at)
                   then Ok(|Matching(old(Value()), charger, action, connector, at)|) else Err(InvalidEvidence)
    {
      if !action.Triggerable() || (action.ConnectorScoped() && connector < 1) || at == 0 {
        return Err(InvalidEvidence);
      }
      var found := CollectMatching(charger, action, connector, at);
      ghost var matching := Matching(Value(), charger, action, connector, at);
      var ids := SortedIds(found);
      ListedSet(ids, matching);
      assert ElementsOf(ids) == matching <= windows.Keys;
      SettleAll(ids, Settling(Observed, at, FollowOn, Some(connector), uuid));
      r := Ok(|ids|);
    }

    method CloseWindows(now: Time, limit: int, uuid: Id -> Id) returns (r: Result<nat>, ghost closed: set<Id>)
      requires Valid(Value())
      modifies this
      ensures Valid(Value())
      ensures limit < 1 ==> r == Err(InvalidEvidence) && Value() == old(Value())
      ensures limit >= 1 ==>
                && IsDueBatch(closed, old(Value()), now, limit) && r == Ok(|closed|)
                && Value() == ClosedOff(old(Value()), closed, now, uuid)
    {
      closed := {};
      if limit < 1 {
        return Err(InvalidEvidence), closed;
      }
      var found := CollectDue(now);
      var ids := SortedByDeadline(windows, found);
      ListedSet(ids, Due(Value(), now));
      PrefixIsDueBatch(ids, Value(), now, limit);
      assert forall t :: t in ids ==> t in windows;
      if |ids| > limit {
        ids := ids[..limit];
      }
      assert forall i :: 0 <= i < |ids| ==> ids[i] in windows;
      DistinctElements(ids);
      closed := ElementsOf(ids);
      SettleAll(ids, Settling(Closed, now, FollowOnClosed, None, uuid));
      r := Ok(|ids|);
    }

    /** Appends each window's event, then moves it out of OPEN. */
    method SettleAll(ids: seq<Id>, how: Settling)
      requires Valid(Value()) && (forall i :: 0 <= i < |ids| ==> ids[i] in windows)
      requires forall i, j :: 0 <= i < j < |ids| ==> ids[i] != ids[j]
      modifies this
      ensures Valid(Value()) && Value() == Settled(old(Value()), ElementsOf(ids), how)
    {
      ghost var was := Value();
      SettledNothing(was, how);
      assert ElementsOf(ids[..0]) == {};
      var i := 0;
      while i < |ids|
        invariant 0 <= i <= |ids| && Valid(Value())
        invariant Value() == Settled(was, ElementsOf(ids[..i]), how)
      {
        SettledOneMore(was, ElementsOf(ids[..i]), ids[i], how);
        OneMoreElement(ids, i);
        SettleOne(ids[i], how);
        i := i + 1;
      }
      assert ids[..i] == ids;
    }

    method SettleOne(t: Id, how: Settling)
      requires t in windows && t in events
      modifies this`events, this`windows
      ensures Value() == old(Value()).(
                events := old(events)[t := old(events)[t] + [SettlingEvent(old(windows)[t], t, how)]],
                windows := old(windows)[t := old(windows)[t].(state := how.state)])
    {
      var w := windows[t];
      events := events[t := events[t] + [SettlingEvent(w, t, how)]];
      windows := windows[t := w.(state := how.state)];
    }

    method ListEvents(t: Id, before: Time, beforeId: Option<Id>, limit: nat) returns (r: Result<seq<Event>>)
      requires Valid(Value())
      ensures t !in traces ==> r == Err(NotFound)
      ensures t in traces && before != 0 && beforeId.None? ==> r == Err(InvalidEvidence)
      ensures t in traces && (before == 0 || beforeId.Some?) ==>
                && r.Ok?
                && r.value == PageOf(Sort(events[t], NotBefore), before, if beforeId.Some? then beforeId.value else 0, limit)
    {
      if t !in traces {
        return Err(NotFound);
      }
      if before != 0 && beforeId.None? {
        return Err(InvalidEvidence);
      }
      var sorted := Sort(events[t], NotBefore);
      var cursorId := if beforeId.Some? then beforeId.value else 0;
      var out: seq<Event> := [];
      var i := 0;
      while i < |sorted|
        invariant 0 <= i <= |sorted| && out == Remaining(sorted[..i], before, cursorId)
        invariant limit > 0 ==> |out| < limit
      {
        RemainingOneMore(sorted, i, before, cursorId);
        if !(before != 0 && AtOrAfterCursor(sorted[i], before, cursorId)) {
          out := out + [sorted[i]];
          if |out| == limit {
            assert sorted == sorted[..i + 1] + sorted[i + 1..];
            RemainingSplits(sorted[..i + 1], sorted[i + 1..], before, cursorId);
            return Ok(out);
          }
        }
        i := i + 1;
      }
      assert sorted[..i] == sorted;
      r := Ok(out);
    }
  }
}
