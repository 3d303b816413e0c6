/** Follow-on windows over every run of the trace store without retention. */
module TraceWindows {
  import opened Base
  import opened TraceStore

  /** Plain appends come from call sites that never use the two follow-on categories. */
  datatype Step =
    | EnsureTrace(t: Id, trace: Trace, now: Time)
    | Append(t: Id, input: EventInput, now: Time, id: Id)
    | Accept(t: Id, input: EventInput, message: Action, now: Time, id: Id)
    | Observe(charger: Id, action: Action, connector: int, at: Time, uuid: Id -> Id)
    | Close(now: Time, limit: int, ids: set<Id>, uuid: Id -> Id)

  ghost function Apply(s: Tables, step: Step): Tables
    requires Valid(s)
  {
    match step
    case EnsureTrace(t, trace, now) => Ensured(s, t, trace, now)
    case Append(t, input, now, id) =>
      if input.category in {FollowOn, FollowOnClosed} then s else Appended(s, t, input, now, id)
    case Accept(t, input, message, now, id) => Accepted(s, t, input, message, now, id)
    case Observe(charger, action, connector, at, uuid) => Recorded(s, charger, action, connector, at, uuid)
    case Close(now, limit, ids, uuid) =>
      if limit >= 1 && IsDueBatch(ids, s, now, limit) then ClosedOff(s, ids, now, uuid) else s
  }

  ghost function Run(s: Tables, steps: seq<Step>): Tables
    requires Valid(s)
    decreases |steps|
  {
    if steps == [] then s else Run(Apply(s, steps[0]), steps[1..])
  }

  // ----- evidence agrees with the window -----

  function Count(events: seq<Event>, category: Category): nat {
    if events == [] then 0
    else Count(events[..|events| - 1], category) + (if events[|events| - 1].category == category then 1 else 0)
  }

  /**
   * One positive event iff OBSERVED, within (accepted, deadline]; one closure event iff CLOSED, at or
   * after the deadline; without a window neither.
   */
  ghost predicate Agrees(w: Option<Window>, events: seq<Event>) {
    && Count(events, FollowOn) == (if w.Some? && w.value.state == Observed then 1 else 0)
    && Count(events, FollowOnClosed) == (if w.Some? && w.value.state == Closed then 1 else 0)
    && (w.Some? ==> w.value.deadlineAt == w.value.acceptedAt + WINDOW && w.value.message.Triggerable())
    && (w.Some? ==> forall e :: e in events ==> Timely(w.value, e))
  }

  ghost predicate Timely(w: Window, e: Event) {
    && (e.category == FollowOn ==> w.acceptedAt < e.at <= w.deadlineAt && e.message == w.message)
    && (e.category == FollowOnClosed ==> e.at >= w.deadlineAt && e.message == w.message)
  }

  function WindowOf(s: Tables, t: Id): Option<Window> {
    if t in s.windows then Some(s.windows[t]) else None
  }

  ghost predicate Truthful(s: Tables) {
    Valid(s) && forall t :: t in s.events ==> Agrees(WindowOf(s, t), s.events[t])
  }

  /** An event of another category changes nothing about the evidence. */
  lemma OtherEventAgrees(w: Option<Window>, events: seq<Event>, e: Event)
    requires Agrees(w, events) && e.category != FollowOn && e.category != FollowOnClosed
    ensures Agrees(w, events + [e])
  {}

  lemma SettlingAgrees(w: Window, events: seq<Event>, e: Event, state: WindowState)
    requires Agrees(Some(w), events) && w.state == Open && e.message == w.message
    requires || (state == Observed && e.category == FollowOn && w.acceptedAt < e.at <= w.deadlineAt)
             || (state == Closed && e.category == FollowOnClosed && e.at >= w.deadlineAt)
    ensures Agrees(Some(w.(state := state)), events + [e])
  {}

  /** A trace without follow-on events before its acceptance starts an OPEN window truthfully. */
  lemma {:induction false} NoneCounted(events: seq<Event>, category: Category)
    requires Count(events, category) == 0
    ensures forall e :: e in events ==> e.category != category
  {
    if events != [] {
      NoneCounted(events[..|events| - 1], category);
      assert events == events[..|events| - 1] + [events[|events| - 1]];
    }
  }

  lemma OpeningAgrees(events: seq<Event>, w: Window)
    requires Agrees(None, events) && w.state == Open && w.deadlineAt == w.acceptedAt + WINDOW && w.message.Triggerable()
    ensures Agrees(Some(w), events)
  {
    NoneCounted(events, FollowOn);
    NoneCounted(events, FollowOnClosed);
  }

  lemma AppendKeeps(s: Tables, t: Id, input: EventInput, now: Time, id: Id)
    requires Truthful(s) && input.category != FollowOn && input.category != FollowOnClosed
    ensures Truthful(Appended(s, t, input, now, id))
  {
    if t in s.traces {
      OtherEventAgrees(WindowOf(s, t), s.events[t], EventFrom(input, now, id));
    }
  }

  lemma AcceptKeeps(s: Tables, t: Id, input: EventInput, message: Action, now: Time, id: Id)
    requires Truthful(s)
    ensures Truthful(Accepted(s, t, input, message, now, id))
  {
    if ValidAcceptance(input, message) && t in s.traces && t !in s.windows {
      AppendKeeps(s, t, input, now, id);
      var mid, r := Appended(s, t, input, now, id), Accepted(s, t, input, message, now, id);
      assert Agrees(WindowOf(mid, t), mid.events[t]);
      OpeningAgrees(mid.events[t], r.windows[t]);
      OpeningKeeps(mid, t, r.windows[t]);
    }
  }

  lemma OpeningKeeps(s: Tables, t: Id, w: Window)
    requires Truthful(s) && t in s.events && Agrees(Some(w), s.events[t])
    ensures Truthful(s.(windows := s.windows[t := w]))
  {
    var r := s.(windows := s.windows[t := w]);
    forall u | u in r.events ensures Agrees(WindowOf(r, u), r.events[u]) {
      assert Agrees(WindowOf(s, u), s.events[u]);
    }
  }

  lemma SettleKeeps(s: Tables, ids: set<Id>, how: Settling)
    requires Truthful(s) && (forall t :: t in ids ==> t in s.windows && s.windows[t].state == Open)
    requires forall t :: t in ids ==>
               || (how.state == Observed && how.category == FollowOn && s.windows[t].acceptedAt < how.at <= s.windows[t].deadlineAt)
               || (how.state == Closed && how.category == FollowOnClosed && how.at >= s.windows[t].deadlineAt)
    ensures Truthful(Settled(s, ids, how))
  {
    var r := Settled(s, ids, how);
    forall t | t in r.events ensures Agrees(WindowOf(r, t), r.events[t]) {
      if t in ids {
        SettlingAgrees(s.windows[t], s.events[t], SettlingEvent(s.windows[t], t, how), how.state);
      } else {
        assert r.events[t] == s.events[t] + [] == s.events[t];
      }
    }
  }

  lemma StepKeepsTruth(s: Tables, step: Step)
    requires Truthful(s)
    ensures Truthful(Apply(s, step))
  {
    match step
    case EnsureTrace(t, trace, now) =>
    case Append(t, input, now, id) =>
      if input.category != FollowOn && input.category != FollowOnClosed { AppendKeeps(s, t, input, now, id); }
    case Accept(t, input, message, now, id) => AcceptKeeps(s, t, input, message, now, id);
    case Observe(charger, action, connector, at, uuid) =>
      if ValidObservation(action, connector, at) {
        SettleKeeps(s, Matching(s, charger, action, connector, at), Settling(Observed, at, FollowOn, Some(connector), uuid));
      }
    case Close(now, limit, ids, uuid) =>
      if limit >= 1 && IsDueBatch(ids, s, now, limit) {
        SettleKeeps(s, ids, Settling(Closed, now, FollowOnClosed, None, uuid));
      }
  }

  lemma {:induction false} RunKeepsTruth(s: Tables, steps: seq<Step>)
    requires Truthful(s)
    ensures Truthful(Run(s, steps))
    decreases |steps|
  {
    if steps != [] {
      StepKeepsTruth(s, steps[0]);
      RunKeepsTruth(Apply(s, steps[0]), steps[1..]);
    }
  }

  /** In every run the evidence in a trace says exactly what its window's state says. */
  lemma WindowsAreTruthful(steps: seq<Step>, t: Id)
    ensures var s := Run(EMPTY, steps);
            && Valid(s)
            && (t in s.windows ==> t in s.events && Agrees(Some(s.windows[t]), s.events[t]))
            && (t in s.events && t !in s.windows ==> Count(s.events[t], FollowOn) == Count(s.events[t], FollowOnClosed) == 0)
  {
    assert Truthful(EMPTY);
    RunKeepsTruth(EMPTY, steps);
    var s := Run(EMPTY, steps);
    if t in s.events {
      assert Agrees(WindowOf(s, t), s.events[t]);
    }
  }

  // ----- one transition -----

  /** Between two moments a window either stays, or leaves OPEN; its other columns are fixed. */
  ghost predicate Follows(before: Window, after: Window) {
    before == after || (before.state == Open && after.state != Open && after == before.(state := after.state))
  }

  lemma {:induction false} AtMostOneTransition(s: Tables, steps: seq<Step>, t: Id)
    requires Valid(s) && t in s.windows
    ensures t in Run(s, steps).windows && Follows(s.windows[t], Run(s, steps).windows[t])
    decreases |steps|
  {
    if steps != [] {
      StepFollows(s, steps[0], t);
      AtMostOneTransition(Apply(s, steps[0]), steps[1..], t);
    }
  }

  lemma StepFollows(s: Tables, step: Step, t: Id)
    requires Valid(s) && t in s.windows
    ensures t in Apply(s, step).windows && Follows(s.windows[t], Apply(s, step).windows[t])
  {}

  // ----- draining -----

  /** Each bounded close lowers the number of due windows by min(limit, due). */
  lemma CloseLowersDue(s: Tables, ids: set<Id>, now: Time, limit: nat, uuid: Id -> Id)
    requires Valid(s) && IsDueBatch(ids, s, now, limit)
    ensures Due(ClosedOff(s, ids, now, uuid), now) == Due(s, now) - ids
    ensures |Due(s, now) - ids| == if limit <= |Due(s, now)| then |Due(s, now)| - limit else 0
  {}

  /** Successive closes at one instant; the k-th closes `batches[k]`. */
  ghost predicate IsDrain(tables: seq<Tables>, batches: seq<set<Id>>, now: Time, limit: nat) {
    && |tables| == |batches| + 1
    && (forall k :: 0 <= k < |batches| ==> CloseAt(tables, batches, k, now, limit))
  }

  ghost predicate CloseAt(tables: seq<Tables>, batches: seq<set<Id>>, k: nat, now: Time, limit: nat)
    requires k < |batches| && |tables| == |batches| + 1
  {
    Valid(tables[k]) && IsClose(tables[k], tables[k + 1], batches[k], now, limit)
  }

  ghost predicate IsClose(before: Tables, after: Tables, ids: set<Id>, now: Time, limit: nat)
    requires Valid(before)
  {
    IsDueBatch(ids, before, now, limit) && exists uuid: Id -> Id :: after == ClosedOff(before, ids, now, uuid)
  }

  /** At least `taken` due windows are gone, or all of them; those that remain are untouched. */
  ghost predicate Leaves(before: Tables, after: Tables, now: Time, taken: nat) {
    && Due(after, now) <= Due(before, now)
    && |Due(after, now)| == (if taken <= |Due(before, now)| then |Due(before, now)| - taken else 0)
    && (forall t :: t in Due(after, now) ==> after.windows[t] == before.windows[t])
  }

  lemma CloseLeaves(before: Tables, after: Tables, ids: set<Id>, now: Time, limit: nat)
    requires Valid(before) && IsClose(before, after, ids, now, limit)
    ensures Leaves(before, after, now, limit) && Due(after, now) == Due(before, now) - ids
  {
    var uuid: Id -> Id :| after == ClosedOff(before, ids, now, uuid);
    CloseLowersDue(before, ids, now, limit, uuid);
  }

  lemma {:induction false} DueBetween(tables: seq<Tables>, batches: seq<set<Id>>, now: Time, limit: nat, i: nat, j: nat)
    requires IsDrain(tables, batches, now, limit) && i <= j <= |batches|
    ensures Leaves(tables[i], tables[j], now, Times(limit, j - i))
    decreases j
  {
    if i < j {
      DueBetween(tables, batches, now, limit, i, j - 1);
      var before := tables[j - 1];
      assert CloseAt(tables, batches, j - 1, now, limit);
      CloseLeaves(before, tables[j], batches[j - 1], now, limit);
      LeavesMore(tables[i], before, tables[j], now, Times(limit, j - 1 - i), limit);
    }
  }

  lemma LeavesMore(a: Tables, b: Tables, c: Tables, now: Time, m: nat, n: nat)
    requires Leaves(a, b, now, m) && Leaves(b, c, now, n)
    ensures Leaves(a, c, now, m + n)
  {}

  /** ceil(n / limit) closes leave no due window behind. */
  lemma RepeatedClosesDrain(tables: seq<Tables>, batches: seq<set<Id>>, now: Time, limit: nat)
    requires limit >= 1 && IsDrain(tables, batches, now, limit)
    requires |batches| >= (|Due(tables[0], now)| + limit - 1) / limit
    ensures Due(tables[|batches|], now) == {}
  {
    var n := |Due(tables[0], now)|;
    var rounds := (n + limit - 1) / limit;
    assert limit * rounds >= n by {
      assert n + limit - 1 == limit * rounds + (n + limit - 1) % limit;
    }
    assert limit * |batches| >= limit * rounds;
    TimesIsProduct(limit, |batches|);
    DueBetween(tables, batches, now, limit, 0, |batches|);
  }

  /** Earlier closes take earlier deadlines. */
  lemma EarliestFirst(tables: seq<Tables>, batches: seq<set<Id>>, now: Time, limit: nat, i: nat, j: nat, a: Id, b: Id)
    requires IsDrain(tables, batches, now, limit) && i < j < |batches| && a in batches[i] && b in batches[j]
    ensures a in tables[0].windows && b in tables[0].windows
    ensures tables[0].windows[a].deadlineAt <= tables[0].windows[b].deadlineAt
  {
    assert CloseAt(tables, batches, i, now, limit) && CloseAt(tables, batches, j, now, limit);
    CloseLeaves(tables[i], tables[i + 1], batches[i], now, limit);
    DueBetween(tables, batches, now, limit, 0, i);
    DueBetween(tables, batches, now, limit, i + 1, j);
    assert b in Due(tables[j], now) && b in Due(tables[i], now) - batches[i];
  }
}
