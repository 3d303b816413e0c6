/** Which observation settles which window: charger, message, connector and time, for one call and over runs. */
module FollowOns {
  import opened Base
  import opened TraceStore
  import opened TraceWindows

  predicate Scoped(action: Action) {
    action in {MeterValues, StatusNotification}
  }

  /** The observation is what the accepted request asked for: from its charger, of its message and connector, in its time. */
  predicate Answers(w: Window, charger: Id, action: Action, connector: int, at: Time) {
    && charger == w.charger && action == w.message && action != OtherAction && at != 0
    && w.acceptedAt < at && at <= w.deadlineAt
    && (Scoped(action) ==> connector >= 1 && (w.connector > 0 ==> connector == w.connector))
  }

  /** An observation settles exactly the open windows it answers, each with one event; every other one stays. */
  lemma ObservationSettlesIff(s: Tables, charger: Id, action: Action, connector: int, at: Time, uuid: Id -> Id, t: Id)
    requires Valid(s) && t in s.windows
    ensures var r := Recorded(s, charger, action, connector, at, uuid);
            && t in r.windows && t in r.events
            && if s.windows[t].state == Open && Answers(s.windows[t], charger, action, connector, at) then
                 && r.windows[t] == s.windows[t].(state := Observed)
                 && r.events[t] == s.events[t] + [Event(uuid(t), at, FollowOn, action, if Scoped(action) then connector else 0)]
               else r.windows[t] == s.windows[t] && r.events[t] == s.events[t]
  {
    var r := Recorded(s, charger, action, connector, at, uuid);
    if ValidObservation(action, connector, at) && t !in Matching(s, charger, action, connector, at) {
      assert r.events[t] == s.events[t] + [];
    }
  }

  /** A close settles windows whose deadline has come, as many as allowed, and names their own connector. */
  lemma ClosingSettles(s: Tables, ids: set<Id>, now: Time, limit: nat, uuid: Id -> Id, t: Id)
    requires Valid(s) && t in s.windows && IsDueBatch(ids, s, now, limit)
    ensures var r, w := ClosedOff(s, ids, now, uuid), s.windows[t];
            && t in r.windows && t in r.events
            && (t in ids ==> w.state == Open && w.deadlineAt <= now)
            && if t in ids then
                 && r.windows[t] == w.(state := Closed)
                 && r.events[t] == s.events[t] +
                      [Event(uuid(t), now, FollowOnClosed, w.message, if Scoped(w.message) then w.connector else 0)]
               else r.windows[t] == w && r.events[t] == s.events[t]
  {
    if t in ids {
      assert t in Due(s, now);
    } else {
      assert ClosedOff(s, ids, now, uuid).events[t] == s.events[t] + [];
    }
  }

  /** A window is due exactly from its deadline on while it is open; until then it can be answered. */
  lemma DueIff(s: Tables, now: Time, t: Id)
    ensures t in Due(s, now) <==> t in s.windows && s.windows[t].state == Open && s.windows[t].deadlineAt <= now
    ensures t in s.windows && s.windows[t].state == Open && s.windows[t].message != OtherAction && now != 0
            && s.windows[t].acceptedAt < now ==>
              t in Due(s, now) || Answers(s.windows[t], s.windows[t].charger, s.windows[t].message,
                                          if s.windows[t].connector > 0 then s.windows[t].connector else 1, now)
  {}

  /** A window opens, with the event of the acceptance, exactly on a timed accepted TriggerMessage of a trace without one. */
  lemma AcceptanceOpensIff(s: Tables, t: Id, input: EventInput, message: Action, now: Time, uuid: Id)
    requires Valid(s)
    ensures var r := Accepted(s, t, input, message, now, uuid);
            if t in s.traces && t !in s.windows && message != OtherAction && input.at != 0
               && input.category == OperationOcpp && input.triggerAccepted then
              && r.windows == s.windows[t := Window(message, s.traces[t].charger, s.traces[t].connector,
                                                    input.at, input.at + 60_000_000_000, Open)]
              && t in s.events && r.traces == s.traces
              && r.events == s.events[t := s.events[t] + [Event(uuid, input.at, OperationOcpp, input.message, input.connector)]]
            else r == s
  {}

  /** Plain events are appended as they came, with the current time for a missing one; a trace is created once. */
  lemma AppendsAndCreates(s: Tables, t: Id, input: EventInput, trace: Trace, now: Time, uuid: Id)
    requires Valid(s)
    ensures var r := Appended(s, t, input, now, uuid);
            if t in s.traces then
              t in s.events && r == s.(events := s.events[t := s.events[t] +
                [Event(uuid, if input.at != 0 then input.at else now, input.category, input.message, input.connector)]])
            else r == s
    ensures var r := Ensured(s, t, trace, now);
            if t in s.traces then r == s
            else r == s.(traces := s.traces[t :=
                           Trace(trace.charger, trace.connector, if trace.createdAt != 0 then trace.createdAt else now)],
                         events := s.events[t := []])
  {}

  // ----- whole runs -----

  /** In every run a window names charger and connector of its trace, and lasts a minute from its acceptance. */
  lemma {:induction false} WindowsNameTheirTrace(s: Tables, steps: seq<Step>, t: Id)
    requires Valid(s) && (t in s.windows ==> Names(s, t))
    ensures t in Run(s, steps).windows ==> Names(Run(s, steps), t)
    decreases |steps|
  {
    if steps != [] {
      StepNames(s, steps[0], t);
      WindowsNameTheirTrace(Apply(s, steps[0]), steps[1..], t);
    }
  }

  predicate Names(s: Tables, t: Id) {
    && t in s.windows && t in s.traces && s.windows[t].charger == s.traces[t].charger
    && s.windows[t].connector == s.traces[t].connector && s.windows[t].deadlineAt == s.windows[t].acceptedAt + 60_000_000_000
  }

  lemma StepNames(s: Tables, step: Step, t: Id)
    requires Valid(s) && (t in s.windows ==> Names(s, t))
    ensures t in Apply(s, step).windows ==> Names(Apply(s, step), t)
  {}

  /** The step settled the window as its state says. */
  ghost predicate SettledBy(step: Step, w: Window) {
    if w.state == Observed then step.Observe? && Answers(w, step.charger, step.action, step.connector, step.at)
    else w.state == Closed && step.Close? && w.deadlineAt <= step.now
  }

  lemma StepSettles(s: Tables, step: Step, t: Id)
    requires Valid(s) && (t in s.windows ==> s.windows[t].state == Open)
    requires t in Apply(s, step).windows && Apply(s, step).windows[t].state != Open
    ensures SettledBy(step, Apply(s, step).windows[t])
  {
    if t in s.windows {
      match step
      case Observe(charger, action, connector, at, uuid) => ObservationSettlesIff(s, charger, action, connector, at, uuid, t);
      case Close(now, limit, ids, uuid) =>
        if limit >= 1 && IsDueBatch(ids, s, now, limit) { ClosingSettles(s, ids, now, limit, uuid, t); }
      case _ =>
    }
  }

  /** An OBSERVED window was answered by an observation of the run, a CLOSED one met its deadline in it. */
  lemma {:induction false} SettlementHasCause(s: Tables, steps: seq<Step>, t: Id) returns (k: nat)
    requires Valid(s) && (t in s.windows ==> s.windows[t].state == Open)
    requires t in Run(s, steps).windows && Run(s, steps).windows[t].state != Open
    ensures k < |steps| && SettledBy(steps[k], Run(s, steps).windows[t])
    decreases |steps|
  {
    var next := Apply(s, steps[0]);
    if t in next.windows && next.windows[t].state != Open {
      k := 0;
      StepSettles(s, steps[0], t);
      AtMostOneTransition(next, steps[1..], t);
    } else {
      var l := SettlementHasCause(next, steps[1..], t);
      k := l + 1;
    }
  }
}
