/** Meter and SoC evidence in the memory store (internal/store/v1_memory.go). */
module MemoryTelemetry {
  import opened Base
  import opened MeterEvidence

  datatype Session = Session(
    charger: Id, ocppId: int, actualStartedAt: Time, observedStartedAt: Time, meterStart: int,
    latest: Option<int>, consumed: Option<int>, meterAt: Option<Time>, meterSequence: nat, anomalies: nat,
    initialSoC: Option<int>, latestSoC: Option<int>, socAt: Option<Time>, socSequence: nat,
    completedAt: Option<Time>, observedCompletedAt: Option<Time>, meterStop: Option<int>, rawMeterStop: Option<int>,
    adjustment: Option<int>, evidence: Option<Class>, ocppReason: Id, stopState: StopState)

  /** The memory store's stop states: none, requested by RequestV1Stop, or completed. */
  datatype StopState = NotStopping | PendingDelivery | Completed

  // ----- specification of one call on one session -----

  predicate EnergyAccepted(s: Session, m: Telemetry) {
    && s.completedAt.None? && m.energyWh.Some? && m.energyAt.Some? && m.energyWh.value >= s.meterStart
    && (s.latest.Some? ==> m.energyWh.value >= s.latest.value)
  }

  predicate SoCAccepted(s: Session, m: Telemetry) {
    && s.completedAt.None? && m.soc.Some? && m.socAt.Some?
    && (s.socAt.Some? ==> m.socAt.value > s.socAt.value)
  }

  function Later(known: Option<Time>, at: Time): Time {
    if known.Some? && at < known.value then known.value else at
  }

  function WithTelemetry(s: Session, m: Telemetry): Session {
    var s1 :=
      if EnergyAccepted(s, m) then
        s.(latest := m.energyWh, consumed := Some(m.energyWh.value - s.meterStart),
           meterAt := Some(Later(s.meterAt, m.energyAt.value)), meterSequence := s.meterSequence + 1)
      else s;
    if SoCAccepted(s, m) then
      s1.(initialSoC := if s.initialSoC.Some? then s.initialSoC else m.soc,
          latestSoC := m.soc, socAt := m.socAt, socSequence := s.socSequence + 1)
    else s1
  }

  /** UpdateV1Meter on an open session and a reading at or above the start. */
  function WithMeter(s: Session, wh: int, at: Time): (Session, Result<()>) {
    if s.latest.Some? && wh < s.latest.value then
      var judged := Classify(s.meterStart, s.latest, wh);
      if judged.Ok? && judged.value.kind == QuantizationNormalized
      then (s.(anomalies := s.anomalies + 1), Ok(())) else (s, Err(InvalidEvidence))
    else
      (s.(latest := Some(wh), consumed := Some(wh - s.meterStart), meterAt := Some(Later(s.meterAt, at)),
          meterSequence := s.meterSequence + 1), Ok(()))
  }

  // ----- any sequence of calls -----

  datatype Input = ByTelemetry(m: Telemetry) | ByMeter(wh: int, at: Time)

  function Receive(s: Session, i: Input): Session {
    match i
    case ByTelemetry(m) => WithTelemetry(s, m)
    case ByMeter(wh, at) => if s.completedAt.Some? || wh < s.meterStart then s else WithMeter(s, wh, at).0
  }

  function ReceiveAll(s: Session, inputs: seq<Input>): Session {
    if inputs == [] then s
    else Receive(ReceiveAll(s, inputs[..|inputs| - 1]), inputs[|inputs| - 1])
  }

  /** The energy reading an input carries, if it lies at or above the start. */
  function ReadingOf(i: Input, start: int): Option<int> {
    match i
    case ByTelemetry(m) => if m.energyWh.Some? && m.energyAt.Some? && m.energyWh.value >= start then m.energyWh else None
    case ByMeter(wh, _) => if wh >= start then Some(wh) else None
  }

  predicate NewSession(s: Session) {
    && s.completedAt.None? && s.latest.None? && s.consumed.None? && s.initialSoC.None? && s.latestSoC.None? && s.socAt.None?
  }

  ghost function Readings(inputs: seq<Input>, start: int): set<int> {
    set i | 0 <= i < |inputs| && ReadingOf(inputs[i], start).Some? :: ReadingOf(inputs[i], start).value
  }

  ghost predicate IsMaximum(latest: Option<int>, readings: set<int>) {
    if readings == {} then latest.None?
    else latest.Some? && latest.value in readings && forall r :: r in readings ==> r <= latest.value
  }

  /** The stored meter is the maximum of all readings at or above the start, and the consumption its distance from there. */
  lemma {:induction false} LatestIsMaximum(s: Session, inputs: seq<Input>)
    requires NewSession(s)
    ensures var r := ReceiveAll(s, inputs);
            && r.completedAt.None? && r.meterStart == s.meterStart
            && IsMaximum(r.latest, Readings(inputs, s.meterStart))
            && r.consumed == (if r.latest.Some? then Some(r.latest.value - s.meterStart) else None)
  {
    if inputs != [] {
      var front, last := inputs[..|inputs| - 1], inputs[|inputs| - 1];
      LatestIsMaximum(s, front);
      assert inputs == front + [last];
      OneMoreReading(front, last, s.meterStart);
      MaximumOfMore(ReceiveAll(s, front), last, Readings(front, s.meterStart));
    }
  }

  ghost function Added(i: Input, start: int): set<int> {
    if ReadingOf(i, start).Some? then {ReadingOf(i, start).value} else {}
  }

  lemma OneMoreReading(front: seq<Input>, last: Input, start: int)
    ensures Readings(front + [last], start) == Readings(front, start) + Added(last, start)
  {
    var all := front + [last];
    assert all[|front|] == last && forall i :: 0 <= i < |front| ==> all[i] == front[i];
    forall r | r in Readings(front, start) ensures r in Readings(all, start) {
      var i :| 0 <= i < |front| && ReadingOf(front[i], start).Some? && ReadingOf(front[i], start).value == r;
      assert ReadingOf(all[i], start).value == r;
    }
    if ReadingOf(last, start).Some? { assert ReadingOf(all[|front|], start).Some?; }
  }

  lemma MaximumOfMore(s: Session, last: Input, readings: set<int>)
    requires s.completedAt.None? && IsMaximum(s.latest, readings)
    requires s.consumed == (if s.latest.Some? then Some(s.latest.value - s.meterStart) else None)
    ensures var r := Receive(s, last);
            && r.completedAt.None? && r.meterStart == s.meterStart && IsMaximum(r.latest, readings + Added(last, s.meterStart))
            && r.consumed == (if r.latest.Some? then Some(r.latest.value - s.meterStart) else None)
  {}

  /** So the arrival order of the readings does not matter. */
  lemma ArrivalOrderDoesNotMatter(s: Session, a: seq<Input>, b: seq<Input>)
    requires NewSession(s) && Readings(a, s.meterStart) == Readings(b, s.meterStart)
    ensures ReceiveAll(s, a).latest == ReceiveAll(s, b).latest
    ensures ReceiveAll(s, a).consumed == ReceiveAll(s, b).consumed
  {
    LatestIsMaximum(s, a);
    LatestIsMaximum(s, b);
  }

  predicate CarriesSoC(i: Input) {
    i.ByTelemetry? && i.m.soc.Some? && i.m.socAt.Some?
  }

  /** Input `i` is the first to arrive among those with the greatest SoC timestamp. */
  ghost predicate FirstAtGreatest(inputs: seq<Input>, i: nat) {
    && i < |inputs| && CarriesSoC(inputs[i])
    && (forall j :: 0 <= j < |inputs| && CarriesSoC(inputs[j]) ==>
          inputs[j].m.socAt.value <= inputs[i].m.socAt.value
          && (j < i ==> inputs[j].m.socAt.value < inputs[i].m.socAt.value))
  }

  ghost predicate FirstSoC(inputs: seq<Input>, i: nat) {
    i < |inputs| && CarriesSoC(inputs[i]) && forall j :: 0 <= j < i ==> !CarriesSoC(inputs[j])
  }

  ghost predicate NoSoC(inputs: seq<Input>) {
    forall i :: 0 <= i < |inputs| ==> !CarriesSoC(inputs[i])
  }

  /** The SoC columns after inputs of which `greatest` is the first at the greatest time and `first` the first. */
  ghost predicate Holds(s: Session, inputs: seq<Input>, greatest: nat, first: nat) {
    && FirstAtGreatest(inputs, greatest) && FirstSoC(inputs, first)
    && s.latestSoC == inputs[greatest].m.soc && s.socAt == inputs[greatest].m.socAt && s.initialSoC == inputs[first].m.soc
  }

  /** The latest SoC is the first-arrived value at the greatest timestamp; the initial one never changes. */
  lemma {:induction false} SoCIsFirstAtGreatest(s: Session, inputs: seq<Input>) returns (greatest: nat, first: nat)
    requires NewSession(s)
    ensures var r := ReceiveAll(s, inputs);
            && r.completedAt.None?
            && (if NoSoC(inputs) then r.latestSoC.None? && r.initialSoC.None? && r.socAt.None?
                else Holds(r, inputs, greatest, first))
    decreases |inputs|
  {
    greatest, first := 0, 0;
    if inputs != [] {
      var front, last := inputs[..|inputs| - 1], inputs[|inputs| - 1];
      greatest, first := SoCIsFirstAtGreatest(s, front);
      assert inputs == front + [last];
      var before := ReceiveAll(s, front);
      if !NoSoC(front) {
        greatest := HoldsWithOneMore(before, front, last, greatest, first);
      } else {
        ReceivedSoC(before, last);
        if CarriesSoC(last) { greatest, first := |front|, |front|; }
      }
    }
  }

  lemma HoldsWithOneMore(s: Session, front: seq<Input>, last: Input, greatest: nat, first: nat) returns (greatest': nat)
    requires s.completedAt.None? && Holds(s, front, greatest, first)
    ensures Holds(Receive(s, last), front + [last], greatest', first)
  {
    var all := front + [last];
    assert all[|front|] == last && forall i :: 0 <= i < |front| ==> all[i] == front[i];
    ReceivedSoC(s, last);
    greatest' := if CarriesSoC(last) && last.m.socAt.value > front[greatest].m.socAt.value then |front| else greatest;
  }

  /** What one more input does to the SoC columns of an open session. */
  lemma ReceivedSoC(s: Session, i: Input)
    requires s.completedAt.None?
    ensures Receive(s, i).completedAt.None?
    ensures var r := Receive(s, i);
            if CarriesSoC(i) && (s.socAt.Some? ==> i.m.socAt.value > s.socAt.value)
            then r.latestSoC == i.m.soc && r.socAt == i.m.socAt
                 && r.initialSoC == (if s.initialSoC.Some? then s.initialSoC else i.m.soc)
            else r.latestSoC == s.latestSoC && r.socAt == s.socAt && r.initialSoC == s.initialSoC
  {}

  /** Energy-only and SoC-only updates commute. */
  lemma EnergyAndSoCCommute(s: Session, energy: Telemetry, soc: Telemetry)
    requires energy.soc.None? && soc.energyWh.None?
    ensures WithTelemetry(WithTelemetry(s, energy), soc) == WithTelemetry(WithTelemetry(s, soc), energy)
  {}

  // ----- one call -----

  /** The meter columns move together: value, consumption, number, and the time unless it is older. */
  predicate Advanced(s: Session, r: Session, wh: int, at: Time) {
    && r.latest == Some(wh) && r.consumed == Some(wh - s.meterStart) && r.meterSequence == s.meterSequence + 1
    && r.meterAt == Some(if s.meterAt.Some? && s.meterAt.value > at then s.meterAt.value else at)
  }

  /** Telemetry advances the meter exactly with a timed reading not under the start or the latest, the SoC with a later one. */
  lemma TelemetryRecords(s: Session, m: Telemetry)
    ensures var r := WithTelemetry(s, m);
            && r == s.(latest := r.latest, consumed := r.consumed, meterAt := r.meterAt, meterSequence := r.meterSequence,
                       initialSoC := r.initialSoC, latestSoC := r.latestSoC, socAt := r.socAt, socSequence := r.socSequence)
            && (if s.completedAt.None? && m.energyWh.Some? && m.energyAt.Some? && m.energyWh.value >= s.meterStart
                   && (s.latest.None? || m.energyWh.value >= s.latest.value)
                then Advanced(s, r, m.energyWh.value, m.energyAt.value)
                else r.latest == s.latest && r.consumed == s.consumed && r.meterAt == s.meterAt && r.meterSequence == s.meterSequence)
            && (if s.completedAt.None? && m.soc.Some? && m.socAt.Some? && (s.socAt.None? || m.socAt.value > s.socAt.value)
                then r.latestSoC == m.soc && r.socAt == m.socAt && r.socSequence == s.socSequence + 1
                     && r.initialSoC == if s.initialSoC.Some? then s.initialSoC else m.soc
                else r.latestSoC == s.latestSoC && r.socAt == s.socAt && r.socSequence == s.socSequence && r.initialSoC == s.initialSoC)
  {}

  /** A meter call advances, counts a rollback of one Wh, or refuses a deeper one. */
  lemma MeterReplies(s: Session, wh: int, at: Time)
    requires wh >= s.meterStart
    ensures var r := WithMeter(s, wh, at);
            if s.latest.None? || wh >= s.latest.value then
              && r.1 == Ok(()) && Advanced(s, r.0, wh, at)
              && r.0 == s.(latest := r.0.latest, consumed := r.0.consumed, meterAt := r.0.meterAt, meterSequence := r.0.meterSequence)
            else if wh == s.latest.value - 1 then r == (s.(anomalies := s.anomalies + 1), Ok(()))
            else r == (s, Err(InvalidEvidence))
  {}

  // ----- completion -----

  predicate Admissible(s: Session, e: StopEvidence) {
    && e.completedAt >= s.actualStartedAt && e.observedAt >= s.observedStartedAt && Plausible(e.completedAt, e.observedAt)
    && !(s.meterAt.Some? && s.meterAt.value > e.completedAt && s.latest.Some? && e.meterStop < s.latest.value)
    && Classify(s.meterStart, s.latest, e.meterStop).Ok?
  }

  function WithCompletion(s: Session, e: StopEvidence): (Session, Result<()>) {
    if s.completedAt.Some? then
      var expected := if s.rawMeterStop.Some? then s.rawMeterStop else s.meterStop;
      (s, if expected == Some(e.meterStop) && s.ocppReason == e.reason && s.completedAt == Some(e.completedAt)
          then Ok(()) else Err(InvalidEvidence))
    else if !Admissible(s, e) then (s, Err(InvalidEvidence))
    else
      var evidence := Classify(s.meterStart, s.latest, e.meterStop).value;
      (s.(meterStop := Some(evidence.effectiveWh), rawMeterStop := Some(e.meterStop), adjustment := Some(evidence.adjustmentWh),
          latest := Some(evidence.effectiveWh), consumed := Some(evidence.effectiveWh - s.meterStart),
          meterAt := Some(Later(s.meterAt, e.completedAt)), ocppReason := e.reason, completedAt := Some(e.completedAt),
          evidence := Some(evidence.kind), observedCompletedAt := Some(e.observedAt), stopState := Completed),
       Ok(()))
  }

  /** Retransmission in memory keeps full precision: accepted exactly when nothing differs, never a change. */
  lemma CompletionIsIdempotent(s: Session, e: StopEvidence, again: StopEvidence)
    requires s.completedAt.None? && WithCompletion(s, e).1.Ok?
    ensures var done := WithCompletion(s, e).0;
            && WithCompletion(done, again).0 == done
            && (WithCompletion(done, again).1.Ok? <==>
                  again.meterStop == e.meterStop && again.reason == e.reason && again.completedAt == e.completedAt)
            && done.meterStop.value == e.meterStop + done.adjustment.value && 0 <= done.adjustment.value <= 1
            && (s.latest.Some? ==> done.latest.value >= s.latest.value)
  {}

  // ----- the store -----

  class MemoryStore {
    var sessions: map<Id, Session>

    constructor ()
      ensures sessions == map[]
    {
      sessions := map[];
    }

    ghost predicate Matches(t: Id, charger: Id, ocppId: int)
      reads this
    {
      t in sessions && sessions[t].charger == charger && sessions[t].ocppId == ocppId
    }

    /** Visits the sessions in map order and updates the first one that matches. */
    method UpdateTelemetry(charger: Id, ocppId: int, m: Telemetry) returns (found: Option<Id>, energy: bool, soc: bool)
      modifies this
      ensures found.None? <==> forall t :: !old(Matches(t, charger, ocppId))
      ensures found.None? ==> sessions == old(sessions) && !energy && !soc
      ensures found.Some? ==>
                && old(Matches(found.value, charger, ocppId))
                && sessions == old(sessions)[found.value := WithTelemetry(old(sessions)[found.value], m)]
                && energy == EnergyAccepted(old(sessions)[found.value], m)
                && soc == SoCAccepted(old(sessions)[found.value], m)
    {
      found, energy, soc := None, false, false;
      var pending := sessions.Keys;
      while pending != {}
        invariant pending <= sessions.Keys && sessions == old(sessions)
        invariant forall t :: t in sessions && t !in pending ==> !Matches(t, charger, ocppId)
        decreases |pending|
      {
        var t :| t in pending;
        pending := pending - {t};
        var session := sessions[t];
        if session.charger == charger && session.ocppId == ocppId {
          found := Some(t);
          assert old(Matches(t, charger, ocppId));
          if session.completedAt.Some? {
            return;
          }
          var current := session;
          if m.energyWh.Some? && m.energyAt.Some? && m.energyWh.value >= session.meterStart
             && (session.latest.None? || m.energyWh.value >= session.latest.value) {
            var observed := m.energyAt.value;
            if session.meterAt.Some? && observed < session.meterAt.value {
              observed := session.meterAt.value;
            }
            current := current.(latest := m.energyWh, consumed := Some(m.energyWh.value - session.meterStart),
                                meterAt := Some(observed), meterSequence := session.meterSequence + 1);
            energy := true;
          }
          if m.soc.Some? && m.socAt.Some? && (session.socAt.None? || m.socAt.value > session.socAt.value) {
            if session.initialSoC.None? {
              current := current.(initialSoC := m.soc);
            }
            current := current.(latestSoC := m.soc, socAt := m.socAt, socSequence := session.socSequence + 1);
            soc := true;
          }
          sessions := sessions[t := current];
          return;
        }
      }
    }

    ghost predicate Measurable(t: Id, ocppId: int, wh: int)
      reads this
    {
      t in sessions && sessions[t].ocppId == ocppId && sessions[t].completedAt.None? && wh >= sessions[t].meterStart
    }

    method UpdateMeter(t: Id, ocppId: int, wh: int, at: Time) returns (r: Result<()>)
      modifies this
      ensures old(Measurable(t, ocppId, wh)) ==>
                && sessions == old(sessions)[t := WithMeter(old(sessions)[t], wh, at).0]
                && r == WithMeter(old(sessions)[t], wh, at).1
      ensures !old(Measurable(t, ocppId, wh)) ==> sessions == old(sessions) && r == Err(NotFound)
    {
      if t !in sessions || sessions[t].ocppId != ocppId || sessions[t].completedAt.Some? || wh < sessions[t].meterStart {
        return Err(NotFound);
      }
      var session := sessions[t];
      if session.latest.Some? && wh < session.latest.value {
        var judged := Classify(session.meterStart, session.latest, wh);
        if judged.Err? || judged.value.kind != QuantizationNormalized {
          return Err(InvalidEvidence);
        }
        sessions := sessions[t := session.(anomalies := session.anomalies + 1)];
        return Ok(());
      }
      session := session.(latest := Some(wh), consumed := Some(wh - session.meterStart));
      if session.meterAt.None? || at > session.meterAt.value {
        session := session.(meterAt := Some(at));
      }
      sessions := sessions[t := session.(meterSequence := session.meterSequence + 1)];
      r := Ok(());
    }

    method Complete(t: Id, e: StopEvidence) returns (r: Result<()>)
      modifies this
      ensures t !in old(sessions) ==> r == Err(NotFound) && sessions == old(sessions)
      ensures t in old(sessions) ==>
                && sessions == old(sessions)[t := WithCompletion(old(sessions)[t], e).0]
                && r == WithCompletion(old(sessions)[t], e).1
    {
      if t !in sessions {
        return Err(NotFound);
      }
      var session := sessions[t];
      if session.completedAt.Some? {
        var expected := session.meterStop;
        if session.rawMeterStop.Some? {
          expected := session.rawMeterStop;
        }
        if expected != Some(e.meterStop) || session.ocppReason != e.reason || session.completedAt != Some(e.completedAt) {
          return Err(InvalidEvidence);
        }
        return Ok(());
      }
      if e.completedAt < session.actualStartedAt || e.observedAt < session.observedStartedAt || !Plausible(e.completedAt, e.observedAt) {
        return Err(InvalidEvidence);
      }
      if session.meterAt.Some? && session.meterAt.value > e.completedAt && session.latest.Some? && e.meterStop < session.latest.value {
        return Err(InvalidEvidence);
      }
      var judged := Classify(session.meterStart, session.latest, e.meterStop);
      if judged.Err? {
        return Err(InvalidEvidence);
      }
      var effective := judged.value.effectiveWh;
      session := session.(meterStop := Some(effective), rawMeterStop := Some(e.meterStop), adjustment := Some(judged.value.adjustmentWh),
                          evidence := Some(judged.value.kind), latest := Some(effective), consumed := Some(effective - session.meterStart));
      if session.meterAt.None? || e.completedAt > session.meterAt.value {
        session := session.(meterAt := Some(e.completedAt));
      }
      sessions := sessions[t := session.(ocppReason := e.reason, stopState := Completed,
                                         completedAt := Some(e.completedAt), observedCompletedAt := Some(e.observedAt))];
      r := Ok(());
    }
  }
}
