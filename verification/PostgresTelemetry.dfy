/** Any telemetry on one open row: the SoC kept within a microsecond, and a meter that trails by the counted rollbacks. */
module PostgresTelemetry {
  import opened Base
  import opened MeterEvidence
  import opened LifecycleTables
  import MemoryTelemetry

  type Input = MemoryTelemetry.Input

  /** UpdateV1Meter goes through the telemetry update with an energy reading alone. */
  function AsTelemetry(i: Input): Telemetry {
    match i
    case ByTelemetry(m) => m
    case ByMeter(wh, at) => Telemetry(Some(wh), Some(at), None, None)
  }

  function ReceiveAll(tx: Transaction, inputs: seq<Input>): Transaction {
    if inputs == [] then tx
    else UpdatedRow(ReceiveAll(tx, inputs[..|inputs| - 1]), AsTelemetry(inputs[|inputs| - 1]))
  }

  predicate NewRow(tx: Transaction) {
    !tx.Done() && tx.soc == SoC(None, None, None, 0)
  }

  /** Input `k` is the last to arrive later than the stored time of `greatest`, or is `greatest` itself. */
  ghost predicate LastInMicrosecond(inputs: seq<Input>, greatest: nat, k: nat)
    requires greatest < |inputs| && MemoryTelemetry.CarriesSoC(inputs[greatest])
  {
    var stored := Stored(inputs[greatest].m.socAt.value);
    && greatest <= k < |inputs| && MemoryTelemetry.CarriesSoC(inputs[k])
    && (k == greatest || inputs[k].m.socAt.value > stored)
    && (forall j :: k < j < |inputs| && MemoryTelemetry.CarriesSoC(inputs[j]) ==> inputs[j].m.socAt.value <= stored)
  }

  /** What one more input does to the SoC columns of an open row. */
  lemma ReceivedSoC(tx: Transaction, i: Input)
    requires !tx.Done()
    ensures var r := UpdatedRow(tx, AsTelemetry(i));
            && !r.Done()
            && r.soc == if MemoryTelemetry.CarriesSoC(i) && (tx.soc.observedAt.Some? ==> i.m.socAt.value > tx.soc.observedAt.value)
                        then SoC(if tx.soc.initial.Some? then tx.soc.initial else i.m.soc, i.m.soc,
                                 Some(Stored(i.m.socAt.value)), tx.soc.sequence + 1)
                        else tx.soc
  {}

  /** The columns after inputs of which `greatest` has the greatest time, `kept` the kept value, `first` the first. */
  ghost predicate Holds(soc: SoC, inputs: seq<Input>, greatest: nat, kept: nat, first: nat) {
    && MemoryTelemetry.FirstAtGreatest(inputs, greatest) && MemoryTelemetry.FirstSoC(inputs, first)
    && LastInMicrosecond(inputs, greatest, kept)
    && soc.initial == inputs[first].m.soc && soc.latest == inputs[kept].m.soc
    && soc.observedAt == Some(Stored(inputs[greatest].m.socAt.value))
  }

  lemma HoldsWithOneMore(soc: SoC, front: seq<Input>, last: Input, greatest: nat, kept: nat, first: nat)
    returns (greatest': nat, kept': nat)
    requires Holds(soc, front, greatest, kept, first)
    ensures var all := front + [last];
            if MemoryTelemetry.CarriesSoC(last) && last.m.socAt.value > soc.observedAt.value
            then Holds(SoC(soc.initial, last.m.soc, Some(Stored(last.m.socAt.value)), soc.sequence + 1), all, greatest', kept', first)
            else Holds(soc, all, greatest', kept', first)
  {
    var all := front + [last];
    assert all[|front|] == last && forall i :: 0 <= i < |front| ==> all[i] == front[i];
    greatest', kept' := greatest, kept;
    if MemoryTelemetry.CarriesSoC(last) && last.m.socAt.value > soc.observedAt.value {
      kept' := |front|;
      if last.m.socAt.value > front[greatest].m.socAt.value {
        greatest' := |front|;
      } else {
        SameMicrosecond(last.m.socAt.value, front[greatest].m.socAt.value);
      }
    }
  }

  lemma SameMicrosecond(a: Time, b: Time)
    requires Stored(b) < a <= b
    ensures Stored(a) == Stored(b)
  {}

  /** The kept value is the last one that arrived within the microsecond of the greatest time. */
  lemma {:induction false} SoCIsLastInMicrosecond(tx: Transaction, inputs: seq<Input>)
    returns (greatest: nat, kept: nat, first: nat)
    requires NewRow(tx)
    ensures var r := ReceiveAll(tx, inputs);
            && !r.Done()
            && (if MemoryTelemetry.NoSoC(inputs) then r.soc == tx.soc else Holds(r.soc, inputs, greatest, kept, first))
    decreases |inputs|
  {
    greatest, kept, first := 0, 0, 0;
    if inputs != [] {
      var front, last := inputs[..|inputs| - 1], inputs[|inputs| - 1];
      greatest, kept, first := SoCIsLastInMicrosecond(tx, front);
      assert inputs == front + [last];
      var before := ReceiveAll(tx, front);
      ReceivedSoC(before, last);
      if !MemoryTelemetry.NoSoC(front) {
        greatest, kept := HoldsWithOneMore(before.soc, front, last, greatest, kept, first);
      } else if MemoryTelemetry.CarriesSoC(last) {
        greatest, kept, first := |front|, |front|, |front|;
      }
    }
  }

  /** Nothing that arrives after `greatest` lies above its stored time. */
  ghost predicate Undercut(inputs: seq<Input>, greatest: nat)
    requires greatest < |inputs| && MemoryTelemetry.CarriesSoC(inputs[greatest])
  {
    forall j :: greatest < j < |inputs| && MemoryTelemetry.CarriesSoC(inputs[j]) ==>
      inputs[j].m.socAt.value <= Stored(inputs[greatest].m.socAt.value)
  }

  /**
   * The first-arrived value at the greatest time is kept, as in memory, if and only if no later
   * input falls into the rest of its microsecond.
   */
  lemma FirstIsKeptIff(tx: Transaction, inputs: seq<Input>) returns (greatest: nat, kept: nat)
    requires NewRow(tx) && !MemoryTelemetry.NoSoC(inputs)
    ensures MemoryTelemetry.FirstAtGreatest(inputs, greatest) && LastInMicrosecond(inputs, greatest, kept)
    ensures ReceiveAll(tx, inputs).soc.latest == inputs[kept].m.soc
    ensures kept == greatest <==> Undercut(inputs, greatest)
  {
    var first: nat;
    greatest, kept, first := SoCIsLastInMicrosecond(tx, inputs);
  }

  /** In particular when every time is a whole number of microseconds. */
  lemma WholeMicrosecondsKeepFirst(tx: Transaction, inputs: seq<Input>) returns (greatest: nat)
    requires NewRow(tx) && !MemoryTelemetry.NoSoC(inputs)
    requires forall i :: 0 <= i < |inputs| && MemoryTelemetry.CarriesSoC(inputs[i]) ==> inputs[i].m.socAt.value % MICROSECOND == 0
    ensures MemoryTelemetry.FirstAtGreatest(inputs, greatest) && ReceiveAll(tx, inputs).soc.latest == inputs[greatest].m.soc
  {
    var kept: nat;
    greatest, kept := FirstIsKeptIff(tx, inputs);
    assert inputs[greatest].m.socAt.value % MICROSECOND == 0;
  }

  /** An accepted observation is accepted again exactly when its time is no whole microsecond. */
  lemma AcceptedAgainIff(tx: Transaction, m: Telemetry)
    requires SoCAccepted(tx, m)
    ensures SoCAccepted(SoCRow(tx, m), m) <==> m.socAt.value % MICROSECOND != 0
  {}

  const FORTY: Input := MemoryTelemetry.ByTelemetry(Telemetry(None, None, Some(40_000), Some(1_500)))
  const FIFTY: Input := MemoryTelemetry.ByTelemetry(Telemetry(None, None, Some(50_000), Some(1_500)))

  /** A different value at the same instant replaces the first in PostgreSQL and not in memory. */
  lemma SameInstantOverwrites(tx: Transaction, s: MemoryTelemetry.Session)
    requires NewRow(tx) && MemoryTelemetry.NewSession(s)
    ensures ReceiveAll(tx, [FORTY, FIFTY]).soc.latest == Some(50_000)
    ensures MemoryTelemetry.ReceiveAll(s, [FORTY, FIFTY]).latestSoC == Some(40_000)
  {
    var both := [FORTY, FIFTY];
    assert both[..1] == [FORTY] && [FORTY][..0] == [];
    assert ReceiveAll(tx, [FORTY]) == UpdatedRow(ReceiveAll(tx, []), AsTelemetry(FORTY));
    assert MemoryTelemetry.ReceiveAll(s, [FORTY]) == MemoryTelemetry.Receive(MemoryTelemetry.ReceiveAll(s, []), FORTY);
  }

  // ----- the meter -----

  predicate NewMeter(tx: Transaction) {
    !tx.Done() && tx.meter == Meter(None, None, 0, 0)
  }

  /** The latest value is one of the readings, and none lies above it by more than the counted rollbacks. */
  ghost predicate Covers(meter: Meter, readings: set<int>) {
    && (meter.latest.None? <==> readings == {})
    && (meter.latest.Some? ==> meter.latest.value in readings)
    && forall wh :: wh in readings ==> meter.latest.Some? && wh <= meter.latest.value + meter.anomalies
  }

  /** After any inputs on an open row: no reading at or above the start is lost, and none is invented. */
  lemma {:induction false} NothingIsLost(tx: Transaction, inputs: seq<Input>)
    requires NewMeter(tx)
    ensures var r := ReceiveAll(tx, inputs);
            !r.Done() && r.meterStart == tx.meterStart && Covers(r.meter, MemoryTelemetry.Readings(inputs, tx.meterStart))
    decreases |inputs|
  {
    if inputs != [] {
      var front, last := inputs[..|inputs| - 1], inputs[|inputs| - 1];
      NothingIsLost(tx, front);
      assert inputs == front + [last];
      MemoryTelemetry.OneMoreReading(front, last, tx.meterStart);
      OneMoreCovered(ReceiveAll(tx, front), last, MemoryTelemetry.Readings(front, tx.meterStart));
    }
  }

  lemma OneMoreCovered(tx: Transaction, i: Input, readings: set<int>)
    requires !tx.Done() && Covers(tx.meter, readings) && forall wh :: wh in readings ==> wh >= tx.meterStart
    ensures var r := UpdatedRow(tx, AsTelemetry(i));
            !r.Done() && r.meterStart == tx.meterStart && Covers(r.meter, readings + MemoryTelemetry.Added(i, tx.meterStart))
  {}

  /** Against the memory store, which keeps the maximum, PostgreSQL trails by at most the counted rollbacks. */
  lemma TrailsMemory(tx: Transaction, s: MemoryTelemetry.Session, inputs: seq<Input>)
    requires NewMeter(tx) && MemoryTelemetry.NewSession(s) && s.meterStart == tx.meterStart
    ensures var latest, kept := ReceiveAll(tx, inputs).meter, MemoryTelemetry.ReceiveAll(s, inputs).latest;
            && (latest.latest.None? <==> kept.None?)
            && (kept.Some? ==> latest.latest.value <= kept.value <= latest.latest.value + latest.anomalies)
  {
    NothingIsLost(tx, inputs);
    MemoryTelemetry.LatestIsMaximum(s, inputs);
  }
}
