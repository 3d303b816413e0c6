/** internal/store/v1_meter_evidence.go: how one raw meter reading relates to the stored one. */
module MeterEvidence {
  import opened Base

  const TOLERANCE_WH: int := 1

  /** What a MeterValues request and a StopTransaction request bring to either store. */
  datatype Telemetry = Telemetry(
    energyWh: Option<int>, energyAt: Option<Time>, soc: Option<int>, socAt: Option<Time>)
  datatype StopEvidence = StopEvidence(meterStop: int, reason: Id, completedAt: Time, observedAt: Time)

  datatype Class = Exact | Forward | QuantizationNormalized

  datatype Evidence = Evidence(kind: Class, effectiveWh: int, adjustmentWh: int)

  /**
   * Accepted evidence never moves the meter backwards: the effective value is the maximum of
   * the stored and the raw reading and the adjustment is exactly what was added to the raw one.
   * A reading is refused just when it lies under the start or more than 1 Wh under the latest.
   */
  function Classify(meterStart: int, latest: Option<int>, raw: int): (r: Result<Evidence>)
    ensures r.Ok? <==> raw >= meterStart && (latest.Some? ==> raw >= latest.value - TOLERANCE_WH)
    ensures r.Ok? ==>
              && r.value.effectiveWh == (if latest.Some? && latest.value > raw then latest.value else raw)
              && r.value.effectiveWh == raw + r.value.adjustmentWh
              && 0 <= r.value.adjustmentWh <= 1
              && (r.value.kind == QuantizationNormalized <==> r.value.adjustmentWh == 1)
              && (r.value.kind == Forward <==> latest.Some? && raw > latest.value)
    ensures r.Err? ==> r.error == InvalidEvidence
  {
    if raw < meterStart then Err(InvalidEvidence)
    else if latest.None? || raw == latest.value then Ok(Evidence(Exact, raw, 0))
    else if raw > latest.value then Ok(Evidence(Forward, raw, 0))
    else if latest.value - raw <= TOLERANCE_WH then
      Ok(Evidence(QuantizationNormalized, latest.value, latest.value - raw))
    else Err(InvalidEvidence)
  }
}
