/** What one MeterValues request contributes (internal/ocpp16hal/v1.go). */
module MeterExtraction {
  import opened Base
  import opened MeterEvidence
  import opened SoCPercent

  /** The text of one sampled value, as transmitted. */
  datatype Sample = Sample(value: string, measurand: string, unit: string)

  datatype MeterValue = MeterValue(timestamp: Option<Time>, samples: seq<Sample>)

  // ----- names and units -----

  /** Simple case folding onto lower-case letters: besides A to Z, the Kelvin sign and the long s. */
  function Fold(c: char): char {
    if 'A' <= c <= 'Z' then c + 32 as char
    else if c == '\U{212A}' then 'k'
    else if c == '\U{017F}' then 's'
    else c
  }

  /** Lower case: besides A to Z, the Kelvin sign and the dotted capital I have lower-case letters of ASCII. */
  function Lower(c: char): char {
    if 'A' <= c <= 'Z' then c + 32 as char
    else if c == '\U{212A}' then 'k'
    else if c == '\U{0130}' then 'i'
    else c
  }

  function Each(s: string, f: char -> char): (r: string)
    ensures |r| == |s| && forall i :: 0 <= i < |s| ==> r[i] == f(s[i])
  {
    if s == [] then [] else [f(s[0])] + Each(s[1..], f)
  }

  predicate EnergyName(measurand: string) {
    var name := Each(Trim(measurand), Fold);
    name == "energy.active.import.register" || name == "energy.active.import"
  }

  predicate SoCName(measurand: string) {
    Each(Trim(measurand), Fold) == "soc"
  }

  predicate Kilo(unit: string) {
    var name := Each(Trim(unit), Lower);
    name == "kwh" || name == "kilowatthour"
  }

  predicate PercentUnit(unit: string) {
    Each(Trim(unit), Lower) in {"", "percent", "%"}
  }

  // ----- which texts those are -----

  /** Besides the capitals, one more letter is read as k and one as s, or as i. */
  const FOLDED: map<char, char> := map['k' := '\U{212A}', 's' := '\U{017F}']
  const LOWERED: map<char, char> := map['k' := '\U{212A}', 'i' := '\U{0130}']

  predicate Letter(written: char, meant: char, also: map<char, char>) {
    || written == meant
    || ('A' <= written <= 'Z' && 'a' <= meant <= 'z' && written as int - 'A' as int == meant as int - 'a' as int)
    || (meant in also && written == also[meant])
  }

  /** The text is the name, letter by letter and in any case. */
  predicate Written(text: string, name: string, also: map<char, char>) {
    |text| == |name| && forall i :: 0 <= i < |text| ==> Letter(text[i], name[i], also)
  }

  /** A name without capitals and without the other letters. */
  predicate Plainly(name: string) {
    forall i :: 0 <= i < |name| ==> name[i] < 'A' || 'Z' < name[i] < '\U{0080}'
  }

  lemma FoldedIff(text: string, name: string)
    requires Plainly(name)
    ensures Each(text, Fold) == name <==> Written(text, name, FOLDED)
  {
    forall c: char, d: char | d < 'A' || 'Z' < d < '\U{0080}' ensures Fold(c) == d <==> Letter(c, d, FOLDED) {}
    SameLetters(text, name, Fold, FOLDED);
  }

  lemma LoweredIff(text: string, name: string)
    requires Plainly(name)
    ensures Each(text, Lower) == name <==> Written(text, name, LOWERED)
  {
    forall c: char, d: char | d < 'A' || 'Z' < d < '\U{0080}' ensures Lower(c) == d <==> Letter(c, d, LOWERED) {}
    SameLetters(text, name, Lower, LOWERED);
  }

  lemma SameLetters(text: string, name: string, f: char -> char, also: map<char, char>)
    requires Plainly(name)
    requires forall c: char, d: char :: d < 'A' || 'Z' < d < '\U{0080}' ==> (f(c) == d <==> Letter(c, d, also))
    ensures Each(text, f) == name <==> Written(text, name, also)
  {
    if Written(text, name, also) {
      assert forall i :: 0 <= i < |text| ==> Letter(text[i], name[i], also);
      assert Each(text, f) == name;
    }
    if Each(text, f) == name {
      forall i | 0 <= i < |text| ensures Letter(text[i], name[i], also) {
        assert f(text[i]) == name[i];
      }
    }
  }

  /** Kilowatt-hours are written kWh or kilowatthour, a percentage as such or not at all. */
  lemma Units(text: string)
    ensures Kilo(text) <==> Written(Trim(text), "kwh", LOWERED) || Written(Trim(text), "kilowatthour", LOWERED)
    ensures PercentUnit(text) <==> Trim(text) == "" || Written(Trim(text), "percent", LOWERED) || Trim(text) == "%"
  {
    LoweredIff(Trim(text), "kwh");
    LoweredIff(Trim(text), "kilowatthour");
    PercentUnits(Trim(text));
  }

  lemma PercentUnits(name: string)
    ensures Each(name, Lower) in {"", "percent", "%"} <==> name == "" || Written(name, "percent", LOWERED) || name == "%"
  {
    LoweredIff(name, "percent");
    LoweredIff(name, "%");
  }

  /** An energy register goes by its full or its short name, a state of charge by SoC. */
  lemma Names(text: string)
    ensures EnergyName(text) <==>
              Written(Trim(text), "energy.active.import.register", FOLDED) || Written(Trim(text), "energy.active.import", FOLDED)
    ensures SoCName(text) <==> Written(Trim(text), "soc", FOLDED)
  {
    FoldedIff(Trim(text), "soc");
    FoldedIff(Trim(text), "energy.active.import");
    FoldedIff(Trim(text), "energy.active.import.register");
  }

  // ----- energy text -----

  /** parseV1EnergyWh: a whole number of watt-hours that fits 64 bits. */
  function EnergyWh(raw: string, unit: string, others: Notations): Option<int> {
    match SetString(Trim(raw), others)
    case None => None
    case Some(q) =>
      var num := if Kilo(unit) then q.num * SCALE else q.num;
      if num % q.den != 0 || !Fits64(num / q.den) then None else Some(num / q.den)
  }

  /** The text amounts to exactly v watt-hours in its unit. */
  ghost predicate AmountsToWh(text: string, unit: string, others: Notations, v: int) {
    if Plain(text) then Denotes(text, if Kilo(unit) then v as real / 1000.0 else v as real)
    else others(text).Some? && (if Kilo(unit) then others(text).value.num * SCALE else others(text).value.num) == v * others(text).value.den
  }

  lemma WholeQuotient(num: int, den: nat, v: int)
    requires den >= 1
    ensures num % den == 0 && num / den == v <==> num == v * den
  {
    if num == v * den {
      Division(num, v, den);
    } else if num % den == 0 {
      Divisible(num, den);
    }
  }

  lemma EnergyQuotient(raw: string, unit: string, others: Notations, q: Ratio, v: int)
    requires SetString(Trim(raw), others) == Some(q)
    ensures EnergyWh(raw, unit, others) == Some(v) <==> Fits64(v) && (if Kilo(unit) then q.num * SCALE else q.num) == v * q.den
  {
    WholeQuotient(if Kilo(unit) then q.num * SCALE else q.num, q.den, v);
  }

  lemma EnergyNumeral(raw: string, unit: string, others: Notations, n: Numeral, v: int)
    requires n.WellFormed() && n.Text() == Trim(raw)
    ensures EnergyWh(raw, unit, others) == Some(v) <==>
            Fits64(v) && n.Value() == (if Kilo(unit) then v as real / 1000.0 else v as real)
  {
    NumeralIsRead(n, others);
    EnergyQuotient(raw, unit, others, QuotientOf(n), v);
    if Kilo(unit) {
      QuotientIsValue(n, v);
    } else {
      QuotientIsInteger(n, v);
    }
  }

  lemma QuotientIsInteger(n: Numeral, v: int)
    requires n.WellFormed()
    ensures QuotientOf(n).num == v * QuotientOf(n).den <==> n.Value() == v as real
  {
    QuotientIsValue(n, SCALE * v);
    Rescaled(QuotientOf(n).num, v, QuotientOf(n).den);
  }

  lemma Rescaled(num: int, v: int, den: int)
    ensures num * SCALE == (SCALE * v) * den <==> num == v * den
    ensures (SCALE * v) as real / 1000.0 == v as real
  {
    assert (SCALE * v) * den == SCALE * (v * den);
  }

  /** The energy parser returns v exactly for text that amounts to v watt-hours and fits 64 bits. */
  lemma EnergyIff(raw: string, unit: string, others: Notations, v: int)
    ensures EnergyWh(raw, unit, others) == Some(v) <==> Fits64(v) && AmountsToWh(Trim(raw), unit, others, v)
  {
    var text := Trim(raw);
    if !Plain(text) {
      if others(text).Some? { EnergyQuotient(raw, unit, others, others(text).value, v); }
    } else {
      if EnergyWh(raw, unit, others) == Some(v) {
        var n := ReadIsNumeral(text, others);
        EnergyNumeral(raw, unit, others, n, v);
      }
      if AmountsToWh(text, unit, others, v) {
        var n: Numeral :| n.WellFormed() && n.Text() == text && n.Value() == if Kilo(unit) then v as real / 1000.0 else v as real;
        EnergyNumeral(raw, unit, others, n, v);
      }
    }
  }

  // ----- readings -----

  /** A sample with the instant it counts for and what the two parsers make of it. */
  datatype Reading = Reading(at: Time, wattHours: Option<int>, percent: Option<int>)

  /** An energy name hides a SoC value; a SoC value needs a percentage unit. */
  function Read(at: Time, s: Sample, others: Notations): Reading {
    Reading(at, if EnergyName(s.measurand) then EnergyWh(s.value, s.unit, others) else None,
            if !EnergyName(s.measurand) && SoCName(s.measurand) && PercentUnit(s.unit) then Parse(s.value, others) else None)
  }

  function ObservedAt(m: MeterValue, receivedAt: Time): Time {
    if m.timestamp.Some? && m.timestamp.value != 0 then m.timestamp.value else receivedAt
  }

  function Readings(at: Time, samples: seq<Sample>, others: Notations): (r: seq<Reading>)
    ensures |r| == |samples|
  {
    if samples == [] then []
    else Readings(at, samples[..|samples| - 1], others) + [Read(at, samples[|samples| - 1], others)]
  }

  function Parts(values: seq<MeterValue>, receivedAt: Time, others: Notations): (parts: seq<seq<Reading>>)
    ensures |parts| == |values|
  {
    if values == [] then []
    else
      var last := values[|values| - 1];
      Parts(values[..|values| - 1], receivedAt, others) + [Readings(ObservedAt(last, receivedAt), last.samples, others)]
  }

  function Joined(parts: seq<seq<Reading>>): seq<Reading> {
    if parts == [] then [] else Joined(parts[..|parts| - 1]) + parts[|parts| - 1]
  }

  /** All samples of the request in the order of transmission. */
  function AllReadings(values: seq<MeterValue>, receivedAt: Time, others: Notations): seq<Reading> {
    Joined(Parts(values, receivedAt, others))
  }

  /** How many readings the first `i` parts hold. */
  function Offset(parts: seq<seq<Reading>>, i: nat): nat
    requires i <= |parts|
  {
    if i == 0 then 0 else Offset(parts, i - 1) + |parts[i - 1]|
  }

  lemma {:induction false} SameOffset(parts: seq<seq<Reading>>, i: nat)
    requires i < |parts|
    ensures Offset(parts[..|parts| - 1], i) == Offset(parts, i)
  {
    if i > 0 { SameOffset(parts, i - 1); }
  }

  lemma {:induction false} JoinedLength(parts: seq<seq<Reading>>)
    ensures |Joined(parts)| == Offset(parts, |parts|)
  {
    if parts != [] {
      JoinedLength(parts[..|parts| - 1]);
      SameOffset(parts, |parts| - 1);
    }
  }

  lemma {:induction false} JoinedAt(parts: seq<seq<Reading>>, i: nat, j: nat)
    requires i < |parts| && j < |parts[i]|
    ensures Offset(parts, i) + j < |Joined(parts)| && Joined(parts)[Offset(parts, i) + j] == parts[i][j]
    decreases |parts|
  {
    var front := parts[..|parts| - 1];
    SameOffset(parts, i);
    if i < |front| { JoinedAt(front, i, j); } else { JoinedLength(front); }
  }

  lemma {:induction false} PartAt(values: seq<MeterValue>, receivedAt: Time, others: Notations, i: nat)
    requires i < |values|
    ensures Parts(values, receivedAt, others)[i] == Readings(ObservedAt(values[i], receivedAt), values[i].samples, others)
    decreases |values|
  {
    var front, last := values[..|values| - 1], values[|values| - 1];
    if i < |front| {
      PartAt(front, receivedAt, others, i);
      EarlierPart(Parts(front, receivedAt, others), Readings(ObservedAt(last, receivedAt), last.samples, others), i);
    }
  }

  lemma EarlierPart(front: seq<seq<Reading>>, own: seq<Reading>, i: nat)
    requires i < |front|
    ensures (front + [own])[i] == front[i]
  {}

  lemma {:induction false} ReadingAt(at: Time, samples: seq<Sample>, others: Notations, j: nat)
    requires j < |samples|
    ensures Readings(at, samples, others)[j] == Read(at, samples[j], others)
  {
    if j < |samples| - 1 { ReadingAt(at, samples[..|samples| - 1], others, j); }
  }

  /** Every sample is read once, for the time that counts for its value. */
  lemma EverySampleIsRead(values: seq<MeterValue>, receivedAt: Time, others: Notations, i: nat, j: nat)
    requires i < |values| && j < |values[i].samples|
    ensures |Parts(values, receivedAt, others)[i]| == |values[i].samples|
    ensures Parts(values, receivedAt, others)[i][j] == Read(ObservedAt(values[i], receivedAt), values[i].samples[j], others)
  {
    PartAt(values, receivedAt, others, i);
    ReadingAt(ObservedAt(values[i], receivedAt), values[i].samples, others, j);
  }

  /** And the readings stand in the order of transmission. */
  lemma ReadingsInOrder(values: seq<MeterValue>, receivedAt: Time, others: Notations, i: nat, j: nat)
    requires i < |values| && j < |Parts(values, receivedAt, others)[i]|
    ensures var parts, all := Parts(values, receivedAt, others), AllReadings(values, receivedAt, others);
            && |all| == Offset(parts, |values|)
            && Offset(parts, i) + j < |all| && all[Offset(parts, i) + j] == parts[i][j]
  {
    JoinedAt(Parts(values, receivedAt, others), i, j);
    JoinedLength(Parts(values, receivedAt, others));
  }

  /** That time is the value's own, or the one of arrival if it has none. */
  lemma TimeOfReading(m: MeterValue, receivedAt: Time)
    ensures ObservedAt(m, receivedAt) == if m.timestamp in {None, Some(0)} then receivedAt else m.timestamp.value
  {}

  /** What one sample contributes, from its texts. */
  lemma SampleReads(at: Time, s: Sample, others: Notations, v: int)
    ensures var energy := Written(Trim(s.measurand), "energy.active.import.register", FOLDED)
                          || Written(Trim(s.measurand), "energy.active.import", FOLDED);
            && Read(at, s, others).at == at
            && (Read(at, s, others).wattHours == Some(v) <==> energy && Fits64(v) && AmountsToWh(Trim(s.value), s.unit, others, v))
            && (Read(at, s, others).percent == Some(v) <==>
                  && !energy && Written(Trim(s.measurand), "soc", FOLDED) && Parse(s.value, others) == Some(v)
                  && (Trim(s.unit) == "" || Written(Trim(s.unit), "percent", LOWERED) || Trim(s.unit) == "%"))
  {
    Names(s.measurand);
    Units(s.unit);
    EnergyIff(s.value, s.unit, others, v);
  }

  const NOTHING: Telemetry := Telemetry(None, None, None, None)

  function Taken(t: Telemetry, r: Reading): Telemetry {
    var t1 := if r.wattHours.Some? && (t.energyAt.None? || r.at >= t.energyAt.value)
              then t.(energyWh := r.wattHours, energyAt := Some(r.at)) else t;
    if r.percent.Some? && (t.socAt.None? || r.at >= t.socAt.value)
    then t1.(soc := r.percent, socAt := Some(r.at)) else t1
  }

  function TakenAll(readings: seq<Reading>): Telemetry {
    if readings == [] then NOTHING
    else Taken(TakenAll(readings[..|readings| - 1]), readings[|readings| - 1])
  }

  datatype Quantity = Energy | SoC {
    predicate Wants(r: Reading) {
      Of(r).Some?
    }

    function Of(r: Reading): Option<int> {
      if Energy? then r.wattHours else r.percent
    }
  }

  /** Of the readings of a quantity, number i has the greatest time, and is the last to have it. */
  ghost predicate LastAtGreatest(readings: seq<Reading>, q: Quantity, i: nat) {
    && i < |readings| && q.Wants(readings[i])
    && (forall j :: 0 <= j < |readings| && q.Wants(readings[j]) ==>
          readings[j].at <= readings[i].at && (i < j ==> readings[j].at < readings[i].at))
  }

  ghost predicate Absent(readings: seq<Reading>, q: Quantity) {
    forall i :: 0 <= i < |readings| ==> !q.Wants(readings[i])
  }

  ghost predicate KeptAt(readings: seq<Reading>, q: Quantity, kept: Option<int>, keptAt: Option<Time>, i: nat) {
    LastAtGreatest(readings, q, i) && kept == q.Of(readings[i]) && keptAt == Some(readings[i].at)
  }

  /** Either the quantity is absent and nothing is kept, or its last reading at the greatest time is. */
  ghost predicate KeepsLastAtGreatest(readings: seq<Reading>, q: Quantity, kept: Option<int>, keptAt: Option<Time>) {
    if Absent(readings, q) then kept.None? && keptAt.None?
    else exists i: nat :: KeptAt(readings, q, kept, keptAt, i)
  }

  lemma KeepsWithOneMore(front: seq<Reading>, last: Reading, q: Quantity, kept: Option<int>, keptAt: Option<Time>)
    requires KeepsLastAtGreatest(front, q, kept, keptAt)
    ensures var takes := q.Wants(last) && (keptAt.None? || last.at >= keptAt.value);
            KeepsLastAtGreatest(front + [last], q, if takes then q.Of(last) else kept, if takes then Some(last.at) else keptAt)
  {
    var all := front + [last];
    assert forall i :: 0 <= i < |front| ==> all[i] == front[i];
    assert all[|front|] == last;
    if q.Wants(last) && (keptAt.None? || last.at >= keptAt.value) {
      assert KeptAt(all, q, q.Of(last), Some(last.at), |front|);
    } else if !Absent(front, q) {
      var i: nat :| KeptAt(front, q, kept, keptAt, i);
      assert KeptAt(all, q, kept, keptAt, i);
    }
  }

  /** The fold keeps, for energy and for state of charge alike, the last sample at the greatest time. */
  lemma {:induction false} TakenIsLastAtGreatest(readings: seq<Reading>)
    ensures var t := TakenAll(readings);
            && KeepsLastAtGreatest(readings, Quantity.Energy, t.energyWh, t.energyAt)
            && KeepsLastAtGreatest(readings, Quantity.SoC, t.soc, t.socAt)
    decreases |readings|
  {
    if readings != [] {
      var front, last := readings[..|readings| - 1], readings[|readings| - 1];
      TakenIsLastAtGreatest(front);
      var t := TakenAll(front);
      assert readings == front + [last];
      KeepsWithOneMore(front, last, Quantity.Energy, t.energyWh, t.energyAt);
      KeepsWithOneMore(front, last, Quantity.SoC, t.soc, t.socAt);
    }
  }

  lemma OneMoreReading(before: seq<Reading>, at: Time, samples: seq<Sample>, j: nat, others: Notations)
    requires j < |samples|
    ensures before + Readings(at, samples[..j + 1], others) ==
            before + Readings(at, samples[..j], others) + [Read(at, samples[j], others)]
  {
    assert samples[..j + 1][..j] == samples[..j];
  }

  /** The inner loop: the samples of one meter value, after those of the values before it. */
  method ExtractSamples(start: Telemetry, observedAt: Time, samples: seq<Sample>, others: Notations, ghost before: seq<Reading>)
    returns (t: Telemetry)
    requires start == TakenAll(before)
    ensures t == TakenAll(before + Readings(observedAt, samples, others))
  {
    t := start;
    var j := 0;
    assert before + Readings(observedAt, samples[..0], others) == before;
    while j < |samples|
      invariant 0 <= j <= |samples| && t == TakenAll(before + Readings(observedAt, samples[..j], others))
    {
      OneMoreReading(before, observedAt, samples, j, others);
      t := ExtractSample(t, observedAt, samples[j], others);
      j := j + 1;
    }
    assert samples[..j] == samples;
  }

  /** The body of the inner loop. */
  method ExtractSample(start: Telemetry, observedAt: Time, sample: Sample, others: Notations) returns (t: Telemetry)
    ensures t == Taken(start, Read(observedAt, sample, others))
  {
    t := start;
    if EnergyName(sample.measurand) {
      var value := EnergyWh(sample.value, sample.unit, others);
      if value.Some? && (t.energyAt.None? || observedAt >= t.energyAt.value) {
        t := t.(energyWh := value, energyAt := Some(observedAt));
      }
      return;
    }
    if SoCName(sample.measurand) && PercentUnit(sample.unit) {
      var value := Parse(sample.value, others);
      if value.Some? && (t.socAt.None? || observedAt >= t.socAt.value) {
        t := t.(soc := value, socAt := Some(observedAt));
      }
    }
  }

  lemma OneMorePart(values: seq<MeterValue>, receivedAt: Time, others: Notations, i: nat)
    requires i < |values|
    ensures AllReadings(values[..i + 1], receivedAt, others) ==
            AllReadings(values[..i], receivedAt, others) + Readings(ObservedAt(values[i], receivedAt), values[i].samples, others)
  {
    assert values[..i + 1][..i] == values[..i];
    var own := Readings(ObservedAt(values[i], receivedAt), values[i].samples, others);
    var parts := Parts(values[..i], receivedAt, others);
    assert Parts(values[..i + 1], receivedAt, others) == parts + [own];
    assert (parts + [own])[..|parts|] == parts;
  }

  method Extract(values: seq<MeterValue>, receivedAt: Time, others: Notations) returns (t: Telemetry)
    ensures t == TakenAll(AllReadings(values, receivedAt, others))
    ensures KeepsLastAtGreatest(AllReadings(values, receivedAt, others), Quantity.Energy, t.energyWh, t.energyAt)
    ensures KeepsLastAtGreatest(AllReadings(values, receivedAt, others), Quantity.SoC, t.soc, t.socAt)
  {
    t := NOTHING;
    var i := 0;
    while i < |values|
      invariant 0 <= i <= |values| && t == TakenAll(AllReadings(values[..i], receivedAt, others))
    {
      var observedAt := receivedAt;
      if values[i].timestamp.Some? && values[i].timestamp.value != 0 {
        observedAt := values[i].timestamp.value;
      }
      OneMorePart(values, receivedAt, others, i);
      t := ExtractSamples(t, observedAt, values[i].samples, others, AllReadings(values[..i], receivedAt, others));
      i := i + 1;
    }
    assert values[..i] == values;
    TakenIsLastAtGreatest(AllReadings(values, receivedAt, others));
  }
}
