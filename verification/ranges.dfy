/** The six range validators of utils.py. Each bound is inclusive. */
module Ranges {
  import opened Entities

  predicate CheckTemperature(temperature: real) {
    20.0 <= temperature <= 25.0
  }

  predicate CheckHumidity(humidity: real) {
    40.0 <= humidity <= 60.0
  }

  predicate CheckCo2(co2: real) {
    400.0 <= co2 <= 1000.0
  }

  predicate CheckLightIntensity(lightIntensity: real) {
    1000.0 <= lightIntensity <= 10000.0
  }

  predicate CheckSoilPh(soilPh: real) {
    6.0 <= soilPh <= 7.0
  }

  predicate CheckSoilMoisture(soilMoisture: real) {
    30.0 <= soilMoisture <= 60.0
  }

  /** The validator that guards metric `k`. */
  predicate Check(k: Metric, v: real) {
    match k
    case Temperature => CheckTemperature(v)
    case Humidity => CheckHumidity(v)
    case Co2 => CheckCo2(v)
    case LightIntensity => CheckLightIntensity(v)
    case SoilPh => CheckSoilPh(v)
    case SoilMoisture => CheckSoilMoisture(v)
  }

  /** The range quoted to staff in the violation message of each metric. */
  function StatedLow(k: Metric): real {
    match k
    case Temperature => 20.0
    case Humidity => 40.0
    case Co2 => 400.0
    case LightIntensity => 1000.0
    case SoilPh => 6.0
    case SoilMoisture => 30.0
  }

  function StatedHigh(k: Metric): real {
    match k
    case Temperature => 25.0
    case Humidity => 60.0
    case Co2 => 1000.0
    case LightIntensity => 10000.0
    case SoilPh => 7.0
    case SoilMoisture => 60.0
  }

  /** Every reading metric is in range. */
  predicate AllInRange(m: Metrics) {
    && CheckTemperature(m.temperature)
    && CheckHumidity(m.humidity)
    && CheckCo2(m.co2)
    && CheckLightIntensity(m.lightIntensity)
    && CheckSoilPh(m.soilPh)
    && CheckSoilMoisture(m.soilMoisture)
  }

  /** Each validator accepts exactly the closed interval its message quotes, so a reading
      is flagged exactly when the message's stated range is left. */
  lemma ValidatorMatchesStatedRange(k: Metric, v: real)
    ensures Check(k, v) <==> StatedLow(k) <= v <= StatedHigh(k)
  {
  }

  /** Both ends of every range pass; anything beyond either end fails. */
  lemma BoundsInclusive(k: Metric, v: real)
    ensures Check(k, StatedLow(k)) && Check(k, StatedHigh(k))
    ensures v < StatedLow(k) || StatedHigh(k) < v ==> !Check(k, v)
  {
  }

  /** A range is an interval: a value between two accepted values is accepted. */
  lemma RangeIsConvex(k: Metric, a: real, v: real, b: real)
    requires Check(k, a) && Check(k, b) && a <= v <= b
    ensures Check(k, v)
  {
  }

  /** The whole-reading verdict is the conjunction of the six per-metric verdicts. */
  lemma AllInRangeIsEveryMetric(m: Metrics)
    ensures AllInRange(m) <==> forall k: Metric :: Check(k, ValueOf(m, k))
  {
    if !AllInRange(m) {
      if !CheckTemperature(m.temperature) { assert !Check(Temperature, ValueOf(m, Temperature)); }
      else if !CheckHumidity(m.humidity) { assert !Check(Humidity, ValueOf(m, Humidity)); }
      else if !CheckCo2(m.co2) { assert !Check(Co2, ValueOf(m, Co2)); }
      else if !CheckLightIntensity(m.lightIntensity) { assert !Check(LightIntensity, ValueOf(m, LightIntensity)); }
      else if !CheckSoilPh(m.soilPh) { assert !Check(SoilPh, ValueOf(m, SoilPh)); }
      else { assert !Check(SoilMoisture, ValueOf(m, SoilMoisture)); }
    }
  }

  /** The boundary cases of the temperature range: 20.0 and 25.0 pass, 19.99 and 25.01 fail. */
  lemma TemperatureBoundaryExamples()
    ensures CheckTemperature(20.0) && CheckTemperature(25.0)
    ensures !CheckTemperature(19.99) && !CheckTemperature(25.01)
  {
  }
}
