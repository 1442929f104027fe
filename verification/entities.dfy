/** The persisted records of the `models` package as immutable values, and the store that holds
    them. Database ids are `nat`; timestamps are ticks of an abstract monotone clock. */
module Entities {
  import opened Common

  /** The six monitored quantities, in the order every check and message uses. */
  datatype Metric = Temperature | Humidity | Co2 | LightIntensity | SoilPh | SoilMoisture

  /** Position of a metric in the fixed evaluation order. */
  function MetricIndex(k: Metric): nat {
    match k
    case Temperature => 0
    case Humidity => 1
    case Co2 => 2
    case LightIntensity => 3
    case SoilPh => 4
    case SoilMoisture => 5
  }

  /** The six numeric columns of one environmental reading. */
  datatype Metrics = Metrics(
    temperature: real,
    humidity: real,
    co2: real,
    lightIntensity: real,
    soilPh: real,
    soilMoisture: real)

  function ValueOf(m: Metrics, k: Metric): real {
    match k
    case Temperature => m.temperature
    case Humidity => m.humidity
    case Co2 => m.co2
    case LightIntensity => m.lightIntensity
    case SoilPh => m.soilPh
    case SoilMoisture => m.soilMoisture
  }

  /** The `source` column: typed in by staff, or logged when an issue is resolved. */
  datatype Source = Manual | Resolution

  /** One `EnvironmentalData` row. */
  datatype Reading = Reading(greenhouseId: nat, metrics: Metrics, timestamp: nat, source: Source)

  datatype Greenhouse = Greenhouse(
    id: nat,
    name: string,
    location: string,
    status: string,
    issueDescription: Option<string>)

  /** One `Employee` row; the password hash is not part of the model. */
  datatype Employee = Employee(
    id: nat,
    name: string,
    email: string,
    available: bool,
    greenhouseId: Option<nat>,
    companyId: string,
    isAdmin: bool)

  datatype Status = Ongoing | Resolved

  /** One out-of-range metric of a reading and the value that was out of range. */
  datatype Violation = Violation(metric: Metric, value: real)

  /** An issue description: the greenhouse header and the violations listed under it. */
  datatype Alert = Alert(greenhouseName: string, location: string, violations: seq<Violation>)

  /** One `Issue` row. */
  datatype Issue = Issue(
    id: nat,
    greenhouseId: nat,
    description: Alert,
    status: Status,
    createdAt: nat,
    resolvedAt: Option<nat>)

  /** The database: one sequence per table, in insertion order. */
  datatype Store = Store(
    greenhouses: seq<Greenhouse>,
    employees: seq<Employee>,
    issues: seq<Issue>,
    readings: seq<Reading>)

  /** `Greenhouse.query.get(id)`. */
  function FindGreenhouse(gs: seq<Greenhouse>, id: nat): (r: Option<Greenhouse>)
    ensures r.Some? ==> r.value in gs && r.value.id == id
    ensures r.None? <==> forall i :: 0 <= i < |gs| ==> gs[i].id != id
    decreases |gs|
  {
    if |gs| == 0 then None
    else if gs[0].id == id then Some(gs[0])
    else
      assert forall i :: 1 <= i < |gs| ==> gs[i] == gs[1..][i - 1];
      FindGreenhouse(gs[1..], id)
  }

  predicate GreenhouseExists(s: Store, id: nat) {
    FindGreenhouse(s.greenhouses, id).Some?
  }

  /** Position of the issue with primary key `id`: `Issue.query.get(id)`. */
  function IssueIndex(issues: seq<Issue>, id: nat): (r: Option<nat>)
    ensures r.Some? ==> r.value < |issues| && issues[r.value].id == id
    ensures r.Some? ==> forall i :: 0 <= i < r.value ==> issues[i].id != id
    ensures r.None? <==> forall i :: 0 <= i < |issues| ==> issues[i].id != id
    decreases |issues|
  {
    if |issues| == 0 then None
    else if issues[0].id == id then Some(0)
    else
      assert forall i :: 1 <= i < |issues| ==> issues[i] == issues[1..][i - 1];
      match IssueIndex(issues[1..], id)
      case None => None
      case Some(k) => Some(k + 1)
  }

  /** The primary key the database gives the next issue row: one more than the largest
      key in use, so it is distinct from every existing key. */
  function NextIssueId(issues: seq<Issue>): (n: nat)
    ensures forall i :: 0 <= i < |issues| ==> issues[i].id < n
    decreases |issues|
  {
    if |issues| == 0 then 1
    else
      var rest := NextIssueId(issues[1..]);
      assert forall i :: 1 <= i < |issues| ==> issues[i] == issues[1..][i - 1];
      if issues[0].id < rest then rest else issues[0].id + 1
  }

  /** Primary keys are unique. */
  predicate UniqueIssueIds(issues: seq<Issue>) {
    forall i, j :: 0 <= i < j < |issues| ==> issues[i].id != issues[j].id
  }
}
