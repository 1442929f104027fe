/** Recording a reading (the POST branch of `input_form` in app.py): parse the six form
    fields, evaluate them against the range validators, add the reading, open an issue
    when something is out of range, and queue one alert for the greenhouse's staff.
    The database commit is all-or-nothing: on any failure the store is returned as it was. */
module Intake {
  import opened Common
  import opened Text
  import opened Seqs
  import opened Entities
  import opened Ranges
  import Config
  import Notify

  /** One submitted form field: a number `float()` accepts, text it rejects, or a key
      missing from the form. */
  datatype Field = Number(value: real) | NotNumeric | Absent

  datatype ReadingForm = ReadingForm(
    temperature: Field,
    humidity: Field,
    co2: Field,
    lightIntensity: Field,
    soilPh: Field,
    soilMoisture: Field)

  /** `ValueError` from `float()`, or the missing-key error of `request.form[...]`. */
  datatype ParseError = InvalidNumber | MissingField

  /** The form fields in the order the handler converts them. */
  function FormFields(f: ReadingForm): seq<Field> {
    [f.temperature, f.humidity, f.co2, f.lightIntensity, f.soilPh, f.soilMoisture]
  }

  function FieldError(f: Field): ParseError
    requires !f.Number?
  {
    if f.NotNumeric? then InvalidNumber else MissingField
  }

  /** Converts the fields front to back; the first field that is not a number decides
      which error is raised. */
  function ParseFields(fs: seq<Field>): (r: Result<seq<real>, ParseError>)
    ensures r.Success? <==> forall i :: 0 <= i < |fs| ==> fs[i].Number?
    ensures r.Success? ==> |r.value| == |fs| && forall i :: 0 <= i < |fs| ==> r.value[i] == fs[i].value
    ensures r.Failure? ==>
              exists i :: && 0 <= i < |fs| && !fs[i].Number? && FieldError(fs[i]) == r.error
                          && forall j :: 0 <= j < i ==> fs[j].Number?
    decreases |fs|
  {
    if |fs| == 0 then Success([])
    else if !fs[0].Number? then Failure(FieldError(fs[0]))
    else
      var rest := ParseFields(fs[1..]);
      assert forall i :: 1 <= i < |fs| ==> fs[i] == fs[1..][i - 1];
      match rest
      case Failure(e) =>
        var i :| && 0 <= i < |fs[1..]| && !fs[1..][i].Number? && FieldError(fs[1..][i]) == e
                 && forall j :: 0 <= j < i ==> fs[1..][j].Number?;
        assert !fs[i + 1].Number? && forall j :: 0 <= j < i + 1 ==> fs[j].Number?;
        Failure(e)
      case Success(vs) => Success([fs[0].value] + vs)
  }

  /** The six converted values, or the conversion error. */
  function ParseForm(f: ReadingForm): (r: Result<Metrics, ParseError>)
    ensures r.Success? <==> forall i :: 0 <= i < 6 ==> FormFields(f)[i].Number?
    ensures r.Success? ==> forall k: Metric :: ValueOf(r.value, k) == FormFields(f)[MetricIndex(k)].value
  {
    var fs := FormFields(f);
    match ParseFields(fs)
    case Failure(e) => Failure(e)
    case Success(v) => Success(Metrics(v[0], v[1], v[2], v[3], v[4], v[5]))
  }

  /** The violation for metric `k`, if its validator rejects the value. */
  function ViolationOf(m: Metrics, k: Metric): seq<Violation> {
    if Check(k, ValueOf(m, k)) then [] else [Violation(k, ValueOf(m, k))]
  }

  /** The metrics in the order the handler checks them. */
  const CheckOrder: seq<Metric> := [Temperature, Humidity, Co2, LightIntensity, SoilPh, SoilMoisture]

  predicate Increasing(ks: seq<Metric>) {
    forall i, j :: 0 <= i < j < |ks| ==> MetricIndex(ks[i]) < MetricIndex(ks[j])
  }

  /** The handler checks every metric exactly once, in metric order. */
  lemma CheckOrderIsComplete()
    ensures |CheckOrder| == 6 && Increasing(CheckOrder)
    ensures forall k: Metric :: MetricIndex(k) < 6 && CheckOrder[MetricIndex(k)] == k
  {
  }

  /** Runs the validators of `ks` one after another, collecting the violations. */
  function FlagsFrom(m: Metrics, ks: seq<Metric>): (r: seq<Violation>)
    ensures |r| <= |ks|
    decreases |ks|
  {
    if |ks| == 0 then [] else ViolationOf(m, ks[0]) + FlagsFrom(m, ks[1..])
  }

  /** Every collected violation carries the reading's value of a metric whose validator
      rejects it. */
  lemma {:induction false} FlagsSound(m: Metrics, ks: seq<Metric>)
    ensures forall i :: 0 <= i < |FlagsFrom(m, ks)| ==>
              var v := FlagsFrom(m, ks)[i];
              v.value == ValueOf(m, v.metric) && !Check(v.metric, v.value)
    decreases |ks|
  {
    if |ks| > 0 {
      FlagsSound(m, ks[1..]);
      var head: seq<Violation>, rest: seq<Violation> := ViolationOf(m, ks[0]), FlagsFrom(m, ks[1..]);
      assert forall i :: 0 <= i < |rest| ==> (head + rest)[|head| + i] == rest[i];
    }
  }

  /** Only metrics of `ks` are collected, so a bound on their positions bounds the
      positions of the collected violations. */
  lemma {:induction false} FlagsAbove(m: Metrics, ks: seq<Metric>, bound: int)
    requires forall j :: 0 <= j < |ks| ==> bound < MetricIndex(ks[j])
    ensures forall i :: 0 <= i < |FlagsFrom(m, ks)| ==> bound < MetricIndex(FlagsFrom(m, ks)[i].metric)
    decreases |ks|
  {
    if |ks| > 0 {
      var tail := ks[1..];
      assert forall j :: 0 <= j < |tail| ==> tail[j] == ks[j + 1];
      FlagsAbove(m, tail, bound);
      var head: seq<Violation>, rest: seq<Violation> := ViolationOf(m, ks[0]), FlagsFrom(m, tail);
      assert forall i :: 0 <= i < |rest| ==> (head + rest)[|head| + i] == rest[i];
    }
  }

  /** Every checked metric whose validator rejects its value is collected. */
  lemma {:induction false} FlagsComplete(m: Metrics, ks: seq<Metric>, j: nat)
    requires j < |ks| && !Check(ks[j], ValueOf(m, ks[j]))
    ensures exists i :: 0 <= i < |FlagsFrom(m, ks)| && FlagsFrom(m, ks)[i].metric == ks[j]
    decreases |ks|
  {
    var head: seq<Violation>, rest: seq<Violation> := ViolationOf(m, ks[0]), FlagsFrom(m, ks[1..]);
    assert FlagsFrom(m, ks) == head + rest;
    if j == 0 {
      assert (head + rest)[0].metric == ks[0];
    } else {
      assert ks[1..][j - 1] == ks[j];
      FlagsComplete(m, ks[1..], j - 1);
      var i :| 0 <= i < |rest| && rest[i].metric == ks[j];
      assert (head + rest)[|head| + i] == rest[i];
    }
  }

  /** Checking metrics in increasing order collects violations in that order. */
  lemma {:induction false} FlagsOrdered(m: Metrics, ks: seq<Metric>)
    requires Increasing(ks)
    ensures forall i, j :: 0 <= i < j < |FlagsFrom(m, ks)| ==>
              MetricIndex(FlagsFrom(m, ks)[i].metric) < MetricIndex(FlagsFrom(m, ks)[j].metric)
    decreases |ks|
  {
    if |ks| > 0 {
      var tail := ks[1..];
      assert forall j :: 0 <= j < |tail| ==> tail[j] == ks[j + 1];
      FlagsOrdered(m, tail);
      FlagsAbove(m, tail, MetricIndex(ks[0]));
      var head: seq<Violation>, rest: seq<Violation> := ViolationOf(m, ks[0]), FlagsFrom(m, tail);
      assert forall i :: 0 <= i < |rest| ==> (head + rest)[|head| + i] == rest[i];
    }
  }

  /** The violations of a reading: one per failing validator, in metric order. */
  function Violations(m: Metrics): (r: seq<Violation>)
    ensures |r| <= 6
    ensures r == [] <==> AllInRange(m)
    ensures forall i :: 0 <= i < |r| ==> r[i].value == ValueOf(m, r[i].metric) && !Check(r[i].metric, r[i].value)
    ensures forall k: Metric :: !Check(k, ValueOf(m, k)) ==> exists i :: 0 <= i < |r| && r[i].metric == k
    ensures forall i, j :: 0 <= i < j < |r| ==> MetricIndex(r[i].metric) < MetricIndex(r[j].metric)
  {
    var r := FlagsFrom(m, CheckOrder);
    CheckOrderIsComplete();
    FlagsSound(m, CheckOrder);
    FlagsOrdered(m, CheckOrder);
    forall k: Metric | !Check(k, ValueOf(m, k))
      ensures exists i :: 0 <= i < |r| && r[i].metric == k
    {
      FlagsComplete(m, CheckOrder, MetricIndex(k));
    }
    AllInRangeIsEveryMetric(m);
    r
  }

  /** How the sentence of a violation names its metric. */
  function MetricLabel(k: Metric): string {
    match k
    case Temperature => "Temperature"
    case Humidity => "Humidity"
    case Co2 => "CO2"
    case LightIntensity => "Light Intensity"
    case SoilPh => "Soil pH"
    case SoilMoisture => "Soil Moisture"
  }

  /** The sentence of one violation; `fmt` stands for Python's `str()` of a float. */
  function PartText(v: Violation, fmt: real -> string): (r: string)
    ensures StartsWith(r, MetricLabel(v.metric) + " " + fmt(v.value))
    ensures |r| > 0 && r[|r| - 1] == '.'
  {
    var x := fmt(v.value);
    match v.metric
    case Temperature => "Temperature " + x + "°C is out of range (20-25°C)."
    case Humidity => "Humidity " + x + "% is out of range (40-60%)."
    case Co2 => "CO2 " + x + " ppm is out of range (400-1000 ppm)."
    case LightIntensity => "Light Intensity " + x + " lux is out of range (1000-10000 lux)."
    case SoilPh => "Soil pH " + x + " is out of range (6.0-7.0)."
    case SoilMoisture => "Soil Moisture " + x + "% is out of range (30-60%)."
  }

  function Parts(vs: seq<Violation>, fmt: real -> string): seq<string> {
    seq(|vs|, i requires 0 <= i < |vs| => PartText(vs[i], fmt))
  }

  function Header(a: Alert): string {
    "Alert for Greenhouse '" + a.greenhouseName + "' (" + a.location + "):"
  }

  const Bullet: string := "\n- "

  /** The stored issue description text. */
  function AlertText(a: Alert, fmt: real -> string): string {
    Header(a) + Bullet + Join(Bullet, Parts(a.violations, fmt))
  }

  /** The description is the greenhouse header followed by every violation sentence, each
      on its own bulleted line, in violation order. */
  lemma AlertTextIsBulletedList(a: Alert, fmt: real -> string)
    requires |a.violations| > 0
    ensures AlertText(a, fmt) == Header(a) + Bullets(Bullet, Parts(a.violations, fmt))
    ensures StartsWith(AlertText(a, fmt), Header(a))
  {
    var parts := Parts(a.violations, fmt);
    JoinAfterMarker(Bullet, parts);
    assert AlertText(a, fmt) == Header(a) + (Bullet + Join(Bullet, parts));
    PrefixOfConcat(Header(a), Bullet + Join(Bullet, parts));
  }

  /** An alert queued for delivery after the commit. */
  datatype Notification = Notification(subject: string, recipients: seq<string>, alert: Alert)

  function Subject(gh: Greenhouse): string {
    "Alert: GreenHouse Notification For '" + gh.name + "'"
  }

  /** The mail body: the stored description followed by a request to act on it. */
  function BodyText(n: Notification, fmt: real -> string): (r: string)
    ensures StartsWith(r, AlertText(n.alert, fmt))
    ensures |r| > |AlertText(n.alert, fmt)|
  {
    var closing := "\n\nPlease investigate and resolve the issue.";
    PrefixOfConcat(AlertText(n.alert, fmt), closing);
    AlertText(n.alert, fmt) + closing
  }

  /** Staff of greenhouse `ghId` who can be mailed: an email address and available. */
  predicate Eligible(e: Employee, ghId: nat) {
    e.greenhouseId == Some(ghId) && e.email != "" && e.available
  }

  function EligibleFor(ghId: nat): Employee -> bool {
    (e: Employee) => Eligible(e, ghId)
  }

  /** The address of each employee, position by position. */
  function Emails(es: seq<Employee>): (r: seq<string>)
    ensures |r| == |es|
    ensures forall i :: 0 <= i < |es| ==> r[i] == es[i].email
  {
    seq(|es|, i requires 0 <= i < |es| => es[i].email)
  }

  /** The addresses of the eligible staff, in employee order. */
  function Recipients(emps: seq<Employee>, ghId: nat): (to: seq<string>)
    ensures |to| == Count(emps, EligibleFor(ghId))
    ensures forall i :: 0 <= i < |to| ==> exists j :: 0 <= j < |emps| && Eligible(emps[j], ghId) && emps[j].email == to[i]
    ensures forall j :: 0 <= j < |emps| && Eligible(emps[j], ghId) ==> emps[j].email in to
    ensures forall i :: 0 <= i < |to| ==> to[i] != ""
  {
    var staff := Filter(emps, EligibleFor(ghId));
    var to := Emails(staff);
    assert forall j :: 0 <= j < |emps| && Eligible(emps[j], ghId) ==> emps[j].email in to by {
      forall j | 0 <= j < |emps| && Eligible(emps[j], ghId)
        ensures emps[j].email in to
      {
        var k :| 0 <= k < |staff| && staff[k] == emps[j];
        assert to[k] == emps[j].email;
      }
    }
    assert forall i :: 0 <= i < |to| ==> exists j :: 0 <= j < |emps| && Eligible(emps[j], ghId) && emps[j].email == to[i] by {
      forall i | 0 <= i < |to|
        ensures exists j :: 0 <= j < |emps| && Eligible(emps[j], ghId) && emps[j].email == to[i]
      {
        assert staff[i] in emps && EligibleFor(ghId)(staff[i]);
        var j :| 0 <= j < |emps| && emps[j] == staff[i];
        assert Eligible(emps[j], ghId) && emps[j].email == to[i];
      }
    }
    to
  }

  /** The address list follows the employee order: the recipients of a concatenation
      are those of the first part followed by those of the second. */
  lemma RecipientsInEmployeeOrder(a: seq<Employee>, b: seq<Employee>, ghId: nat)
    ensures Recipients(a + b, ghId) == Recipients(a, ghId) + Recipients(b, ghId)
  {
    var p := EligibleFor(ghId);
    FilterConcat(a, b, p);
    EmailsConcat(Filter(a, p), Filter(b, p));
  }

  lemma EmailsConcat(x: seq<Employee>, y: seq<Employee>)
    ensures Emails(x + y) == Emails(x) + Emails(y)
  {
  }

  /** A single employee is mailed, at their own address, exactly when eligible. */
  lemma RecipientsOfOne(e: Employee, ghId: nat)
    ensures Recipients([e], ghId) == (if Eligible(e, ghId) then [e.email] else [])
  {
    FilterSingleton(e, EligibleFor(ghId));
  }

  /** The issue opened for greenhouse `gh` with violations `vs`. */
  function NewIssue(s: Store, gh: Greenhouse, vs: seq<Violation>, now: nat): Issue {
    Issue(NextIssueId(s.issues), gh.id, Alert(gh.name, gh.location, vs), Ongoing, now, None)
  }

  datatype IntakeResult = GreenhouseNotFound | InvalidInput | SaveFailed | Recorded(issueOpened: bool)

  /** The store after the request, the alerts to send once committed, and the outcome. */
  datatype IntakeOutcome = IntakeOutcome(store: Store, queued: seq<Notification>, result: IntakeResult)

  /** The body of the handler's `try` block once all six fields converted: add the
      manual reading and, when something is out of range, the issue and its alert. */
  function Commit(s: Store, gh: Greenhouse, m: Metrics, now: nat): (o: IntakeOutcome)
    ensures o.result.Recorded?
    ensures o.store.greenhouses == s.greenhouses && o.store.employees == s.employees
    ensures o.store.readings == s.readings + [Reading(gh.id, m, now, Manual)]
    ensures o.result.issueOpened <==> !AllInRange(m)
    ensures !o.result.issueOpened ==> o.store.issues == s.issues && o.queued == []
    ensures o.result.issueOpened ==>
              && |o.store.issues| == |s.issues| + 1
              && o.store.issues[..|s.issues|] == s.issues
              && var issue := o.store.issues[|s.issues|];
              && issue.greenhouseId == gh.id
              && issue.status == Ongoing
              && issue.resolvedAt.None?
              && issue.createdAt == now
              && issue.description == Alert(gh.name, gh.location, Violations(m))
              && 1 <= |issue.description.violations| <= 6
              && (forall i :: 0 <= i < |s.issues| ==> s.issues[i].id != issue.id)
    ensures |o.queued| <= 1
    ensures o.queued != [] <==> o.result.issueOpened && Recipients(s.employees, gh.id) != []
    ensures o.queued != [] ==>
              o.queued[0] == Notification(Subject(gh), Recipients(s.employees, gh.id), o.store.issues[|s.issues|].description)
  {
    var reading := Reading(gh.id, m, now, Manual);
    var vs := Violations(m);
    if vs == [] then
      IntakeOutcome(s.(readings := s.readings + [reading]), [], Recorded(false))
    else
      var issue := NewIssue(s, gh, vs, now);
      var to := Recipients(s.employees, gh.id);
      var queued := if to == [] then [] else [Notification(Subject(gh), to, issue.description)];
      var s' := s.(issues := s.issues + [issue], readings := s.readings + [reading]);
      assert s'.issues[..|s.issues|] == s.issues;
      IntakeOutcome(s', queued, Recorded(true))
  }

  /** Handles one reading submission for greenhouse `ghId` at time `now`; `commitOk` is
      whether the database commit succeeds. Any failure leaves the store as it was. */
  function RecordReading(s: Store, ghId: nat, form: ReadingForm, now: nat, commitOk: bool): (o: IntakeOutcome)
    ensures o.result.Recorded? <==> GreenhouseExists(s, ghId) && ParseForm(form).Success? && commitOk
    ensures o.result == GreenhouseNotFound <==> !GreenhouseExists(s, ghId)
    ensures o.result == InvalidInput <==> GreenhouseExists(s, ghId) && ParseForm(form) == Failure(InvalidNumber)
    ensures !o.result.Recorded? ==> o.store == s && o.queued == []
    ensures o.result.Recorded? ==>
              && FindGreenhouse(s.greenhouses, ghId).value.id == ghId
              && o == Commit(s, FindGreenhouse(s.greenhouses, ghId).value, ParseForm(form).value, now)
  {
    match FindGreenhouse(s.greenhouses, ghId)
    case None => IntakeOutcome(s, [], GreenhouseNotFound)
    case Some(gh) =>
      match ParseForm(form)
      case Failure(InvalidNumber) => IntakeOutcome(s, [], InvalidInput)
      case Failure(MissingField) => IntakeOutcome(s, [], SaveFailed)
      case Success(m) =>
        if !commitOk then IntakeOutcome(s, [], SaveFailed) else Commit(s, gh, m, now)
  }

  /** What the mail transport answers for alert `n`: it is handed the subject, the
      address list and the mail body. */
  function Delivered(n: Notification, fmt: real -> string, transport: (string, seq<string>, string) -> bool)
    : bool
  {
    transport(n.subject, n.recipients, BodyText(n, fmt))
  }

  /** The queued alerts whose send reports failure (each draws a warning to the user);
      `transport` is what the SMTP session would answer for a given message. */
  function DeliveryFailures(
    mail: Config.Settings, queued: seq<Notification>,
    fmt: real -> string, transport: (string, seq<string>, string) -> bool)
    : (failed: seq<Notification>)
    ensures forall i :: 0 <= i < |failed| ==>
              && failed[i] in queued
              && !Notify.SendEmailNotification(
                    mail, Notify.AddressList(failed[i].recipients), Delivered(failed[i], fmt, transport))
    ensures forall i :: 0 <= i < |queued| ==>
              var sent := Notify.SendEmailNotification(
                mail, Notify.AddressList(queued[i].recipients), Delivered(queued[i], fmt, transport));
              !sent ==> queued[i] in failed
  {
    Filter(queued, (n: Notification) => !Notify.SendEmailNotification(mail, Notify.AddressList(n.recipients), Delivered(n, fmt, transport)))
  }

  /** With mail switched off every queued alert is reported as not sent, while the
      reading and issue stay committed. */
  lemma DisabledMailReportsEveryAlert(
    mail: Config.Settings, queued: seq<Notification>,
    fmt: real -> string, transport: (string, seq<string>, string) -> bool)
    requires !mail.mailEnabled
    ensures DeliveryFailures(mail, queued, fmt, transport) == queued
  {
    FilterKeepsAll(queued, (n: Notification) => !Notify.SendEmailNotification(mail, Notify.AddressList(n.recipients), Delivered(n, fmt, transport)));
  }

  /** A two-violation reading: temperature 19 and humidity 70 give exactly
      two violations, temperature first. */
  lemma TwoViolationsInOrder()
    ensures Violations(Metrics(19.0, 70.0, 700.0, 5000.0, 6.5, 45.0))
              == [Violation(Temperature, 19.0), Violation(Humidity, 70.0)]
  {
  }
}
