/** Store invariants kept by the two write operations, reading intake and issue
    resolution, alone and over any history of requests. */
module Lifecycle {
  import opened Common
  import opened Entities
  import opened Ranges
  import Config
  import Intake
  import Resolution

  /** An issue's resolution time is set exactly when it is resolved, and never precedes
      its creation; every issue came from a reading with one to six violations. */
  predicate IssueConsistent(issue: Issue, clock: nat) {
    && (issue.resolvedAt.Some? <==> issue.status == Resolved)
    && issue.createdAt <= clock
    && (issue.resolvedAt.Some? ==> issue.createdAt <= issue.resolvedAt.value <= clock)
    && 1 <= |issue.description.violations| <= 6
  }

  /** Readings are not from the future, and resolution readings carry the normal values. */
  predicate ReadingConsistent(r: Reading, normal: Metrics, clock: nat) {
    r.timestamp <= clock && (r.source == Resolution ==> r.metrics == normal)
  }

  predicate IssuesOk(s: Store, clock: nat) {
    forall i :: 0 <= i < |s.issues| ==>
      IssueConsistent(s.issues[i], clock) && GreenhouseExists(s, s.issues[i].greenhouseId)
  }

  predicate ReadingsOk(s: Store, normal: Metrics, clock: nat) {
    forall i :: 0 <= i < |s.readings| ==>
      ReadingConsistent(s.readings[i], normal, clock) && GreenhouseExists(s, s.readings[i].greenhouseId)
  }

  /** The store invariant at time `clock`, for configured normal values `normal`. */
  predicate WellFormed(s: Store, normal: Metrics, clock: nat) {
    UniqueIssueIds(s.issues) && IssuesOk(s, clock) && ReadingsOk(s, normal, clock)
  }

  /** Appending a consistent reading about an existing greenhouse keeps the readings
      consistent. */
  lemma AppendReading(s: Store, s': Store, normal: Metrics, clock: nat, now: nat, r: Reading)
    requires ReadingsOk(s, normal, clock) && clock <= now
    requires s'.greenhouses == s.greenhouses && s'.readings == s.readings + [r]
    requires ReadingConsistent(r, normal, now) && GreenhouseExists(s, r.greenhouseId)
    ensures ReadingsOk(s', normal, now)
  {
    forall i | 0 <= i < |s'.readings|
      ensures ReadingConsistent(s'.readings[i], normal, now) && GreenhouseExists(s', s'.readings[i].greenhouseId)
    {
      if i < |s.readings| {
        assert s'.readings[i] == s.readings[i];
      }
    }
  }

  /** Appending a consistent issue with a fresh id keeps the issues consistent. */
  lemma AppendIssue(s: Store, s': Store, clock: nat, now: nat, issue: Issue)
    requires UniqueIssueIds(s.issues) && IssuesOk(s, clock) && clock <= now
    requires s'.greenhouses == s.greenhouses && s'.issues == s.issues + [issue]
    requires IssueConsistent(issue, now) && GreenhouseExists(s, issue.greenhouseId)
    requires forall i :: 0 <= i < |s.issues| ==> s.issues[i].id != issue.id
    ensures UniqueIssueIds(s'.issues) && IssuesOk(s', now)
  {
    forall i | 0 <= i < |s'.issues|
      ensures IssueConsistent(s'.issues[i], now) && GreenhouseExists(s', s'.issues[i].greenhouseId)
    {
      if i < |s.issues| {
        assert s'.issues[i] == s.issues[i];
      }
    }
  }

  /** The invariant survives the passing of time. */
  lemma WellFormedLater(s: Store, normal: Metrics, clock: nat, later: nat)
    requires WellFormed(s, normal, clock) && clock <= later
    ensures WellFormed(s, normal, later)
  {
  }

  /** A database with greenhouses and staff but no issues or readings is well formed. */
  lemma FreshStoreWellFormed(gs: seq<Greenhouse>, es: seq<Employee>, normal: Metrics, clock: nat)
    ensures WellFormed(Store(gs, es, [], []), normal, clock)
  {
  }

  /** Committing a submission for an existing greenhouse keeps the invariant. */
  lemma CommitPreservesWellFormed(s: Store, normal: Metrics, clock: nat, gh: Greenhouse, m: Metrics, now: nat)
    requires WellFormed(s, normal, clock) && clock <= now
    requires GreenhouseExists(s, gh.id)
    ensures WellFormed(Intake.Commit(s, gh, m, now).store, normal, now)
  {
    var o := Intake.Commit(s, gh, m, now);
    var s' := o.store;
    AppendReading(s, s', normal, clock, now, Reading(gh.id, m, now, Manual));
    if o.result.issueOpened {
      var issue := s'.issues[|s.issues|];
      assert s'.issues == s'.issues[..|s.issues|] + [issue];
      AppendIssue(s, s', clock, now, issue);
    } else {
      assert IssuesOk(s', now) by {
        assert IssuesOk(s, clock);
      }
    }
  }

  /** Recording a reading keeps the invariant. */
  lemma RecordPreservesWellFormed(
    s: Store, normal: Metrics, clock: nat, ghId: nat, form: Intake.ReadingForm, now: nat, commitOk: bool)
    requires WellFormed(s, normal, clock) && clock <= now
    ensures WellFormed(Intake.RecordReading(s, ghId, form, now, commitOk).store, normal, now)
  {
    var o := Intake.RecordReading(s, ghId, form, now, commitOk);
    if !o.result.Recorded? {
      WellFormedLater(s, normal, clock, now);
    } else {
      var gh := FindGreenhouse(s.greenhouses, ghId).value;
      CommitPreservesWellFormed(s, normal, clock, gh, Intake.ParseForm(form).value, now);
    }
  }

  /** Resolving an issue keeps the invariant, when the configured normal values are used. */
  lemma ResolvePreservesWellFormed(
    s: Store, normal: Metrics, clock: nat, issueId: nat, actor: Employee, now: nat, commitOk: bool)
    requires WellFormed(s, normal, clock) && clock <= now
    ensures WellFormed(Resolution.ResolveIssue(s, issueId, actor, normal, now, commitOk).store, normal, now)
  {
    var o := Resolution.ResolveIssue(s, issueId, actor, normal, now, commitOk);
    if o.result != Resolution.ResolvedNow {
      WellFormedLater(s, normal, clock, now);
    } else {
      var s' := o.store;
      var k := IssueIndex(s.issues, issueId).value;
      assert forall x :: GreenhouseExists(s', x) == GreenhouseExists(s, x);
      assert forall i :: 0 <= i < |s.readings| ==> s'.readings[i] == s.readings[i];
      assert IssueConsistent(s'.issues[k], now);
    }
  }

  /** Under the invariant, a resolution time is never before the creation time. */
  lemma ResolvedNotBeforeCreated(
    s: Store, normal: Metrics, clock: nat, issueId: nat, actor: Employee, now: nat, commitOk: bool)
    requires WellFormed(s, normal, clock) && clock <= now
    requires Resolution.ResolveIssue(s, issueId, actor, normal, now, commitOk).result == Resolution.ResolvedNow
    ensures var k := IssueIndex(s.issues, issueId).value;
            var after := Resolution.ResolveIssue(s, issueId, actor, normal, now, commitOk).store.issues[k];
            after.resolvedAt.Some? && after.createdAt <= after.resolvedAt.value
  {
  }

  /** Readings are append-only: recording keeps every old row and adds at most one. */
  lemma RecordAppendsReadings(s: Store, ghId: nat, form: Intake.ReadingForm, now: nat, commitOk: bool)
    ensures var r := Intake.RecordReading(s, ghId, form, now, commitOk).store.readings;
            |s.readings| <= |r| <= |s.readings| + 1 && r[..|s.readings|] == s.readings
  {
    var r := Intake.RecordReading(s, ghId, form, now, commitOk).store.readings;
    assert r == s.readings || r[..|s.readings|] == s.readings;
  }

  /** Resolving keeps every old reading and adds at most one. */
  lemma ResolveAppendsReadings(s: Store, issueId: nat, actor: Employee, normal: Metrics, now: nat, commitOk: bool)
    ensures var r := Resolution.ResolveIssue(s, issueId, actor, normal, now, commitOk).store.readings;
            |s.readings| <= |r| <= |s.readings| + 1 && r[..|s.readings|] == s.readings
  {
    var r := Resolution.ResolveIssue(s, issueId, actor, normal, now, commitOk).store.readings;
    assert r == s.readings || r[..|s.readings|] == s.readings;
  }

  /** Submitting a reading never changes an issue that is already resolved. */
  lemma RecordKeepsResolvedIssue(s: Store, ghId: nat, form: Intake.ReadingForm, now: nat, commitOk: bool, i: nat)
    requires i < |s.issues| && s.issues[i].status == Resolved
    ensures Intake.RecordReading(s, ghId, form, now, commitOk).store.issues[i] == s.issues[i]
  {
    var o := Intake.RecordReading(s, ghId, form, now, commitOk);
    if o.store.issues != s.issues {
      assert o.store.issues[..|s.issues|][i] == o.store.issues[i];
    }
  }

  /** Resolving, whichever issue is named, never changes an issue that is already resolved. */
  lemma ResolveKeepsResolvedIssue(s: Store, issueId: nat, actor: Employee, normal: Metrics, now: nat, commitOk: bool, i: nat)
    requires i < |s.issues| && s.issues[i].status == Resolved
    ensures Resolution.ResolveIssue(s, issueId, actor, normal, now, commitOk).store.issues[i] == s.issues[i]
  {
  }

  /** `Resolved` is terminal: no write changes an issue that is already resolved. */
  lemma ResolvedIsTerminal(
    s: Store, ghId: nat, form: Intake.ReadingForm, issueId: nat, actor: Employee,
    normal: Metrics, now: nat, commitOk: bool, i: nat)
    requires i < |s.issues| && s.issues[i].status == Resolved
    ensures Intake.RecordReading(s, ghId, form, now, commitOk).store.issues[i] == s.issues[i]
    ensures Resolution.ResolveIssue(s, issueId, actor, normal, now, commitOk).store.issues[i] == s.issues[i]
  {
    RecordKeepsResolvedIssue(s, ghId, form, now, commitOk, i);
    ResolveKeepsResolvedIssue(s, issueId, actor, normal, now, commitOk, i);
  }

  /** Under the invariant with the configured normal values, every resolution reading is
      in range: it never reports a violation. */
  lemma ResolutionReadingsInRange(s: Store, env: Config.Environment, c: Config.ConfigClass, clock: nat, i: nat)
    requires WellFormed(s, Config.SettingsOf(c, env).normal, clock)
    requires i < |s.readings| && s.readings[i].source == Resolution
    ensures AllInRange(s.readings[i].metrics)
    ensures Intake.Violations(s.readings[i].metrics) == []
  {
    Config.NormalReadingInRange(c, env);
  }

  /** A write request as the web layer delivers it, with the clock reading at arrival. */
  datatype Request =
    | Submit(ghId: nat, form: Intake.ReadingForm, at: nat, commitOk: bool)
    | Close(issueId: nat, actor: Employee, at: nat, commitOk: bool)

  function Apply(s: Store, normal: Metrics, req: Request): Store {
    match req
    case Submit(g, f, t, ok) => Intake.RecordReading(s, g, f, t, ok).store
    case Close(id, a, t, ok) => Resolution.ResolveIssue(s, id, a, normal, t, ok).store
  }

  /** The store after serving `reqs` in order. */
  function Replay(s: Store, normal: Metrics, reqs: seq<Request>): Store
    decreases |reqs|
  {
    if |reqs| == 0 then s else Replay(Apply(s, normal, reqs[0]), normal, reqs[1..])
  }

  /** Request times never go backwards and none precedes `clock`. */
  predicate InTimeOrder(reqs: seq<Request>, clock: nat) {
    && (forall i :: 0 <= i < |reqs| ==> clock <= reqs[i].at)
    && (forall i, j :: 0 <= i < j < |reqs| ==> reqs[i].at <= reqs[j].at)
  }

  function LastTime(reqs: seq<Request>, clock: nat): nat {
    if |reqs| == 0 then clock else reqs[|reqs| - 1].at
  }

  /** Any history of requests served in time order keeps the store well formed. */
  lemma {:induction false} ReplayPreservesWellFormed(s: Store, normal: Metrics, clock: nat, reqs: seq<Request>)
    requires WellFormed(s, normal, clock) && InTimeOrder(reqs, clock)
    ensures WellFormed(Replay(s, normal, reqs), normal, LastTime(reqs, clock))
    decreases |reqs|
  {
    if |reqs| > 0 {
      var r := reqs[0];
      match r {
        case Submit(g, f, t, ok) => RecordPreservesWellFormed(s, normal, clock, g, f, t, ok);
        case Close(id, a, t, ok) => ResolvePreservesWellFormed(s, normal, clock, id, a, t, ok);
      }
      var rest := reqs[1..];
      assert forall i :: 0 <= i < |rest| ==> rest[i] == reqs[i + 1];
      assert InTimeOrder(rest, r.at);
      ReplayPreservesWellFormed(Apply(s, normal, r), normal, r.at, rest);
      if |rest| > 0 {
        assert LastTime(rest, r.at) == LastTime(reqs, clock);
      }
    }
  }
}
