/** Resolving an issue (`resolve_issue` in app.py): a one-way `Ongoing -> Resolved`
    transition behind a permission check, which also logs one reading of the configured
    normal values. The commit is all-or-nothing. */
module Resolution {
  import opened Common
  import opened Entities

  /** Python truthiness of `greenhouse_id`: set and not zero. */
  predicate Assigned(e: Employee) {
    e.greenhouseId.Some? && e.greenhouseId.value != 0
  }

  /** Admins may resolve any issue; other staff only issues of the greenhouse they are
      assigned to, and only while that greenhouse exists. */
  function CanResolve(s: Store, actor: Employee, issue: Issue): (ok: bool)
    ensures actor.isAdmin ==> ok
    ensures !actor.isAdmin ==>
              (ok <==> GreenhouseExists(s, issue.greenhouseId) && issue.greenhouseId != 0 &&
                       actor.greenhouseId == Some(issue.greenhouseId))
  {
    if actor.isAdmin then true
    else GreenhouseExists(s, issue.greenhouseId) && Assigned(actor) && issue.greenhouseId == actor.greenhouseId.value
  }

  datatype ResolveResult = IssueNotFound | PermissionDenied | AlreadyResolved | ResolveFailed | ResolvedNow

  datatype ResolveOutcome = ResolveOutcome(store: Store, result: ResolveResult)

  /** The reading logged when an issue of greenhouse `ghId` is resolved at `now`. */
  function BaselineReading(ghId: nat, normal: Metrics, now: nat): Reading {
    Reading(ghId, normal, now, Resolution)
  }

  /** The issue after the transition. */
  function MarkResolved(issue: Issue, now: nat): Issue {
    issue.(status := Resolved, resolvedAt := Some(now))
  }

  /** Handles one resolve request by `actor` at time `now`; `normal` are the configured
      normal values and `commitOk` whether the database commit succeeds. */
  function ResolveIssue(s: Store, issueId: nat, actor: Employee, normal: Metrics, now: nat, commitOk: bool)
    : (o: ResolveOutcome)
    ensures o.result == IssueNotFound <==> IssueIndex(s.issues, issueId).None?
    ensures o.result != ResolvedNow ==> o.store == s
    ensures o.result == PermissionDenied <==>
              && IssueIndex(s.issues, issueId).Some?
              && !CanResolve(s, actor, s.issues[IssueIndex(s.issues, issueId).value])
    ensures o.result == AlreadyResolved <==>
              && IssueIndex(s.issues, issueId).Some?
              && CanResolve(s, actor, s.issues[IssueIndex(s.issues, issueId).value])
              && s.issues[IssueIndex(s.issues, issueId).value].status == Resolved
    ensures o.result == ResolvedNow <==>
              && IssueIndex(s.issues, issueId).Some?
              && CanResolve(s, actor, s.issues[IssueIndex(s.issues, issueId).value])
              && s.issues[IssueIndex(s.issues, issueId).value].status == Ongoing
              && commitOk
    ensures o.result == ResolveFailed <==>
              && IssueIndex(s.issues, issueId).Some?
              && CanResolve(s, actor, s.issues[IssueIndex(s.issues, issueId).value])
              && s.issues[IssueIndex(s.issues, issueId).value].status == Ongoing
              && !commitOk
    ensures o.result == ResolvedNow ==>
              var k := IssueIndex(s.issues, issueId).value;
              && o.store.greenhouses == s.greenhouses
              && o.store.employees == s.employees
              && |o.store.issues| == |s.issues|
              && o.store.issues[k].status == Resolved
              && o.store.issues[k].resolvedAt == Some(now)
              && o.store.issues[k].id == s.issues[k].id
              && o.store.issues[k].greenhouseId == s.issues[k].greenhouseId
              && o.store.issues[k].description == s.issues[k].description
              && o.store.issues[k].createdAt == s.issues[k].createdAt
              && (forall i :: 0 <= i < |s.issues| && i != k ==> o.store.issues[i] == s.issues[i])
              && o.store.readings == s.readings + [Reading(s.issues[k].greenhouseId, normal, now, Resolution)]
  {
    match IssueIndex(s.issues, issueId)
    case None => ResolveOutcome(s, IssueNotFound)
    case Some(k) =>
      var issue := s.issues[k];
      if !CanResolve(s, actor, issue) then ResolveOutcome(s, PermissionDenied)
      else if issue.status == Resolved then ResolveOutcome(s, AlreadyResolved)
      else if !commitOk then
        assert s.issues[IssueIndex(s.issues, issueId).value].status == Ongoing;
        ResolveOutcome(s, ResolveFailed)
      else
        var s' := s.(issues := s.issues[k := MarkResolved(issue, now)],
                     readings := s.readings + [BaselineReading(issue.greenhouseId, normal, now)]);
        assert s.issues[IssueIndex(s.issues, issueId).value].status == Ongoing;
        ResolveOutcome(s', ResolvedNow)
  }

  /** Resolving twice is resolving once: the second request finds the issue resolved and
      changes nothing. */
  lemma ResolveIdempotent(s: Store, issueId: nat, actor: Employee, normal: Metrics, now: nat, later: nat, commitOk: bool)
    requires ResolveIssue(s, issueId, actor, normal, now, commitOk).result == ResolvedNow
    ensures var s1 := ResolveIssue(s, issueId, actor, normal, now, commitOk).store;
            ResolveIssue(s1, issueId, actor, normal, later, true) == ResolveOutcome(s1, AlreadyResolved)
  {
    var s1 := ResolveIssue(s, issueId, actor, normal, now, commitOk).store;
    var k := IssueIndex(s.issues, issueId).value;
    assert IssueIndex(s1.issues, issueId) == Some(k) by {
      assert forall i :: 0 <= i < k ==> s1.issues[i].id != issueId;
    }
    assert FindGreenhouse(s1.greenhouses, s.issues[k].greenhouseId) == FindGreenhouse(s.greenhouses, s.issues[k].greenhouseId);
  }

  /** Staff outside the issue's greenhouse, not being admins, never change anything. */
  lemma OutsidersCannotResolve(s: Store, issueId: nat, actor: Employee, normal: Metrics, now: nat, commitOk: bool)
    requires !actor.isAdmin
    requires IssueIndex(s.issues, issueId).Some?
    requires actor.greenhouseId != Some(s.issues[IssueIndex(s.issues, issueId).value].greenhouseId)
    ensures ResolveIssue(s, issueId, actor, normal, now, commitOk) == ResolveOutcome(s, PermissionDenied)
  {
  }
}
