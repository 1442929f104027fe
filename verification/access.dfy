/** The small guards of app.py that sit beside the issue lifecycle: the post-login
    redirect target, who may edit an employee, the password-change checks, and which
    issues the issue list shows to whom. */
module Access {
  import opened Common
  import opened Text
  import opened Seqs
  import opened Entities

  // ---------------------------------------------------------------------------------
  // Post-login redirect

  /** Where `login` sends a signed-in user: `Some(p)` to follow the `next` argument `p`,
      `None` for the dashboard. The guard follows any value that starts with one `/` but
      not with `//`; it does not reject `/\`, which browsers also read as naming another
      host. */
  function NextTarget(next: Option<string>): (r: Option<string>)
    ensures r.Some? <==>
              next.Some? && |next.value| >= 1 && next.value[0] == '/' &&
              (|next.value| == 1 || next.value[1] != '/')
    ensures r.Some? ==> r == next
  {
    if Truthy(next) && StartsWith(next.value, "/") && !StartsWith(next.value, "//") then next
    else None
  }

  /** A bare `/` and a backslash after the slash are followed; a protocol-relative URL
      and a relative path are not. */
  lemma NextTargetExamples()
    ensures NextTarget(Some("/")) == Some("/")
    ensures NextTarget(Some("/issues")) == Some("/issues")
    ensures NextTarget(Some("//evil.example/")) == None
    ensures NextTarget(Some("/\\evil.example/")) == Some("/\\evil.example/")
    ensures NextTarget(Some("issues")) == None
    ensures NextTarget(Some("")) == None
    ensures NextTarget(None) == None
  {
  }

  // ---------------------------------------------------------------------------------
  // Edit permission

  /** `edit_employee` turns the actor away when they are neither an admin nor the
      employee being edited. */
  predicate CanEdit(actor: Employee, target: Employee) {
    !(!actor.isAdmin && actor.id != target.id)
  }

  /** Everyone may edit themselves, an admin may edit anyone, and a non-admin may edit
      nobody else. */
  lemma EditPermission(actor: Employee, target: Employee)
    ensures CanEdit(actor, actor)
    ensures actor.isAdmin ==> CanEdit(actor, target)
    ensures !actor.isAdmin && target.id != actor.id ==> !CanEdit(actor, target)
  {
  }

  // ---------------------------------------------------------------------------------
  // Password change

  /** The shortest new password `change_password` accepts. */
  const MinPasswordLength: nat := 5

  /** The outcome of a password-change submission, one per message of the handler. */
  datatype PasswordResult =
    | FieldsMissing
    | ConfirmationMismatch
    | WrongCurrentPassword
    | TooShort
    | UpdateFailed
    | Updated

  /** What the handler leaves behind: the password now stored for the employee (`None`
      when unchanged) and whether the session was cleared. */
  datatype PasswordChange = PasswordChange(result: PasswordResult, stored: Option<string>, signedOut: bool)

  /** `change_password` on a form. `checkPassword` is the employee's stored-hash check and
      `commitOk` whether the database accepts the new hash. */
  function ChangePassword(current: Option<string>, proposed: Option<string>, confirm: Option<string>,
                          checkPassword: string -> bool, commitOk: bool): (c: PasswordChange)
    ensures c.result == FieldsMissing <==> !Truthy(current) || !Truthy(proposed) || !Truthy(confirm)
    ensures c.result == ConfirmationMismatch <==>
              Truthy(current) && Truthy(proposed) && Truthy(confirm) && proposed != confirm
    ensures c.result == WrongCurrentPassword <==>
              Truthy(current) && Truthy(proposed) && proposed == confirm && !checkPassword(current.value)
    ensures c.result == TooShort <==>
              Truthy(current) && Truthy(proposed) && proposed == confirm && checkPassword(current.value) &&
              |proposed.value| < MinPasswordLength
    ensures c.result in {Updated, UpdateFailed} ==>
              Truthy(current) && checkPassword(current.value) && proposed == confirm &&
              proposed.Some? && |proposed.value| >= MinPasswordLength
    ensures c.result == Updated <==> c.result in {Updated, UpdateFailed} && commitOk
    ensures c.stored.Some? <==> c.result == Updated
    ensures c.stored.Some? ==> c.stored == proposed
    ensures c.signedOut <==> c.result == Updated
  {
    var result :=
      if !Truthy(current) || !Truthy(proposed) || !Truthy(confirm) then FieldsMissing
      else if proposed != confirm then ConfirmationMismatch
      else if !checkPassword(current.value) then WrongCurrentPassword
      else if |proposed.value| < MinPasswordLength then TooShort
      else if !commitOk then UpdateFailed
      else Updated;
    if result == Updated then PasswordChange(Updated, proposed, true)
    else PasswordChange(result, None, false)
  }

  /** The warning text asks for eight characters, but five already pass. */
  lemma FiveCharacterPasswordAccepted(current: string, checkPassword: string -> bool)
    requires current != "" && checkPassword(current)
    ensures ChangePassword(Some(current), Some("abcde"), Some("abcde"), checkPassword, true).result == Updated
    ensures ChangePassword(Some(current), Some("abcd"), Some("abcd"), checkPassword, true).result == TooShort
  {
  }

  /** The checks run in a fixed order: a mismatch is reported before the current password
      is even looked at, and a short password only once the current one is right. */
  lemma PasswordChecksInOrder(current: string, checkPassword: string -> bool)
    requires current != "" && !checkPassword(current)
    ensures ChangePassword(Some(current), Some("ab"), Some("xy"), checkPassword, true).result == ConfirmationMismatch
    ensures ChangePassword(Some(current), Some("ab"), Some("ab"), checkPassword, true).result == WrongCurrentPassword
    ensures ChangePassword(Some(current), None, Some("ab"), checkPassword, true).result == FieldsMissing
  {
  }

  // ---------------------------------------------------------------------------------
  // Issue list

  /** `Issue.status` is a string column and `'Ongoing' < 'Resolved'`, so an ascending
      sort puts ongoing issues first. */
  function StatusRank(st: Status): int {
    match st
    case Ongoing => 0
    case Resolved => 1
  }

  /** `order_by(Issue.status.asc(), Issue.created_at.desc())`. */
  function IssueKey(): Issue -> Key {
    (i: Issue) => Key(StatusRank(i.status), -(i.createdAt as int))
  }

  function OfGreenhouse(ghId: nat): Issue -> bool {
    (i: Issue) => i.greenhouseId == ghId
  }

  /** `g.employee.assigned_greenhouse`: the employee's greenhouse, when it exists. */
  predicate HasAssignedGreenhouse(s: Store, e: Employee) {
    e.greenhouseId.Some? && GreenhouseExists(s, e.greenhouseId.value)
  }

  /** The order the issue list promises: ongoing before resolved, newest first within
      each status. */
  predicate ListOrder(r: seq<Issue>) {
    && (forall i, j :: 0 <= i < j < |r| && r[i].status == Resolved ==> r[j].status == Resolved)
    && (forall i, j :: 0 <= i < j < |r| && r[i].status == r[j].status ==> r[i].createdAt >= r[j].createdAt)
  }

  /** The database order, applied to some issues. */
  function SortIssues(issues: seq<Issue>): (r: seq<Issue>)
    ensures ListOrder(r)
    ensures multiset(r) == multiset(issues)
  {
    var r := SortBy(issues, IssueKey());
    assert forall i, j :: 0 <= i < j < |r| ==> KeyLe(IssueKey()(r[i]), IssueKey()(r[j]));
    r
  }

  /** The issues of one greenhouse, in list order. */
  function GreenhouseIssues(s: Store, ghId: nat): (r: seq<Issue>)
    ensures ListOrder(r)
    ensures forall k :: 0 <= k < |r| ==> r[k] in s.issues && r[k].greenhouseId == ghId
    ensures forall k :: 0 <= k < |s.issues| && s.issues[k].greenhouseId == ghId ==> s.issues[k] in r
    ensures multiset(r) <= multiset(s.issues)
  {
    var mine := Filter(s.issues, OfGreenhouse(ghId));
    var r := SortIssues(mine);
    SameMembers(r, mine);
    r
  }

  /** What the issue list renders, and whether it warns that the viewer is unassigned. */
  datatype IssueList = IssueList(issues: seq<Issue>, notAssigned: bool)

  /** `view_all_issues`: admins see every issue, other employees those of their own
      greenhouse, and an employee without a greenhouse sees none. */
  function VisibleIssues(s: Store, viewer: Employee): (r: IssueList)
    ensures r.notAssigned <==> !viewer.isAdmin && !HasAssignedGreenhouse(s, viewer)
    ensures r.notAssigned ==> r.issues == []
    ensures viewer.isAdmin ==> multiset(r.issues) == multiset(s.issues)
    ensures !viewer.isAdmin && HasAssignedGreenhouse(s, viewer) ==>
              && (forall k :: 0 <= k < |r.issues| ==>
                    r.issues[k] in s.issues && Some(r.issues[k].greenhouseId) == viewer.greenhouseId)
              && (forall k :: 0 <= k < |s.issues| && Some(s.issues[k].greenhouseId) == viewer.greenhouseId ==>
                    s.issues[k] in r.issues)
              && multiset(r.issues) <= multiset(s.issues)
    ensures ListOrder(r.issues)
  {
    if viewer.isAdmin then IssueList(SortIssues(s.issues), false)
    else if HasAssignedGreenhouse(s, viewer) then IssueList(GreenhouseIssues(s, viewer.greenhouseId.value), false)
    else IssueList([], true)
  }
}
