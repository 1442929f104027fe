# Greenhouse monitoring: rules and issue lifecycle

A Dafny model of the decision logic of a Flask greenhouse-monitoring application.
Staff submit environmental readings of six metrics for a greenhouse. Six range
validators judge each reading. A reading that leaves any range opens an `Ongoing`
issue, and its description lists one violation per failing metric in a fixed order.
The issue is also queued as a mail alert for the greenhouse's available staff.
Resolving an issue is a one-way `Ongoing -> Resolved` step behind a permission check.
It also logs one `resolution` reading with the configured normal values. A dashboard
shows greenhouses with an ongoing issue first, then by id, and only the first four. Around this
sit small guards:
- the post-login redirect;
- the edit permission;
- the password-change checks;
- issue-list visibility;
- configuration selection from the environment, which rejects incomplete production
  settings.

The model is functional. The database is a `Store` of four sequences: greenhouses,
employees, issues and readings. Each request handler is a pure function from a store,
plus its inputs, to the new store and an outcome. A failed commit returns the old
store. The database's answer to a commit is the boolean parameter `commitOk`. The clock
is a `nat` parameter `now`.

Modules, in dependency order:
- `Common`: `Option`, `Result`, Python truthiness of optional strings.
- `Text`: prefix test, `str.join`, ASCII lower-casing.
- `Seqs`: a stable insertion sort on a two-part key (Python's `sorted` with a tuple
  key), plus counting, filtering, taking and "most recent" selection.
- `Entities`: the rows of the `models` package, and the store.
- `Ranges`: the six validators of utils.py.
- `Config`: the configuration classes, `config_by_name`, `get_config`, boolean
  environment flags and the normal values.
- `Notify`: the guards of `send_email_notification`.
- `Intake`: the POST branch of `input_form`.
- `Resolution`: `resolve_issue`.
- `Lifecycle`: a store invariant kept by both write handlers, alone and over any
  history of requests.
- `Dashboard`: the `dashboard` view.
- `Access`: the `login` redirect, the `edit_employee` permission, `change_password`
  and `view_all_issues`.

## Model

| member | source | states |
|---|---|---|
| Ranges.ValidatorMatchesStatedRange | utils.py:8-24 | each of the six validators accepts exactly the closed interval that its violation message quotes |
| Ranges.BoundsInclusive | utils.py:8-24 | both ends of every range pass, and any value beyond either end fails |
| Ranges.RangeIsConvex | utils.py:8-24 | a value between two accepted values is accepted |
| Ranges.AllInRangeIsEveryMetric | utils.py:8-24 | a reading is in range iff every metric passes its own validator |
| Ranges.TemperatureBoundaryExamples | utils.py:8-9 | 20.0 and 25.0 pass; 19.99 and 25.01 fail |
| Text.ToLower | config.py:83 | lower-casing keeps the length, turns each upper-case ASCII letter into its lower-case letter, and changes nothing else |
| Text.ToLowerIdempotent | config.py:83 | lower-casing twice is lower-casing once |
| Text.JoinAfterMarker | app.py:282 | the marker followed by the parts joined with that marker puts the marker before every part |
| Config.GetConfig | config.py:81-100 | the result is the selected class; a non-production selection never fails; production fails with a missing secret key, then a missing database URL, then mail enabled without user or password, each iff its condition holds and the earlier ones do not |
| Config.GetConfigFailsIffProductionNotReady | config.py:86-98 | `get_config` fails iff production is selected and the production settings are not ready |
| Config.SelectionByName | config.py:74-84 | selection ignores case; "production" and "testing" reach their classes, and every other name falls back to development |
| Config.UnsetEnvironmentIsDevelopment | config.py:83-84 | with `FLASK_ENV` unset, the development class is returned without error |
| Config.FlagParsing | config.py:27-31 | a flag is true iff its lower-cased text is "true", "1" or "t"; "True", "T" and "1" are true; "False", "yes" and "" are false |
| Config.TestingNeverMails | config.py:66-71 | the testing class has mail disabled whatever the environment says, and a database URI set unless `TEST_DATABASE_URL` is the empty string |
| Config.SettingsOf | config.py:10-71 | each class's settings: debug only for development, testing only for testing; the testing class uses its own database URL (defaulting to an in-memory one) and never mails; other classes mail iff `MAIL_ENABLED` parses as true (default "True"); the server, port and TLS/SSL flags take their defaults when unset; a default sender exists iff `MAIL_USERNAME` is non-empty, named "GreenTech Systems"; the normal values are fixed |
| Config.NormalReadingInRange | config.py:35-40 | every class carries the normal values 22.5, 50, 700, 5000, 6.5, 45, and each lies within its metric's range |
| Notify.PlanSend | utils.py:29-48 | with mail disabled, configuration incomplete, or no recipients, no transmission is planned; otherwise the normalised non-empty address list is sent to; no path raises |
| Notify.PlanSendAsWritten | utils.py:29-48 | the guards as written raise on the default sender exactly when mail is on and no sender is set; in every other case they stop where the corrected guards stop |
| Notify.SendEmailNotification | utils.py:26-48 | true only when mail is enabled, configured and addressed, and then exactly when the transport delivers |
| Notify.SingleAddressIsNormalised | utils.py:43-48 | a single non-empty address string is sent to as a one-element list; an empty string counts as no recipients; a non-empty list is passed on unchanged |
| Notify.AsWrittenAgreesWithSender | utils.py:29-41 | the guards as written and as corrected agree whenever mail is off or a default sender exists |
| Notify.SenderUnpackCrash | utils.py:33 | with a development environment, MAIL_ENABLED and MAIL_USERNAME unset: `get_config` succeeds and mail is on, yet the code as written raises on unpacking the sender, where the corrected guard returns at the incomplete-configuration check |
| Entities.FindGreenhouse | app.py:240 | the lookup returns a greenhouse with the requested id, and is absent iff no greenhouse has that id |
| Entities.IssueIndex | app.py:348 | the lookup finds the first issue with the requested id, and is absent iff none has it |
| Entities.NextIssueId | models/issue.py:6 | a new issue's primary key differs from every existing key |
| Seqs.SortBy | app.py:141 | the result is sorted by key and is a permutation of the input |
| Seqs.SortedUnique | app.py:138-141 | with distinct keys, two key-sorted permutations of the same elements are equal |
| Seqs.Filter | app.py:296 | the result holds exactly the elements that satisfy the predicate, drawn from the input, with the matching count |
| Seqs.FilterConcat | app.py:296 | filtering keeps input order: the survivors of a concatenation are the survivors of the first part followed by those of the second |
| Seqs.FilterSingleton | app.py:296 | a one-element input survives iff its element satisfies the predicate |
| Seqs.Latest | app.py:123-127 | the result is absent iff nothing qualifies; otherwise it is a qualifying element whose time is not exceeded by any other qualifying element |
| Intake.ParseFields | app.py:247-252 | conversion succeeds iff every field is a number, keeping the values in order; otherwise the error comes from the first non-numeric field |
| Intake.ParseForm | app.py:247-252 | the six metrics are exactly the six numeric form fields, or the form is rejected |
| Intake.CheckOrderIsComplete | app.py:266-277 | the check order lists all six metrics once, in increasing metric order |
| Intake.FlagsSound | app.py:266-277 | every collected violation carries the reading's value of its metric, and that value fails the metric's validator |
| Intake.FlagsComplete | app.py:266-277 | every failing metric of the checked list yields a violation |
| Intake.FlagsAbove | app.py:266-277 | a bound below the position of every checked metric is also below the position of every collected violation's metric |
| Intake.FlagsOrdered | app.py:266-277 | violations follow the order in which the metrics are checked |
| Intake.Violations | app.py:266-277 | at most six violations; none iff all six checks pass; each names a failing metric with its value; every failing metric appears; metric order is strictly increasing |
| Intake.TwoViolationsInOrder | app.py:266-269 | temperature 19 with humidity 70 gives exactly the temperature violation, then the humidity one |
| Intake.PartText | app.py:266-277 | each violation sentence opens with the metric's display name and the value, and ends with a full stop |
| Intake.AlertTextIsBulletedList | app.py:282 | the description is the greenhouse header followed by every violation sentence, each after "\n- " |
| Intake.BodyText | app.py:302 | the mail body begins with the stored issue description and adds a closing line; it is the body `Intake.DeliveryFailures` hands to the transport |
| Intake.Recipients | app.py:295-296 | the addresses are exactly those of employees assigned to the greenhouse who have a non-empty email and are available, one per such employee |
| Intake.RecipientsInEmployeeOrder | app.py:295-296 | addresses follow employee order: the list for a concatenation of employees is the list for the first part followed by that for the second |
| Intake.RecipientsOfOne | app.py:296 | a single employee contributes their address iff assigned there, with a non-empty email, and available; with the previous lemma this fixes the whole list |
| Intake.Commit | app.py:255-305 | a manual reading is always appended; an issue is appended iff some check fails, as `Ongoing` with a fresh id, the creation time and one to six violations; one alert is queued iff an issue was opened and the recipient list is non-empty |
| Intake.RecordReading | app.py:240-323 | a submission is recorded iff the greenhouse exists, all fields convert and the commit succeeds; on any failure no reading, issue or alert results; a non-numeric field is reported as invalid input |
| Intake.DeliveryFailures | app.py:326-335 | exactly the queued alerts whose send returns false are reported, each send being given the alert's subject, recipients and mail body |
| Intake.DisabledMailReportsEveryAlert | app.py:326-335 | with mail disabled, every queued alert is reported as not sent |
| Resolution.CanResolve | app.py:352-354 | admins may resolve anything; anyone else only while the issue's greenhouse exists, has a non-zero id and is the one they are assigned to |
| Resolution.ResolveIssue | app.py:345-386 | the outcome is not-found iff no issue has the id, denied iff it exists and the actor may not resolve it, already-resolved iff permitted and resolved, failed iff permitted, ongoing and the commit fails, resolved iff permitted, ongoing and committed; every outcome but the last leaves the store unchanged; on the last, only that issue becomes `Resolved` with the resolution time, and exactly one resolution reading with the normal values is appended |
| Resolution.ResolveIdempotent | app.py:359-385 | a second resolve of the same issue reports it already resolved and changes nothing |
| Resolution.OutsidersCannotResolve | app.py:352-357 | a non-admin not assigned to the issue's greenhouse is refused and nothing changes |
| Lifecycle.FreshStoreWellFormed | app.py:761-764 | a database with no issues and no readings, as `init-db` leaves it, with any greenhouses and staff added afterwards, satisfies the store invariant; it is the starting point for `Lifecycle.ReplayPreservesWellFormed` |
| Lifecycle.CommitPreservesWellFormed | app.py:255-309 | a committed submission keeps the store invariant |
| Lifecycle.RecordPreservesWellFormed | app.py:246-323 | every reading submission keeps the store invariant: unique issue ids, resolution time set iff resolved and not before creation, no future rows, rows only for existing greenhouses, resolution readings carrying the normal values |
| Lifecycle.ResolvePreservesWellFormed | app.py:359-383 | every resolve request keeps the store invariant |
| Lifecycle.ResolvedNotBeforeCreated | app.py:361-362 | a newly resolved issue has a resolution time no earlier than its creation |
| Lifecycle.RecordAppendsReadings | app.py:255-263 | recording keeps every old reading and adds at most one |
| Lifecycle.ResolveAppendsReadings | app.py:365-376 | resolving keeps every old reading and adds at most one |
| Lifecycle.RecordKeepsResolvedIssue | app.py:255-309 | a reading submission never changes an issue that is already resolved |
| Lifecycle.ResolveKeepsResolvedIssue | app.py:359-385 | a resolve request, for whichever issue, never changes an issue that is already resolved |
| Lifecycle.ResolvedIsTerminal | app.py:255-385 | no write changes an issue that is already resolved |
| Lifecycle.ResolutionReadingsInRange | app.py:365-376 | under the invariant, every resolution reading is in range and yields no violation |
| Lifecycle.ReplayPreservesWellFormed | app.py:239-386 | any time-ordered history of submissions and resolve requests keeps the store invariant |
| Dashboard.SortedGreenhouses | app.py:138-141 | the list is a permutation of all greenhouses; those with an ongoing issue come first, and ids ascend within each group |
| Dashboard.DashboardOrderDetermined | app.py:138-141 | with unique ids, any arrangement with flagged greenhouses first and ids ascending within each group is the dashboard order |
| Dashboard.OrderingExample | app.py:138-142 | greenhouses 1 to 4, where 2 and 3 have ongoing issues, are shown as 2, 3, 1, 4 |
| Dashboard.LatestReading | app.py:123-127 | the newest reading of the greenhouse, absent iff it has none |
| Dashboard.AssignedAlert | app.py:151-160 | for staff with a truthy greenhouse id, the newest ongoing issue of that greenhouse, absent iff there is none; otherwise absent |
| Dashboard.TileOf | app.py:118-135 | a tile shows its greenhouse, is flagged iff one of its issues is ongoing, reads "Issue Detected"/"issue-detected" when flagged and "Normal"/"normal" otherwise, and shows the newest reading of that greenhouse, absent iff it has none |
| Dashboard.BuildDashboard | app.py:117-167 | the first min(4, n) greenhouses in dashboard order, each with its ongoing flag, the matching status text and class, and its newest reading; the employee count, the number of greenhouses with an ongoing issue, and the number of resolved issues |
| Dashboard.OngoingCountIsLeadingRun | app.py:141-147 | exactly the first `ongoing count` greenhouses in dashboard order have an ongoing issue |
| Dashboard.TilesShowOngoingFirst | app.py:141-147 | a displayed tile shows an ongoing issue iff its position is below the ongoing count |
| Access.NextTarget | app.py:86-90 | `next` is followed iff it is present, its first character is "/" and its second, if any, is not "/"; a backslash after the slash is therefore let through |
| Access.NextTargetExamples | app.py:86-90 | "/", "/issues" and `/\evil.example/` are followed; "//evil.example/", "issues", "" and an absent value lead to the dashboard |
| Access.EditPermission | app.py:625-627 | everyone may edit themselves, an admin may edit anyone, and a non-admin nobody else |
| Access.ChangePassword | app.py:715-749 | the change is rejected for a missing field, then a mismatch, then a wrong current password, then a new password shorter than 5, each iff its condition holds and the earlier ones do not; only an accepted, committed change stores the new password and clears the session |
| Access.FiveCharacterPasswordAccepted | app.py:734-736 | a 5-character password is accepted and a 4-character one is refused, although the message asks for 8 |
| Access.PasswordChecksInOrder | app.py:721-731 | a mismatch is reported before the current password is checked, and a missing field before anything else |
| Access.SortIssues | app.py:183-189 | a permutation with ongoing issues before resolved ones, newest first within each status |
| Access.GreenhouseIssues | app.py:191-194 | exactly the issues of the greenhouse, in list order |
| Access.VisibleIssues | app.py:179-200 | an admin sees every issue; other staff see exactly their existing greenhouse's issues; staff without one see none and are warned; always in list order |

## Left out

- SMTP delivery (MIME building, the SMTP session) in utils.py:50-72 is network I/O. Its success is the parameter `delivered`.
- Password hashing is a foreign library. `check_password` is the parameter `checkPassword`, and the stored hash is represented by the new plain password.
- `generate_password` and `generate_unique_company_id` depend on randomness and are not modelled.
- Loading `.env` and `os.getenv` are I/O. The environment is the `Environment` record.
- Python's float-to-string conversion in the violation messages is the parameter `fmt`. The issue stores its violations structurally, and `Intake.AlertText` renders them.
- NaN and infinite readings are not modelled: values are Dafny `real`.
- `datetime.utcnow` is the clock parameter `now`.
- Concurrent submissions, and the duplicate issues they could open, are not modelled.
- The `init-db` and `create-admin` CLI commands are bootstrap plumbing and are not modelled. Only the empty issue and reading tables that `init-db` leaves are used, as the starting store of `Lifecycle.FreshStoreWellFormed`.
- Other routes are not part of this model: `logout`, the greenhouse list (`view_greenhouses`), greenhouse and employee creation, the employee list, historical data and the JSON API. `logout` only clears the session and `view_greenhouses` only renders rows; the store's greenhouses and staff are taken as given.
- Logging through `app.logger` is not modelled, for example the warning at app.py:305 when an issue opens but nobody assigned has an email and is available. Logging changes no stored state.
- `edit_employee` is modelled only for its permission check; the field updates after it are left out.
- `MAIL_PORT` is taken as an integer. The `ValueError` of `int()` on a malformed value, `LOGGING_LEVEL`, `SQLALCHEMY_ECHO` and `WTF_CSRF_ENABLED` are not modelled.
- The class-level checks in `ProductionConfig` (config.py:59-64) do nothing (`pass`), so they are not modelled.
- The dashboard's exception path (app.py:169-172), which renders empty data, is not modelled.
- The issue list's exception path (app.py:204-211), which renders an empty list after a database error, is not modelled; the model's store never fails on reads.
- Lower-casing covers ASCII letters only; Python's full Unicode `lower()` is not modelled.
- Rows with equal sort keys keep store order. The database guarantees no tie order, so any fixed order is a legitimate model.
- The string status column sorts `'Ongoing'` before `'Resolved'`. The model ranks the two statuses 0 and 1 and has no other status values.
- Issue ids are one more than the largest id in use. This matches SQLite's rowid choice, which the model does not otherwise represent.
- Flash messages, templates, redirects, sessions and `login_required` are web glue. Only the decisions they carry are modelled.
- Notify.SendEmailNotification: models the corrected guard order (see Findings). As written, utils.py:33 raises `TypeError` instead of returning `False` when mail is on and no default sender is set; `Notify.PlanSendAsWritten` models that behaviour.
- Intake.DeliveryFailures: builds on the corrected `Notify.SendEmailNotification`. As written, the `TypeError` from utils.py:33 escapes the call at app.py:329, which lies outside the handler's `try` and after the commit, so the reading and issue are stored and the request ends in a server error rather than a delivery-failure message.
- Intake.RecordReading: a form key missing from the request raises a non-`ValueError` exception. The model reports it as `SaveFailed`, the handler's generic error branch.

## Findings

| source | as written | input that shows it | evidently intended | confidence | as-written member | corrected member |
|---|---|---|---|---|---|---|
| utils.py:33 | the default sender is unpacked into name and address before the incomplete-configuration guard; config.py:32 makes it `None` when `MAIL_USERNAME` is unset, so the unpacking raises `TypeError` | FLASK_ENV=development, MAIL_ENABLED unset (so mail is on), MAIL_USERNAME unset, then any alert | a missing sender returns `False` at the guard on utils.py:39 | not executed | Notify.SenderUnpackCrash | Notify.PlanSend |
