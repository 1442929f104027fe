/** The dashboard projection of app.py: greenhouses with an ongoing issue first, then by
    id, the first four shown; the summary counts; and the newest ongoing issue of the
    viewer's own greenhouse. Read-only: nothing here changes the store. */
module Dashboard {
  import opened Common
  import opened Seqs
  import opened Entities
  import Resolution

  /** `any(issue.status == 'Ongoing' for issue in gh.issues)`. */
  predicate HasOngoingIssue(s: Store, ghId: nat) {
    exists i :: 0 <= i < |s.issues| && s.issues[i].greenhouseId == ghId && s.issues[i].status == Ongoing
  }

  function OngoingTest(s: Store): Greenhouse -> bool {
    (g: Greenhouse) => HasOngoingIssue(s, g.id)
  }

  /** The sort key `(0 if has_ongoing_issue else 1, greenhouse.id)`. */
  function GreenhouseKey(s: Store): Greenhouse -> Key {
    (g: Greenhouse) => Key(if HasOngoingIssue(s, g.id) then 0 else 1, g.id)
  }

  /** All greenhouses in dashboard order. */
  function SortedGreenhouses(s: Store): (r: seq<Greenhouse>)
    ensures multiset(r) == multiset(s.greenhouses)
    ensures forall i, j :: 0 <= i < j < |r| && HasOngoingIssue(s, r[j].id) ==> HasOngoingIssue(s, r[i].id)
    ensures forall i, j :: 0 <= i < j < |r| && HasOngoingIssue(s, r[i].id) == HasOngoingIssue(s, r[j].id)
              ==> r[i].id <= r[j].id
  {
    var r := SortBy(s.greenhouses, GreenhouseKey(s));
    assert forall i, j :: 0 <= i < j < |r| ==> KeyLe(GreenhouseKey(s)(r[i]), GreenhouseKey(s)(r[j]));
    r
  }

  /** Number of greenhouse tiles the dashboard shows. */
  const TilesShown: nat := 4

  /** The most recent reading of a greenhouse. */
  function LatestReading(s: Store, ghId: nat): (r: Option<Reading>)
    ensures r.None? <==> forall i :: 0 <= i < |s.readings| ==> s.readings[i].greenhouseId != ghId
    ensures r.Some? ==> r.value in s.readings && r.value.greenhouseId == ghId
    ensures r.Some? ==> forall i :: 0 <= i < |s.readings| && s.readings[i].greenhouseId == ghId ==>
                          s.readings[i].timestamp <= r.value.timestamp
  {
    Latest(s.readings, (d: Reading) => d.greenhouseId == ghId, (d: Reading) => d.timestamp)
  }

  /** One greenhouse tile. */
  datatype Tile = Tile(
    greenhouse: Greenhouse,
    hasOngoingIssue: bool,
    statusText: string,
    statusClass: string,
    latest: Option<Reading>)

  /** The tile of greenhouse `g`: flagged, labelled and styled by whether one of its
      issues is ongoing, and showing its newest reading, if any. */
  function TileOf(s: Store, g: Greenhouse): (t: Tile)
    ensures t.greenhouse == g
    ensures t.hasOngoingIssue <==>
              exists i :: 0 <= i < |s.issues| && s.issues[i].greenhouseId == g.id && s.issues[i].status == Ongoing
    ensures t.statusText == (if t.hasOngoingIssue then "Issue Detected" else "Normal")
    ensures t.statusClass == (if t.hasOngoingIssue then "issue-detected" else "normal")
    ensures t.latest.None? <==> forall i :: 0 <= i < |s.readings| ==> s.readings[i].greenhouseId != g.id
    ensures t.latest.Some? ==>
              && t.latest.value in s.readings
              && t.latest.value.greenhouseId == g.id
              && forall i :: 0 <= i < |s.readings| && s.readings[i].greenhouseId == g.id ==>
                               s.readings[i].timestamp <= t.latest.value.timestamp
  {
    var ongoing := HasOngoingIssue(s, g.id);
    Tile(g, ongoing,
         if ongoing then "Issue Detected" else "Normal",
         if ongoing then "issue-detected" else "normal",
         LatestReading(s, g.id))
  }

  /** The newest ongoing issue of the viewer's greenhouse, for staff assigned to one. */
  function AssignedAlert(s: Store, viewer: Employee): (r: Option<Issue>)
    ensures !Resolution.Assigned(viewer) ==> r.None?
    ensures Resolution.Assigned(viewer) ==>
              (r.None? <==> !HasOngoingIssue(s, viewer.greenhouseId.value))
    ensures r.Some? ==>
              && r.value in s.issues
              && r.value.status == Ongoing
              && Some(r.value.greenhouseId) == viewer.greenhouseId
              && forall i :: 0 <= i < |s.issues| && s.issues[i].greenhouseId == r.value.greenhouseId &&
                               s.issues[i].status == Ongoing ==>
                               s.issues[i].createdAt <= r.value.createdAt
  {
    if !Resolution.Assigned(viewer) then None
    else
      var gid := viewer.greenhouseId.value;
      Latest(s.issues, (i: Issue) => i.greenhouseId == gid && i.status == Ongoing, (i: Issue) => i.createdAt)
  }

  function ResolvedTest(): Issue -> bool {
    (i: Issue) => i.status == Resolved
  }

  /** What the dashboard page is rendered from. */
  datatype View = View(
    tiles: seq<Tile>,
    employeeCount: nat,
    ongoingCount: nat,
    resolvedCount: nat,
    alert: Option<Issue>)

  function BuildDashboard(s: Store, viewer: Employee): (v: View)
    ensures |v.tiles| == (if |s.greenhouses| < TilesShown then |s.greenhouses| else TilesShown)
    ensures forall i :: 0 <= i < |v.tiles| ==> v.tiles[i].greenhouse == SortedGreenhouses(s)[i]
    ensures forall i :: 0 <= i < |v.tiles| ==>
              v.tiles[i].hasOngoingIssue == HasOngoingIssue(s, v.tiles[i].greenhouse.id)
    ensures forall i :: 0 <= i < |v.tiles| ==>
              && v.tiles[i].statusText == (if v.tiles[i].hasOngoingIssue then "Issue Detected" else "Normal")
              && v.tiles[i].statusClass == (if v.tiles[i].hasOngoingIssue then "issue-detected" else "normal")
    ensures forall i :: 0 <= i < |v.tiles| ==> v.tiles[i].latest == LatestReading(s, v.tiles[i].greenhouse.id)
    ensures v.employeeCount == |s.employees|
    ensures v.ongoingCount == Count(s.greenhouses, OngoingTest(s))
    ensures v.resolvedCount == Count(s.issues, ResolvedTest())
    ensures v.alert == AssignedAlert(s, viewer)
  {
    var shown := Take(SortedGreenhouses(s), TilesShown);
    View(
      seq(|shown|, i requires 0 <= i < |shown| => TileOf(s, shown[i])),
      |s.employees|,
      Count(s.greenhouses, OngoingTest(s)),
      Count(s.issues, ResolvedTest()),
      AssignedAlert(s, viewer))
  }

  /** The ongoing count is the length of the leading run of flagged greenhouses in
      dashboard order: exactly the first `ongoingCount` greenhouses have an ongoing issue. */
  lemma {:induction false} OngoingCountIsLeadingRun(s: Store)
    ensures var r := SortedGreenhouses(s);
            forall i :: 0 <= i < |r| ==> (HasOngoingIssue(s, r[i].id) <==> i < Count(s.greenhouses, OngoingTest(s)))
  {
    var r := SortedGreenhouses(s);
    var p := OngoingTest(s);
    assert FrontLoaded(r, p);
    FrontLoadedPrefix(r, p);
    CountSortBy(s.greenhouses, GreenhouseKey(s), p);
  }

  /** Tiles with an ongoing issue come first, and there are as many of them as the
      ongoing count allows among the first four. */
  lemma TilesShowOngoingFirst(s: Store, viewer: Employee)
    ensures var v := BuildDashboard(s, viewer);
            forall i :: 0 <= i < |v.tiles| ==> (v.tiles[i].hasOngoingIssue <==> i < v.ongoingCount)
  {
    OngoingCountIsLeadingRun(s);
  }

  /** Greenhouse ids are primary keys. */
  predicate UniqueGreenhouseIds(gs: seq<Greenhouse>) {
    forall i, j :: 0 <= i < j < |gs| ==> gs[i].id != gs[j].id
  }

  /** With primary-key ids the dashboard order is fully determined: any arrangement of
      the greenhouses with flagged ones first and ids ascending within each group is it. */
  lemma DashboardOrderDetermined(s: Store, r: seq<Greenhouse>)
    requires multiset(r) == multiset(s.greenhouses)
    requires UniqueGreenhouseIds(r)
    requires forall i, j :: 0 <= i < j < |r| && HasOngoingIssue(s, r[j].id) ==> HasOngoingIssue(s, r[i].id)
    requires forall i, j :: 0 <= i < j < |r| && HasOngoingIssue(s, r[i].id) == HasOngoingIssue(s, r[j].id) ==>
               r[i].id <= r[j].id
    ensures SortedGreenhouses(s) == r
  {
    var key := GreenhouseKey(s);
    assert SortedBy(r, key) by {
      forall i, j | 0 <= i < j < |r| ensures KeyLe(key(r[i]), key(r[j])) {
      }
    }
    assert DistinctKeys(r, key) by {
      forall i, j | 0 <= i < j < |r| ensures key(r[i]) != key(r[j]) {
      }
    }
    SortByIsUnique(s.greenhouses, r, key);
  }

  /** An ordering example: greenhouses 1 to 4 where 2 and 3 have an
      ongoing issue are shown as 2, 3, 1, 4. */
  lemma OrderingExample(a: Greenhouse, b: Greenhouse, c: Greenhouse, d: Greenhouse, issues: seq<Issue>)
    requires a.id == 1 && b.id == 2 && c.id == 3 && d.id == 4
    requires |issues| == 2
    requires issues[0].greenhouseId == 2 && issues[0].status == Ongoing
    requires issues[1].greenhouseId == 3 && issues[1].status == Ongoing
    ensures SortedGreenhouses(Store([a, b, c, d], [], issues, [])) == [b, c, a, d]
  {
    var s := Store([a, b, c, d], [], issues, []);
    var r := [b, c, a, d];
    ExampleFlags(s);
    ExamplePermutation(a, b, c, d);
    ExampleOrder(s, r);
    DashboardOrderDetermined(s, r);
  }

  lemma ExampleFlags(s: Store)
    requires |s.issues| == 2
    requires s.issues[0].greenhouseId == 2 && s.issues[0].status == Ongoing
    requires s.issues[1].greenhouseId == 3 && s.issues[1].status == Ongoing
    ensures HasOngoingIssue(s, 2) && HasOngoingIssue(s, 3)
    ensures !HasOngoingIssue(s, 1) && !HasOngoingIssue(s, 4)
  {
    assert s.issues[0].greenhouseId == 2;
    assert s.issues[1].greenhouseId == 3;
  }

  lemma ExamplePermutation<T>(a: T, b: T, c: T, d: T)
    ensures multiset([b, c, a, d]) == multiset([a, b, c, d])
  {
    MultisetOfFour(a, b, c, d);
    MultisetOfFour(b, c, a, d);
  }

  lemma MultisetOfFour<T>(a: T, b: T, c: T, d: T)
    ensures multiset([a, b, c, d]) == multiset([a]) + multiset([b]) + multiset([c]) + multiset([d])
  {
    assert [a, b, c, d] == [a, b, c] + [d];
    assert [a, b, c] == [a, b] + [c];
    assert [a, b] == [a] + [b];
    MultisetConcat([a, b, c], [d]);
    MultisetConcat([a, b], [c]);
    MultisetConcat([a], [b]);
  }

  lemma MultisetConcat<T>(x: seq<T>, y: seq<T>)
    ensures multiset(x + y) == multiset(x) + multiset(y)
  {
  }

  lemma ExampleOrder(s: Store, r: seq<Greenhouse>)
    requires |r| == 4 && r[0].id == 2 && r[1].id == 3 && r[2].id == 1 && r[3].id == 4
    requires HasOngoingIssue(s, 2) && HasOngoingIssue(s, 3)
    requires !HasOngoingIssue(s, 1) && !HasOngoingIssue(s, 4)
    ensures UniqueGreenhouseIds(r)
    ensures forall i, j :: 0 <= i < j < |r| && HasOngoingIssue(s, r[j].id) ==> HasOngoingIssue(s, r[i].id)
    ensures forall i, j :: 0 <= i < j < |r| && HasOngoingIssue(s, r[i].id) == HasOngoingIssue(s, r[j].id) ==>
              r[i].id <= r[j].id
  {
  }
}
