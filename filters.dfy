/**
 * The activity list filters: by project, by type and by date range, and
 * their composition. Timestamps are integers (milliseconds); the calendar
 * bounds (local midnight today, the weekday, the first instants of this
 * and last month) are inputs.
 */
module Filters {

  import opened Wrappers
  import opened Seqs

  /** What the filters read of an activity; `time` is None for an invalid date. */
  datatype Activity = Activity(projectId: string, kind: string, time: Option<int>)

  const Day: int := 86_400_000

  /** The calendar facts the date filter derives from `new Date()`. */
  datatype Clock = Clock(today: int, weekday: int, thisMonthStart: int, lastMonthStart: int)

  /** `!value || value === 'all'` */
  predicate PassThrough(value: string) {
    value == "" || value == "all"
  }

  predicate MatchesProject(a: Activity, projectId: string) {
    PassThrough(projectId) || a.projectId == projectId
  }

  predicate MatchesType(a: Activity, kind: string) {
    PassThrough(kind) || a.kind == kind
  }

  /** `filterByProject` */
  function FilterByProject(activities: seq<Activity>, projectId: string): (r: seq<Activity>)
    ensures PassThrough(projectId) ==> r == activities
    ensures forall a :: a in r <==> a in activities && MatchesProject(a, projectId)
    ensures Subseq(r, activities)
  {
    if PassThrough(projectId) then
      SubseqRefl(activities);
      activities
    else Filter(activities, (a: Activity) => a.projectId == projectId)
  }

  /** `filterByType` */
  function FilterByType(activities: seq<Activity>, kind: string): (r: seq<Activity>)
    ensures PassThrough(kind) ==> r == activities
    ensures forall a :: a in r <==> a in activities && MatchesType(a, kind)
    ensures Subseq(r, activities)
  {
    if PassThrough(kind) then
      SubseqRefl(activities);
      activities
    else Filter(activities, (a: Activity) => a.kind == kind)
  }

  predicate OnOrAfter(a: Activity, start: int) {
    a.time.Some? && a.time.value >= start
  }

  predicate Between(a: Activity, start: int, end: int) {
    a.time.Some? && start <= a.time.value <= end
  }

  predicate Before(a: Activity, start: int, end: int) {
    a.time.Some? && start <= a.time.value < end
  }

  function ThisWeekStart(clock: Clock): int {
    clock.today - clock.weekday * Day
  }

  function LastWeekStart(clock: Clock): int {
    clock.today - (clock.weekday + 7) * Day
  }

  /** The ranges the `switch` knows. */
  predicate KnownRange(range: string) {
    range in {"today", "yesterday", "this-week", "last-week", "this-month", "last-month"}
  }

  /**
   * The test each range applies as written: the closed ranges end at
   * midnight at the start of their last day.
   */
  predicate InRange(a: Activity, range: string, clock: Clock) {
    match range
    case "today" => OnOrAfter(a, clock.today)
    case "yesterday" => OnOrAfter(a, clock.today - Day)
    case "this-week" => OnOrAfter(a, ThisWeekStart(clock))
    case "last-week" => Between(a, LastWeekStart(clock), LastWeekStart(clock) + 6 * Day)
    case "this-month" => OnOrAfter(a, clock.thisMonthStart)
    case "last-month" => Between(a, clock.lastMonthStart, clock.thisMonthStart - Day)
    case _ => true
  }

  /** `filterByDateRange`, as written. */
  function FilterByDateRange(activities: seq<Activity>, range: string, clock: Clock): (r: seq<Activity>)
    ensures PassThrough(range) || !KnownRange(range) ==> r == activities
    ensures forall a :: a in r <==> a in activities && (PassThrough(range) || InRange(a, range, clock))
    ensures Subseq(r, activities)
  {
    if PassThrough(range) || !KnownRange(range) then
      SubseqRefl(activities);
      activities
    else Filter(activities, a => InRange(a, range, clock))
  }

  /**
   * As written, an activity logged during the last day of last week, after
   * its midnight, is in neither the 'last-week' nor the 'this-week' range.
   */
  lemma LastWeekMissesItsLastDay(clock: Clock, a: Activity)
    requires 0 <= clock.weekday <= 6
    requires a.time == Some(LastWeekStart(clock) + 6 * Day + 1)
    ensures FilterByDateRange([a], "last-week", clock) == []
    ensures FilterByDateRange([a], "this-week", clock) == []
  {
    assert !InRange(a, "last-week", clock);
    assert !InRange(a, "this-week", clock);
  }

  /** The same gap for the last day of last month. */
  lemma LastMonthMissesItsLastDay(clock: Clock, a: Activity)
    requires a.time == Some(clock.thisMonthStart - Day + 1)
    ensures FilterByDateRange([a], "last-month", clock) == []
    ensures FilterByDateRange([a], "this-month", clock) == []
  {
    assert !InRange(a, "last-month", clock);
    assert !InRange(a, "this-month", clock);
  }

  /** The ranges with the closed ones running up to the start of the next period. */
  predicate InRangeFixed(a: Activity, range: string, clock: Clock) {
    match range
    case "last-week" => Before(a, LastWeekStart(clock), ThisWeekStart(clock))
    case "last-month" => Before(a, clock.lastMonthStart, clock.thisMonthStart)
    case _ => InRange(a, range, clock)
  }

  /** `filterByDateRange` with whole last days. */
  function FilterByDateRangeFixed(activities: seq<Activity>, range: string, clock: Clock): (r: seq<Activity>)
    ensures PassThrough(range) || !KnownRange(range) ==> r == activities
    ensures forall a :: a in r <==> a in activities && (PassThrough(range) || InRangeFixed(a, range, clock))
    ensures Subseq(r, activities)
  {
    if PassThrough(range) || !KnownRange(range) then
      SubseqRefl(activities);
      activities
    else Filter(activities, a => InRangeFixed(a, range, clock))
  }

  /** With whole days, every dated activity since last week's start is in exactly one of the two weeks. */
  lemma WeeksPartition(clock: Clock, a: Activity)
    requires 0 <= clock.weekday <= 6
    requires a.time.Some? && a.time.value >= LastWeekStart(clock)
    ensures InRangeFixed(a, "last-week", clock) != InRangeFixed(a, "this-week", clock)
  {
  }

  /** Likewise for the months, given that last month starts before this one. */
  lemma MonthsPartition(clock: Clock, a: Activity)
    requires clock.lastMonthStart < clock.thisMonthStart
    requires a.time.Some? && a.time.value >= clock.lastMonthStart
    ensures InRangeFixed(a, "last-month", clock) != InRangeFixed(a, "this-month", clock)
  {
  }

  /** Everything `applyAllFilters` keeps. */
  predicate Matches(a: Activity, projectId: string, kind: string, range: string, clock: Clock) {
    MatchesProject(a, projectId) && MatchesType(a, kind) && (PassThrough(range) || InRange(a, range, clock))
  }

  /** Everything the combined filter keeps once the closed ranges take in their whole last day. */
  predicate MatchesFixed(a: Activity, projectId: string, kind: string, range: string, clock: Clock) {
    MatchesProject(a, projectId) && MatchesType(a, kind) && (PassThrough(range) || InRangeFixed(a, range, clock))
  }

  /** `filterByProject` keeps what one test on each activity keeps. */
  lemma FilterByProjectIsFilter(activities: seq<Activity>, projectId: string, p: Activity -> bool)
    requires forall a :: p(a) == MatchesProject(a, projectId)
    ensures FilterByProject(activities, projectId) == Filter(activities, p)
  {
    if PassThrough(projectId) {
      FilterAll(activities, p);
    } else {
      FilterAgree(activities, (a: Activity) => a.projectId == projectId, p);
    }
  }

  /** `filterByType` keeps what one test on each activity keeps. */
  lemma FilterByTypeIsFilter(activities: seq<Activity>, kind: string, p: Activity -> bool)
    requires forall a :: p(a) == MatchesType(a, kind)
    ensures FilterByType(activities, kind) == Filter(activities, p)
  {
    if PassThrough(kind) {
      FilterAll(activities, p);
    } else {
      FilterAgree(activities, (a: Activity) => a.kind == kind, p);
    }
  }

  /** `filterByDateRange`, as written, keeps what one test on each activity keeps. */
  lemma FilterByDateRangeIsFilter(activities: seq<Activity>, range: string, clock: Clock, p: Activity -> bool)
    requires forall a :: p(a) == (PassThrough(range) || InRange(a, range, clock))
    ensures FilterByDateRange(activities, range, clock) == Filter(activities, p)
  {
    if PassThrough(range) || !KnownRange(range) {
      FilterAll(activities, p);
    } else {
      FilterAgree(activities, a => InRange(a, range, clock), p);
    }
  }

  /** The corrected date filter keeps what one test on each activity keeps. */
  lemma FilterByDateRangeFixedIsFilter(activities: seq<Activity>, range: string, clock: Clock, p: Activity -> bool)
    requires forall a :: p(a) == (PassThrough(range) || InRangeFixed(a, range, clock))
    ensures FilterByDateRangeFixed(activities, range, clock) == Filter(activities, p)
  {
    if PassThrough(range) || !KnownRange(range) {
      FilterAll(activities, p);
    } else {
      FilterAgree(activities, a => InRangeFixed(a, range, clock), p);
    }
  }

  /** Filtering by project, then by type, then by a test `d` is one filter by all three tests. */
  lemma ProjectTypeThen(activities: seq<Activity>, projectId: string, kind: string, d: Activity -> bool,
                        m: Activity -> bool)
    requires forall a :: m(a) == (MatchesProject(a, projectId) && MatchesType(a, kind) && d(a))
    ensures Filter(FilterByType(FilterByProject(activities, projectId), kind), d) == Filter(activities, m)
  {
    var p := (a: Activity) => MatchesProject(a, projectId);
    var q := (a: Activity) => MatchesType(a, kind);
    var pq := (a: Activity) => p(a) && q(a);
    var byProject := FilterByProject(activities, projectId);
    FilterByProjectIsFilter(activities, projectId, p);
    FilterByTypeIsFilter(byProject, kind, q);
    FilterFilter(activities, p, q, pq);
    FilterFilter(activities, pq, d, m);
  }

  /** `applyAllFilters`: project, then type, then date range, as written. */
  function ApplyAllFilters(activities: seq<Activity>, projectId: string, kind: string, range: string, clock: Clock)
    : (r: seq<Activity>)
    ensures forall a :: a in r <==> a in activities && Matches(a, projectId, kind, range, clock)
    ensures Subseq(r, activities)
  {
    var byProject := FilterByProject(activities, projectId);
    var byType := FilterByType(byProject, kind);
    var r := FilterByDateRange(byType, range, clock);
    SubseqTrans(byType, byProject, activities);
    SubseqTrans(r, byType, activities);
    r
  }

  /** The three filters in a row are one filter by the combined test, so order is kept. */
  lemma ApplyAllFiltersIsFilter(activities: seq<Activity>, projectId: string, kind: string, range: string, clock: Clock)
    ensures ApplyAllFilters(activities, projectId, kind, range, clock) ==
      Filter(activities, a => Matches(a, projectId, kind, range, clock))
  {
    var d := (a: Activity) => PassThrough(range) || InRange(a, range, clock);
    var byType := FilterByType(FilterByProject(activities, projectId), kind);
    FilterByDateRangeIsFilter(byType, range, clock, d);
    ProjectTypeThen(activities, projectId, kind, d, a => Matches(a, projectId, kind, range, clock));
  }

  /** `applyAllFilters` over the corrected date filter. */
  function ApplyAllFiltersFixed(activities: seq<Activity>, projectId: string, kind: string, range: string, clock: Clock)
    : (r: seq<Activity>)
    ensures forall a :: a in r <==> a in activities && MatchesFixed(a, projectId, kind, range, clock)
    ensures Subseq(r, activities)
  {
    var byProject := FilterByProject(activities, projectId);
    var byType := FilterByType(byProject, kind);
    var r := FilterByDateRangeFixed(byType, range, clock);
    SubseqTrans(byType, byProject, activities);
    SubseqTrans(r, byType, activities);
    r
  }

  /** The corrected composition is one filter by the combined test too. */
  lemma ApplyAllFiltersFixedIsFilter(activities: seq<Activity>, projectId: string, kind: string, range: string,
                                     clock: Clock)
    ensures ApplyAllFiltersFixed(activities, projectId, kind, range, clock) ==
      Filter(activities, a => MatchesFixed(a, projectId, kind, range, clock))
  {
    var d := (a: Activity) => PassThrough(range) || InRangeFixed(a, range, clock);
    var byType := FilterByType(FilterByProject(activities, projectId), kind);
    FilterByDateRangeFixedIsFilter(byType, range, clock, d);
    ProjectTypeThen(activities, projectId, kind, d, a => MatchesFixed(a, projectId, kind, range, clock));
  }

  /**
   * The combined filters differ only on activities of a closed range's last
   * day: the corrected one keeps everything the one as written keeps.
   */
  lemma ApplyAllFiltersFixedKeepsMore(activities: seq<Activity>, projectId: string, kind: string, range: string,
                                      clock: Clock, a: Activity)
    requires a in ApplyAllFilters(activities, projectId, kind, range, clock)
    ensures a in ApplyAllFiltersFixed(activities, projectId, kind, range, clock)
  {
    assert Matches(a, projectId, kind, range, clock);
    if !PassThrough(range) {
      InRangeFixedWider(a, range, clock);
    }
    assert MatchesFixed(a, projectId, kind, range, clock);
  }

  /** Every activity a range keeps as written, the corrected range keeps. */
  lemma InRangeFixedWider(a: Activity, range: string, clock: Clock)
    requires InRange(a, range, clock)
    ensures InRangeFixed(a, range, clock)
  {
  }
}
