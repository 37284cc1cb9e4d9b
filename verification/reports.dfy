/** Backend/routes/reports.js: the seven-day mood report. The caller's moods
    since the start of the day six days ago are read in ascending date order;
    the last one of each day gives that day's value, and days without a mood
    read 0. Time is in milliseconds and a day is `date / DayMs`. */
module Reports {
  import opened Common
  import opened Text
  import opened Lists
  import opened Sorting
  import opened Moods
  import opened MoodRoutes

  /** Milliseconds in a day. */
  const DayMs: int := 86_400_000

  /** The number of days in the report. */
  const WindowDays: nat := 7

  const AuthErrorMessage: string := "Authentication error: user not found"

  const Summary: string := "Your mood has been generally stable with occasional highs and lows."

  const Suggestions: seq<string> := [
    "Practice deep breathing exercises during anxious moments.",
    "Maintain gratitude journal daily.",
    "Continue attending support group chats."
  ]

  /** A graph value: an integer, or `None` for the NaN `parseInt` gives on a
      string with no leading digits. */
  type GraphValue = Option<int>

  datatype Report = Report(summary: string, suggestions: seq<string>,
                           graphData: seq<GraphValue>, graphDates: seq<int>)

  /** The day a timestamp falls on. */
  function DayOf(t: int): int {
    FloorDiv(t, DayMs)
  }

  /** Division rounding down; for a positive divisor this is Dafny's `/`. */
  function FloorDiv(a: int, b: int): int
    requires b > 0
  {
    a / b
  }

  /** The first day of the window: six days before the day of `now`. */
  function WindowStart(now: int): int {
    DayOf(now) - (WindowDays - 1)
  }

  /** The value a mood contributes to the graph: a number as it is, a string read as a decimal integer prefix (`None` for NaN). */
  function ValueOf(m: MoodRecord): GraphValue {
    match m.mood
    case Num(n) => Some(n)
    case Str(s) => ParseInt(s)
  }

  /** The query's condition: the user's mood, dated at or after the first
      midnight of the window. */
  predicate InWindow(uid: UserId, now: int, m: MoodRecord) {
    m.userId == uid && m.date >= WindowStart(now) * DayMs
  }

  /** The sort key of `.sort({ date: 1 })`. */
  function DateOf(m: MoodRecord): int {
    m.date
  }

  /** The query: the caller's moods dated at or after the window's first
      midnight, in ascending date order (ties keep insertion order). */
  function WindowMoods(records: seq<MoodRecord>, uid: UserId, now: int): (r: seq<MoodRecord>)
    ensures forall m | m in r :: m in records && m.userId == uid && DayOf(m.date) >= WindowStart(now)
    ensures forall m | m in records && m.userId == uid && DayOf(m.date) >= WindowStart(now) :: m in r
    ensures forall i, j | 0 <= i < j < |r| :: r[i].date <= r[j].date
  {
    var mine := Filter(records, (m: MoodRecord) => InWindow(uid, now, m));
    var sorted := SortBy(mine, DateOf);
    forall m | m in sorted || m in mine ensures m in sorted <==> m in mine {
      SortKeepsMembers(mine, DateOf, m);
    }
    sorted
  }

  /** The per-day map built by `moods.forEach`: each mood overwrites its day's entry. */
  function DayValues(ms: seq<MoodRecord>): map<int, GraphValue>
    decreases |ms|
  {
    if ms == [] then map[]
    else
      var n := |ms| - 1;
      DayValues(ms[..n])[DayOf(ms[n].date) := ValueOf(ms[n])]
  }

  /** The index of the last mood of `ms` on day `d`, or -1 when none falls on it. */
  function LastIndexOn(ms: seq<MoodRecord>, d: int): (k: int)
    ensures -1 <= k < |ms|
    ensures k >= 0 ==> LastOnDay(ms, k, d)
    ensures k == -1 <==> forall j | 0 <= j < |ms| :: DayOf(ms[j].date) != d
    decreases |ms|
  {
    if ms == [] then -1
    else
      var n := |ms| - 1;
      if DayOf(ms[n].date) == d then n
      else
        var k := LastIndexOn(ms[..n], d);
        assert forall j | 0 <= j < n :: ms[..n][j] == ms[j];
        k
  }

  /** Last write wins: a day has an entry exactly when some mood falls on it, and
      the entry is the value of the last such mood. */
  lemma {:induction false} DayValuesLast(ms: seq<MoodRecord>, d: int)
    ensures d in DayValues(ms) <==> LastIndexOn(ms, d) >= 0
    ensures d in DayValues(ms) ==> DayValues(ms)[d] == ValueOf(ms[LastIndexOn(ms, d)])
    decreases |ms|
  {
    if ms != [] {
      var n := |ms| - 1;
      DayValuesLast(ms[..n], d);
    }
  }

  /** `ms[i]` falls on day `d` and no later mood of `ms` does. */
  predicate LastOnDay(ms: seq<MoodRecord>, i: int, d: int) {
    0 <= i < |ms| && DayOf(ms[i].date) == d
    && forall j | i < j < |ms| :: DayOf(ms[j].date) != d
  }

  /** The seven graph values: each day's value from the map, 0 for a day without one. */
  function Graph(dm: map<int, GraphValue>, start: int): (g: seq<GraphValue>)
    ensures |g| == WindowDays
    ensures forall i | 0 <= i < WindowDays :: g[i] == (if start + i in dm then dm[start + i] else Some(0))
  {
    seq(WindowDays, i requires 0 <= i < WindowDays => if start + i in dm then dm[start + i] else Some(0))
  }

  /** The seven dates: consecutive days from the window's first, so in increasing order. */
  function Dates(start: int): (ds: seq<int>)
    ensures |ds| == WindowDays
    ensures forall i | 0 <= i < WindowDays :: ds[i] == start + i
  {
    seq(WindowDays, i requires 0 <= i < WindowDays => start + i)
  }

  /** `GET /`: without a user id the request is refused with 400; otherwise the
      report with its constant texts and the seven-day graph. */
  function GetReport(records: seq<MoodRecord>, user: Option<UserId>, now: int): (r: Reply<Report>)
    ensures (user.None? || user.value == "") <==> r == Error(BadRequest, AuthErrorMessage)
    ensures r.Ok? ==> r.value.summary == Summary && r.value.suggestions == Suggestions
    ensures r.Ok? ==> |r.value.graphData| == WindowDays && |r.value.graphDates| == WindowDays
    ensures r.Ok? ==> forall i | 0 <= i < WindowDays :: r.value.graphDates[i] == WindowStart(now) + i
  {
    if user.None? || user.value == "" then Error(BadRequest, AuthErrorMessage)
    else
      var start := WindowStart(now);
      var dm := DayValues(WindowMoods(records, user.value, now));
      Ok(Report(Summary, Suggestions, Graph(dm, start), Dates(start)))
  }

  /** A day on which none of the user's moods falls has no entry. */
  lemma NoMoodNoEntry(ms: seq<MoodRecord>, records: seq<MoodRecord>, uid: UserId, d: int)
    requires forall m | m in ms :: m in records && m.userId == uid
    requires forall m | m in records && m.userId == uid :: DayOf(m.date) != d
    ensures d !in DayValues(ms)
  {
    forall j | 0 <= j < |ms| ensures DayOf(ms[j].date) != d {
      assert ms[j] in ms;
    }
    DayValuesLast(ms, d);
  }

  /** In date order, a day's entry is the value of the mood of that day at the
      highest index, which no other mood of the day postdates. */
  lemma EntryIsLatest(ms: seq<MoodRecord>, d: int, j0: int)
    requires forall i, j | 0 <= i < j < |ms| :: ms[i].date <= ms[j].date
    requires 0 <= j0 < |ms| && DayOf(ms[j0].date) == d
    ensures var k := LastIndexOn(ms, d);
            0 <= k < |ms| && d in DayValues(ms) && DayValues(ms)[d] == ValueOf(ms[k])
            && forall j | 0 <= j < |ms| && DayOf(ms[j].date) == d :: ms[j].date <= ms[k].date
  {
    DayValuesLast(ms, d);
    var k := LastIndexOn(ms, d);
    forall j | 0 <= j < |ms| && DayOf(ms[j].date) == d ensures ms[j].date <= ms[k].date {
      assert j <= k;
    }
  }

  /** The same, for a list holding exactly the user's moods of day `d` among others. */
  lemma UserEntryIsLatest(ms: seq<MoodRecord>, records: seq<MoodRecord>, uid: UserId, d: int)
    requires forall i, j | 0 <= i < j < |ms| :: ms[i].date <= ms[j].date
    requires forall m | m in ms :: m in records && m.userId == uid
    requires forall m | m in records && m.userId == uid && DayOf(m.date) == d :: m in ms
    requires exists m | m in records :: m.userId == uid && DayOf(m.date) == d
    ensures d in DayValues(ms)
    ensures exists m :: IsLatestOfDay(records, uid, d, m) && DayValues(ms)[d] == ValueOf(m)
  {
    var m0 :| m0 in records && m0.userId == uid && DayOf(m0.date) == d;
    assert m0 in ms;
    var j0 :| 0 <= j0 < |ms| && ms[j0] == m0;
    EntryIsLatest(ms, d, j0);
    var k := LastIndexOn(ms, d);
    var m := ms[k];
    assert m in ms;
    forall m' | m' in records && m'.userId == uid && DayOf(m'.date) == d
      ensures m'.date <= m.date
    {
      assert m' in ms;
      var j :| 0 <= j < |ms| && ms[j] == m';
    }
    assert IsLatestOfDay(records, uid, d, m);
  }

  /** The graph of a report is the zero-filled per-day map of the window's moods. */
  lemma ReportGraph(records: seq<MoodRecord>, uid: UserId, now: int)
    requires uid != ""
    ensures GetReport(records, Some(uid), now).value.graphData
         == Graph(DayValues(WindowMoods(records, uid, now)), WindowStart(now))
  {
  }

  /** A day of the report on which the caller recorded no mood in the window reads 0. */
  lemma EmptyDayIsZero(records: seq<MoodRecord>, uid: UserId, now: int, i: nat)
    requires uid != "" && i < WindowDays
    requires forall m | m in records && m.userId == uid :: DayOf(m.date) != WindowStart(now) + i
    ensures GetReport(records, Some(uid), now).value.graphData[i] == Some(0)
  {
    WindowDayEmpty(records, uid, now, i);
    ReportGraph(records, uid, now);
  }

  /** A day on which none of the user's moods falls is drawn as 0 from the window's map. */
  lemma WindowDayEmpty(records: seq<MoodRecord>, uid: UserId, now: int, i: nat)
    requires i < WindowDays
    requires forall m | m in records && m.userId == uid :: DayOf(m.date) != WindowStart(now) + i
    ensures Graph(DayValues(WindowMoods(records, uid, now)), WindowStart(now))[i] == Some(0)
  {
    var ms := WindowMoods(records, uid, now);
    NoMoodNoEntry(ms, records, uid, WindowStart(now) + i);
    GraphMissingDay(DayValues(ms), WindowStart(now), i);
  }

  /** A day without an entry in the map is drawn as 0. */
  lemma GraphMissingDay(dm: map<int, GraphValue>, start: int, i: nat)
    requires i < WindowDays && start + i !in dm
    ensures Graph(dm, start)[i] == Some(0)
  {
  }

  /** `m` is one of the user's moods on day `d`, and none of them is dated later. */
  predicate IsLatestOfDay(records: seq<MoodRecord>, uid: UserId, d: int, m: MoodRecord) {
    m in records && m.userId == uid && DayOf(m.date) == d
    && forall m' | m' in records && m'.userId == uid && DayOf(m'.date) == d :: m'.date <= m.date
  }

  /** The value shown for a day comes from one of the caller's moods on that day,
      and no mood of that day is dated later: the last write of the day wins. */
  lemma DayValueIsLatest(records: seq<MoodRecord>, uid: UserId, now: int, i: nat)
    requires uid != "" && i < WindowDays
    requires exists m | m in records :: m.userId == uid && DayOf(m.date) == WindowStart(now) + i
    ensures exists m :: IsLatestOfDay(records, uid, WindowStart(now) + i, m)
                     && GetReport(records, Some(uid), now).value.graphData[i] == ValueOf(m)
  {
    ReportGraph(records, uid, now);
    var d := WindowStart(now) + i;
    var ms := WindowMoods(records, uid, now);
    assert forall m | m in records && m.userId == uid && DayOf(m.date) == d :: m in ms;
    UserEntryIsLatest(ms, records, uid, d);
  }

  /** Only the caller's moods inside the window contribute: adding anyone else's
      mood, or one of the caller's dated before the window, leaves the report
      as it was. */
  lemma ReportIgnoresOutside(records: seq<MoodRecord>, m: MoodRecord, uid: UserId, now: int)
    requires uid != ""
    requires m.userId != uid || DayOf(m.date) < WindowStart(now)
    ensures GetReport(records + [m], Some(uid), now) == GetReport(records, Some(uid), now)
  {
    FilterAppend(records, m, (m: MoodRecord) => InWindow(uid, now, m));
    assert WindowMoods(records + [m], uid, now) == WindowMoods(records, uid, now);
  }
}
