/**
 * The study day (src/bunsho/services/study_day.py): the window from one rollover hour to the next,
 * in a time zone whose offset from UTC changes now and then.
 */
module StudyDay {
  import opened ReviewTypes

  const DAY: int := 24 * 3600 * 1_000_000

  /**
   * A zone: before `at[0]` its offset is `offsets[0]`, from `at[i]` on it is `offsets[i + 1]`.
   * A wall time is an instant plus the offset then in force.
   */
  datatype ZoneData = ZoneData(at: seq<Time>, offsets: seq<int>)

  type Zone = z: ZoneData | |z.offsets| == |z.at| + 1 witness ZoneData([], [0])

  /** A time of day. */
  type TimeOfDay = t: int | 0 <= t < DAY witness 0

  ghost predicate Spaced(z: Zone, span: int) {
    && (forall i :: 0 <= i < |z.offsets| ==> -span < z.offsets[i] < span)
    && (forall i, j :: 0 <= i < j < |z.at| ==> z.at[i] + 2 * span <= z.at[j])
  }

  /** Offsets of less than a day, and changes at least two days apart. */
  ghost predicate ValidZone(z: Zone) {
    Spaced(z, DAY)
  }

  function Max(a: int, b: int): int { if a < b then b else a }
  function Min(a: int, b: int): int { if a < b then a else b }

  /** The interval of wall times a change skips or repeats: from `GapStart` to `GapEnd`. */
  function GapStart(z: Zone, i: int): int
    requires 0 <= i < |z.at|
  {
    z.at[i] + Min(z.offsets[i], z.offsets[i + 1])
  }

  function GapEnd(z: Zone, i: int): int
    requires 0 <= i < |z.at|
  {
    z.at[i] + Max(z.offsets[i], z.offsets[i + 1])
  }

  /** How many changes came up to an instant. */
  function Regime(z: Zone, u: Time, n: nat): (k: nat)
    requires n <= |z.at| && (n < |z.at| ==> u < z.at[n])
    ensures k <= n && (k > 0 ==> z.at[k - 1] <= u) && (k < |z.at| ==> u < z.at[k])
  {
    if n == 0 || z.at[n - 1] <= u then n else Regime(z, u, n - 1)
  }

  function OffsetAt(z: Zone, u: Time): int
  {
    z.offsets[Regime(z, u, |z.at|)]
  }

  /** `astimezone(tz)`, without the fold. */
  function ToWall(z: Zone, u: Time): int
  {
    u + OffsetAt(z, u)
  }

  /** With fold=0 a skipped or repeated wall time still counts as before the change. */
  function WallRegime(z: Zone, w: int, n: nat): (k: nat)
    requires n <= |z.at| && (n < |z.at| ==> w < GapEnd(z, n))
    ensures k <= n && (k > 0 ==> GapEnd(z, k - 1) <= w) && (k < |z.at| ==> w < GapEnd(z, k))
  {
    if n == 0 || GapEnd(z, n - 1) <= w then n else WallRegime(z, w, n - 1)
  }

  /** `astimezone(UTC)` of a wall time with fold=0. */
  function ToUtc(z: Zone, w: int): Time
  {
    w - z.offsets[WallRegime(z, w, |z.at|)]
  }

  /** The rollover of a calendar day, as a wall time. */
  function RolloverWall(day: int, rollover: TimeOfDay): int {
    day * DAY + rollover
  }

  /** The calendar day whose rollover began the study day of a wall time: today's, or else yesterday's. */
  function StartDay(local: int, rollover: TimeOfDay): (day: int)
    ensures RolloverWall(day, rollover) <= local < RolloverWall(day + 1, rollover)
  {
    var today := local / DAY;
    if local < RolloverWall(today, rollover) then today - 1 else today
  }

  function DayOf(z: Zone, rollover: TimeOfDay, now: Time): int
  {
    StartDay(ToWall(z, now), rollover)
  }

  /** The instant of a day's rollover. */
  function RolloverUtc(z: Zone, rollover: TimeOfDay, day: int): Time
  {
    ToUtc(z, RolloverWall(day, rollover))
  }

  /** A day from its rollover to the next one. */
  function WindowOn(z: Zone, rollover: TimeOfDay, day: int): (Time, Time)
  {
    (RolloverUtc(z, rollover, day), RolloverUtc(z, rollover, day + 1))
  }

  function StudyWindow(z: Zone, rollover: TimeOfDay, now: Time): (Time, Time)
  {
    WindowOn(z, rollover, DayOf(z, rollover, now))
  }

  /** `study_date`: the calendar day of the window's start, read back in the zone. */
  function StudyDate(z: Zone, rollover: TimeOfDay, instant: Time): int
  {
    ToWall(z, StudyWindow(z, rollover, instant).0) / DAY
  }

  /** No clock change skips or repeats an interval that has a rollover strictly inside. */
  ghost predicate RolloverClear(z: Zone, rollover: TimeOfDay)
  {
    forall day {:trigger Settled(z, RolloverWall(day, rollover))} :: Settled(z, RolloverWall(day, rollover))
  }

  /** A wall time that is not strictly inside a skipped or repeated interval. */
  ghost predicate Settled(z: Zone, w: int)
  {
    forall i :: 0 <= i < |z.at| ==> Clear(z, i, w)
  }

  predicate Clear(z: Zone, i: int, w: int)
    requires 0 <= i < |z.at|
  {
    w <= GapStart(z, i) || GapEnd(z, i) <= w
  }

  ghost predicate InWindow(t: Time, w: (Time, Time)) {
    w.0 <= t < w.1
  }

  // ---- Instants are in the same order as settled wall times ----

  lemma ChangesApart(z: Zone, span: int, i: int, j: int)
    requires Spaced(z, span) && 0 <= i < |z.at| && 0 <= j < |z.at|
    ensures i < j ==> z.at[i] + 2 * span <= z.at[j]
  {
  }

  /** `k` changes came up to the instant `u`. */
  ghost predicate At(z: Zone, u: Time, k: int)
  {
    0 <= k <= |z.at| && (k > 0 ==> z.at[k - 1] <= u) && (k < |z.at| ==> u < z.at[k])
  }

  /** A wall time is read as after the first `r` changes. */
  ghost predicate ReadAs(z: Zone, w: int, r: int)
  {
    0 <= r <= |z.at| && (r > 0 ==> GapEnd(z, r - 1) <= w) && (r < |z.at| ==> w < GapEnd(z, r))
  }

  lemma BeforeByRegime(z: Zone, span: int, s: int, r: int, u: Time, k: int)
    requires Spaced(z, span) && Settled(z, s) && ReadAs(z, s, r) && At(z, u, k)
    ensures s - z.offsets[r] <= u || u + z.offsets[k] < s
  {
    if r < k {
      assert Clear(z, r, s);
      ChangesApart(z, span, r, k - 1);
    } else if k < r {
      ChangesApart(z, span, k, r - 1);
    }
  }

  lemma AfterByRegime(z: Zone, span: int, e: int, r: int, u: Time, k: int)
    requires Spaced(z, span) && Settled(z, e) && ReadAs(z, e, r) && At(z, u, k)
    ensures u < e - z.offsets[r] || e <= u + z.offsets[k]
  {
    if r < k {
      assert Clear(z, r, e);
      ChangesApart(z, span, r, k - 1);
    } else if k < r {
      ChangesApart(z, span, k, r - 1);
    }
  }

  lemma IncreasesByRegime(z: Zone, span: int, s: int, a: int, e: int, b: int)
    requires Spaced(z, span) && Settled(z, s) && ReadAs(z, s, a) && ReadAs(z, e, b)
    ensures s - z.offsets[a] <= e - z.offsets[b] || e < s
  {
    if a < b {
      assert Clear(z, a, s);
      ChangesApart(z, span, a, b - 1);
    } else if b < a {
      ChangesApart(z, span, b, a - 1);
    }
  }

  lemma InstantRead(z: Zone, u: Time) returns (k: int)
    ensures At(z, u, k) && ToWall(z, u) == u + z.offsets[k]
  {
    k := Regime(z, u, |z.at|);
  }

  lemma WallRead(z: Zone, w: int) returns (r: int)
    ensures ReadAs(z, w, r) && ToUtc(z, w) == w - z.offsets[r]
  {
    r := WallRegime(z, w, |z.at|);
  }

  lemma Enclosed(z: Zone, span: int, s: int, e: int, u: Time)
    requires Spaced(z, span) && Settled(z, s) && Settled(z, e) && s <= ToWall(z, u) < e
    ensures ToUtc(z, s) <= u < ToUtc(z, e)
  {
    var k := InstantRead(z, u);
    var r := WallRead(z, s);
    BeforeByRegime(z, span, s, r, u, k);
    r := WallRead(z, e);
    AfterByRegime(z, span, e, r, u, k);
  }

  lemma WallsIncrease(z: Zone, span: int, s: int, e: int)
    requires Spaced(z, span) && Settled(z, s)
    ensures s <= e ==> ToUtc(z, s) <= ToUtc(z, e)
  {
    var a := WallRead(z, s);
    var b := WallRead(z, e);
    IncreasesByRegime(z, span, s, a, e, b);
  }

  /** Intervals of wall times that do not overlap do not share an instant. */
  lemma OneIntervalOnly(z: Zone, span: int, v: Time, s: int, e: int, s': int, e': int)
    requires Spaced(z, span) && Settled(z, e) && Settled(z, e')
    requires ToUtc(z, s) <= v < ToUtc(z, e) && ToUtc(z, s') <= v < ToUtc(z, e')
    ensures s' < e && s < e'
  {
    WallsIncrease(z, span, e, s');
    WallsIncrease(z, span, e', s);
  }

  // ---- The windows ----

  lemma SameDay(a: int, b: int, rollover: TimeOfDay)
    requires RolloverWall(b, rollover) < RolloverWall(a + 1, rollover) &&
             RolloverWall(a, rollover) < RolloverWall(b + 1, rollover)
    ensures a == b
  {
  }

  lemma DaysInOrder(a: int, b: int, rollover: TimeOfDay)
    ensures RolloverWall(a + 1, rollover) <= RolloverWall(b + 1, rollover) ||
            RolloverWall(b + 1, rollover) <= RolloverWall(a, rollover)
  {
  }

  /** The study day of an instant, as a relation. */
  ghost predicate OnDay(z: Zone, rollover: TimeOfDay, u: Time, day: int)
  {
    RolloverWall(day, rollover) <= ToWall(z, u) < RolloverWall(day + 1, rollover)
  }

  lemma WindowOfDay(z: Zone, rollover: TimeOfDay, u: Time, day: int)
    requires ValidZone(z) && RolloverClear(z, rollover) && OnDay(z, rollover, u, day)
    ensures RolloverUtc(z, rollover, day) <= u < RolloverUtc(z, rollover, day + 1)
  {
    var s, e := RolloverWall(day, rollover), RolloverWall(day + 1, rollover);
    assert Settled(z, s) && Settled(z, e);
    Enclosed(z, DAY, s, e, u);
  }

  lemma OneDayOnly(z: Zone, rollover: TimeOfDay, v: Time, d: int, day: int)
    requires ValidZone(z) && RolloverClear(z, rollover) && OnDay(z, rollover, v, d)
    requires RolloverUtc(z, rollover, day) <= v < RolloverUtc(z, rollover, day + 1)
    ensures d == day
  {
    WindowOfDay(z, rollover, v, d);
    var s, e, s', e' := RolloverWall(day, rollover), RolloverWall(day + 1, rollover), RolloverWall(d, rollover),
        RolloverWall(d + 1, rollover);
    assert Settled(z, e) && Settled(z, e');
    OneIntervalOnly(z, DAY, v, s, e, s', e');
    SameDay(day, d, rollover);
  }

  lemma DayIsOn(z: Zone, rollover: TimeOfDay, u: Time)
    requires ValidZone(z)
    ensures OnDay(z, rollover, u, DayOf(z, rollover, u))
  {
  }

  lemma InOwnWindow(z: Zone, rollover: TimeOfDay, u: Time)
    requires ValidZone(z) && RolloverClear(z, rollover)
    ensures InWindow(u, StudyWindow(z, rollover, u))
  {
    var day := DayOf(z, rollover, u);
    DayIsOn(z, rollover, u);
    WindowOfDay(z, rollover, u, day);
    assert StudyWindow(z, rollover, u) == (RolloverUtc(z, rollover, day), RolloverUtc(z, rollover, day + 1));
  }

  /** The instants from one rollover to the next belong to the first one's day. */
  lemma DayIsWhereItFalls(z: Zone, rollover: TimeOfDay, v: Time, day: int)
    requires ValidZone(z) && RolloverClear(z, rollover)
    requires RolloverUtc(z, rollover, day) <= v < RolloverUtc(z, rollover, day + 1)
    ensures DayOf(z, rollover, v) == day
  {
    DayIsOn(z, rollover, v);
    OneDayOnly(z, rollover, v, DayOf(z, rollover, v), day);
  }

  /** All instants of a window compute the same window. */
  lemma SameWindow(z: Zone, rollover: TimeOfDay, u: Time, v: Time)
    requires ValidZone(z) && RolloverClear(z, rollover)
    requires InWindow(v, StudyWindow(z, rollover, u))
    ensures StudyWindow(z, rollover, v) == StudyWindow(z, rollover, u)
  {
    DayIsWhereItFalls(z, rollover, v, DayOf(z, rollover, u));
  }

  lemma EndStartsNext(z: Zone, span: int, e: int, s: int, e': int)
    requires Spaced(z, span) && Settled(z, e) && Settled(z, s) && Settled(z, e')
    requires ToUtc(z, s) <= ToUtc(z, e) < ToUtc(z, e') && (e' <= e || e <= s)
    ensures ToUtc(z, s) == ToUtc(z, e)
  {
    WallsIncrease(z, span, e', e);
    WallsIncrease(z, span, e, s);
  }

  lemma DayAfter(z: Zone, rollover: TimeOfDay, day: int, next: int)
    requires ValidZone(z) && RolloverClear(z, rollover)
    requires RolloverUtc(z, rollover, next) <= RolloverUtc(z, rollover, day + 1) < RolloverUtc(z, rollover, next + 1)
    ensures RolloverUtc(z, rollover, next) == RolloverUtc(z, rollover, day + 1)
  {
    DaysInOrder(next, day, rollover);
    EndStartsNext(z, DAY, RolloverWall(day + 1, rollover), RolloverWall(next, rollover),
        RolloverWall(next + 1, rollover));
  }

  lemma NextOn(z: Zone, rollover: TimeOfDay, day: int, end: Time, next: int)
    requires ValidZone(z) && RolloverClear(z, rollover)
    requires end == RolloverUtc(z, rollover, day + 1) && OnDay(z, rollover, end, next)
    ensures RolloverUtc(z, rollover, next) == end
  {
    WindowOfDay(z, rollover, end, next);
    DayAfter(z, rollover, day, next);
  }

  /** The window after a window starts where it ends, so the windows tile time. */
  lemma NextWindowFollows(z: Zone, rollover: TimeOfDay, u: Time)
    requires ValidZone(z) && RolloverClear(z, rollover)
    ensures var end := StudyWindow(z, rollover, u).1; StudyWindow(z, rollover, end).0 == end
  {
    var end := StudyWindow(z, rollover, u).1;
    DayIsOn(z, rollover, end);
    NextOn(z, rollover, DayOf(z, rollover, u), end, DayOf(z, rollover, end));
  }

  // ---- The windows begin at the rollover ----

  /** The window of an instant whose clock shows a time from one rollover to the next is between those rollovers. */
  lemma WindowIsOfDay(z: Zone, rollover: TimeOfDay, u: Time, day: int)
    requires day * DAY + rollover <= ToWall(z, u) < (day + 1) * DAY + rollover
    ensures StudyWindow(z, rollover, u) == (ToUtc(z, day * DAY + rollover), ToUtc(z, (day + 1) * DAY + rollover))
  {
    SameDay(DayOf(z, rollover, u), day, rollover);
  }

  /** A wall time that some instant shows: the first such instant, as with fold=0. */
  lemma FirstOccurrence(z: Zone, u: Time)
    requires ValidZone(z)
    ensures var w := ToWall(z, u); ToUtc(z, w) <= u && ToWall(z, ToUtc(z, w)) == w
  {
    var k := InstantRead(z, u);
    var r := WallRead(z, ToWall(z, u));
    EarliestByRegime(z, DAY, u, k, r);
    var l := InstantRead(z, ToUtc(z, ToWall(z, u)));
    ShowsByRegime(z, DAY, u, k, r, l);
  }

  lemma EarliestByRegime(z: Zone, span: int, u: Time, k: int, r: int)
    requires Spaced(z, span) && At(z, u, k) && ReadAs(z, u + z.offsets[k], r)
    ensures u + z.offsets[k] - z.offsets[r] <= u && (r == k || (r + 1 == k && z.offsets[k] < z.offsets[r]))
  {
    if r < k {
      ChangesApart(z, span, r, k - 1);
    } else if k < r {
      ChangesApart(z, span, k, r - 1);
    }
  }

  lemma ShowsByRegime(z: Zone, span: int, u: Time, k: int, r: int, l: int)
    requires Spaced(z, span) && At(z, u, k) && ReadAs(z, u + z.offsets[k], r)
    requires At(z, u + z.offsets[k] - z.offsets[r], l)
    ensures l == r
  {
    EarliestByRegime(z, span, u, k, r);
    if l < r {
      ChangesApart(z, span, l, r - 1);
    } else if r < l {
      ChangesApart(z, span, r, l - 1);
    }
  }

  /** A skipped wall time is read with the offset before the change, so as an instant after it. */
  lemma SkippedRead(z: Zone, i: nat, w: int)
    requires ValidZone(z) && i < |z.at| && z.offsets[i] < z.offsets[i + 1] && GapStart(z, i) < w < GapEnd(z, i)
    ensures ToUtc(z, w) == z.at[i] + (w - (z.at[i] + z.offsets[i]))
  {
    RegimeInside(z, DAY, i, w);
  }

  // ---- When a rollover is skipped or repeated ----

  ghost predicate EveryInstantInItsWindow(z: Zone, rollover: TimeOfDay)
  {
    forall u :: InWindow(u, StudyWindow(z, rollover, u))
  }

  lemma RegimeAtChange(z: Zone, span: int, i: nat)
    requires Spaced(z, span) && i < |z.at|
    ensures ToWall(z, z.at[i]) == z.at[i] + z.offsets[i + 1]
  {
    var k := Regime(z, z.at[i], |z.at|);
    if k <= i {
      ChangesApart(z, span, k, i);
    } else {
      ChangesApart(z, span, i, k - 1);
    }
  }

  lemma RegimeInside(z: Zone, span: int, i: nat, w: int)
    requires Spaced(z, span) && i < |z.at| && GapStart(z, i) < w < GapEnd(z, i)
    ensures ToUtc(z, w) == w - z.offsets[i]
  {
    var r := WallRegime(z, w, |z.at|);
    if r < i {
      ChangesApart(z, span, r, i);
    } else if i < r {
      ChangesApart(z, span, i, r - 1);
    }
  }

  lemma ChangeOutside(z: Zone, span: int, i: nat, w: int, s: int, e: int)
    requires Spaced(z, span) && i < |z.at| && GapStart(z, i) < w < GapEnd(z, i)
    requires s <= ToWall(z, z.at[i]) < e && (s == w || e == w)
    ensures !(ToUtc(z, s) <= z.at[i] < ToUtc(z, e))
  {
    RegimeAtChange(z, span, i);
    RegimeInside(z, span, i, w);
  }

  lemma NearestDays(local: int, d: int, day: int, rollover: TimeOfDay)
    requires RolloverWall(d, rollover) <= local < RolloverWall(d + 1, rollover)
    requires RolloverWall(day, rollover) - DAY <= local < RolloverWall(day, rollover) + DAY
    ensures d == day || d + 1 == day
  {
  }

  /** The wall time at a change is one end of the interval it skips or repeats. */
  lemma ChangeNear(z: Zone, span: int, i: nat, w: int)
    requires Spaced(z, span) && i < |z.at| && GapStart(z, i) < w < GapEnd(z, i) <= GapStart(z, i) + DAY
    ensures w - DAY <= ToWall(z, z.at[i]) < w + DAY
  {
    RegimeAtChange(z, span, i);
  }

  lemma OneOfTwo(d: int, day: int, rollover: TimeOfDay)
    requires d == day || d + 1 == day
    ensures RolloverWall(day, rollover) == RolloverWall(d, rollover) ||
            RolloverWall(day, rollover) == RolloverWall(d + 1, rollover)
  {
  }

  lemma ChangeInNoDay(z: Zone, rollover: TimeOfDay, i: nat, day: int, d: int)
    requires ValidZone(z) && i < |z.at| && OnDay(z, rollover, z.at[i], d)
    requires GapStart(z, i) < RolloverWall(day, rollover) < GapEnd(z, i) <= GapStart(z, i) + DAY
    ensures !InWindow(z.at[i], WindowOn(z, rollover, d))
  {
    var w, s, e := RolloverWall(day, rollover), RolloverWall(d, rollover), RolloverWall(d + 1, rollover);
    ChangeNear(z, DAY, i, w);
    NearestDays(ToWall(z, z.at[i]), d, day, rollover);
    OneOfTwo(d, day, rollover);
    ChangeOutside(z, DAY, i, w, s, e);
  }

  /**
   * With a rollover strictly inside a skipped or repeated interval, the instant of the change is in no window of its
   * own.
   */
  lemma RolloverInsideBreaks(z: Zone, rollover: TimeOfDay, i: nat, day: int)
    requires ValidZone(z) && i < |z.at|
    requires GapStart(z, i) < RolloverWall(day, rollover) < GapEnd(z, i) <= GapStart(z, i) + DAY
    ensures !InWindow(z.at[i], StudyWindow(z, rollover, z.at[i]))
  {
    DayIsOn(z, rollover, z.at[i]);
    ChangeInNoDay(z, rollover, i, day, DayOf(z, rollover, z.at[i]));
  }

  /** For clocks that move by at most a day, the windows are sound exactly when no rollover is skipped or repeated. */
  lemma WindowsSoundIff(z: Zone, rollover: TimeOfDay)
    requires ValidZone(z)
    requires forall i :: 0 <= i < |z.at| ==> GapEnd(z, i) <= GapStart(z, i) + DAY
    ensures EveryInstantInItsWindow(z, rollover) <==> RolloverClear(z, rollover)
  {
    if RolloverClear(z, rollover) {
      forall u ensures InWindow(u, StudyWindow(z, rollover, u)) { InOwnWindow(z, rollover, u); }
    } else {
      var day :| !Settled(z, RolloverWall(day, rollover));
      var i :| 0 <= i < |z.at| && !Clear(z, i, RolloverWall(day, rollover));
      RolloverInsideBreaks(z, rollover, i, day);
    }
  }

  // ---- The calendar date of a study day ----

  /**
   * If a change skips an interval that begins right at a day's rollover, the interval ends on that calendar day
   * or takes in the whole study day.
   */
  predicate SkipKeepsDate(z: Zone, rollover: TimeOfDay, i: int, day: int)
    requires 0 <= i < |z.at|
  {
    z.offsets[i] < z.offsets[i + 1] && GapStart(z, i) == RolloverWall(day, rollover) ==>
      GapEnd(z, i) < (day + 1) * DAY || RolloverWall(day + 1, rollover) <= GapEnd(z, i)
  }

  ghost predicate DatesKept(z: Zone, rollover: TimeOfDay)
  {
    forall i, day :: 0 <= i < |z.at| ==> SkipKeepsDate(z, rollover, i, day)
  }

  /** Reading a settled wall time back gives it again, unless it is the first one skipped by a change. */
  lemma ReadBack(z: Zone, span: int, w: int, r: int, k: int)
    requires Spaced(z, span) && Settled(z, w) && ReadAs(z, w, r) && At(z, w - z.offsets[r], k)
    ensures k == r || (k == r + 1 && z.offsets[r] < z.offsets[k] && w == GapStart(z, r) &&
            w - z.offsets[r] + z.offsets[k] == GapEnd(z, r))
  {
    if r < k {
      assert Clear(z, r, w);
      ChangesApart(z, span, r, k - 1);
    } else if k < r {
      ChangesApart(z, span, k, r - 1);
    }
  }

  /** No instant reads as a skipped wall time. */
  lemma SkippedIsUnread(z: Zone, span: int, i: int, u: Time, k: int)
    requires Spaced(z, span) && 0 <= i < |z.at| && z.offsets[i] < z.offsets[i + 1] && At(z, u, k)
    ensures u + z.offsets[k] < GapStart(z, i) || GapEnd(z, i) <= u + z.offsets[k]
  {
    if k <= i {
      ChangesApart(z, span, k, i);
    } else {
      ChangesApart(z, span, i, k - 1);
    }
  }

  lemma DateOfRollover(z: Zone, rollover: TimeOfDay, day: int, u: Time)
    requires ValidZone(z) && RolloverClear(z, rollover) && DatesKept(z, rollover) && OnDay(z, rollover, u, day)
    ensures day * DAY <= ToWall(z, RolloverUtc(z, rollover, day)) < (day + 1) * DAY
  {
    var w := RolloverWall(day, rollover);
    assert Settled(z, w);
    var r := WallRead(z, w);
    var k := InstantRead(z, RolloverUtc(z, rollover, day));
    ReadBack(z, DAY, w, r, k);
    if k != r {
      assert SkipKeepsDate(z, rollover, r, day);
      var l := InstantRead(z, u);
      SkippedIsUnread(z, DAY, r, u, l);
    }
  }

  lemma DateOfStart(z: Zone, rollover: TimeOfDay, day: int, u: Time)
    requires ValidZone(z) && RolloverClear(z, rollover) && DatesKept(z, rollover) && OnDay(z, rollover, u, day)
    ensures ToWall(z, RolloverUtc(z, rollover, day)) / DAY == day
  {
    DateOfRollover(z, rollover, day, u);
    QuotientIs(ToWall(z, RolloverUtc(z, rollover, day)), day);
  }

  lemma QuotientIs(w: int, day: int)
    requires day * DAY <= w < (day + 1) * DAY
    ensures w / DAY == day
  {
  }

  /** `study_date` names the day whose rollover began the window, so different windows have different dates. */
  lemma StudyDateIsDay(z: Zone, rollover: TimeOfDay, u: Time)
    requires ValidZone(z) && RolloverClear(z, rollover) && DatesKept(z, rollover)
    ensures StudyDate(z, rollover, u) == DayOf(z, rollover, u)
  {
    DayIsOn(z, rollover, u);
    DateOfStart(z, rollover, DayOf(z, rollover, u), u);
  }

  lemma SameDayIff(z: Zone, rollover: TimeOfDay, v: Time, d: int, day: int)
    requires ValidZone(z) && RolloverClear(z, rollover) && OnDay(z, rollover, v, d)
    ensures d == day <==> InWindow(v, WindowOn(z, rollover, day))
  {
    WindowOfDay(z, rollover, v, d);
    if RolloverUtc(z, rollover, day) <= v < RolloverUtc(z, rollover, day + 1) {
      OneDayOnly(z, rollover, v, d, day);
    }
  }

  lemma SameDaySameWindow(z: Zone, rollover: TimeOfDay, u: Time, v: Time)
    requires ValidZone(z) && RolloverClear(z, rollover)
    ensures DayOf(z, rollover, v) == DayOf(z, rollover, u) <==> InWindow(v, StudyWindow(z, rollover, u))
  {
    DayIsOn(z, rollover, v);
    SameDayIff(z, rollover, v, DayOf(z, rollover, v), DayOf(z, rollover, u));
  }

  /** Two instants have the same study date exactly when one is in the other's window. */
  lemma SameDateSameWindow(z: Zone, rollover: TimeOfDay, u: Time, v: Time)
    requires ValidZone(z) && RolloverClear(z, rollover) && DatesKept(z, rollover)
    ensures StudyDate(z, rollover, v) == StudyDate(z, rollover, u) <==> InWindow(v, StudyWindow(z, rollover, u))
  {
    StudyDateIsDay(z, rollover, u);
    StudyDateIsDay(z, rollover, v);
    SameDaySameWindow(z, rollover, u, v);
  }

  lemma SkipReadAs(z: Zone, span: int, i: nat, r: int)
    requires Spaced(z, span) && i < |z.at| && z.offsets[i] < z.offsets[i + 1] && ReadAs(z, GapStart(z, i), r)
    ensures r == i
  {
    if r < i {
      ChangesApart(z, span, r, i);
    } else if i < r {
      ChangesApart(z, span, i, r - 1);
    }
  }

  /** The first skipped wall time is read as the instant of the change. */
  lemma SkipBegins(z: Zone, span: int, i: nat)
    requires Spaced(z, span) && i < |z.at| && z.offsets[i] < z.offsets[i + 1]
    ensures ToUtc(z, GapStart(z, i)) == z.at[i] && ToWall(z, z.at[i]) == GapEnd(z, i)
  {
    RegimeAtChange(z, span, i);
    var r := WallRead(z, GapStart(z, i));
    SkipReadAs(z, span, i, r);
  }

  lemma OnDayIsDayOf(z: Zone, rollover: TimeOfDay, u: Time, day: int)
    requires OnDay(z, rollover, u, day)
    ensures DayOf(z, rollover, u) == day
  {
    SameDay(DayOf(z, rollover, u), day, rollover);
  }

  /** Date and window of an instant whose day begins, read back, at a wall time of date `date`. */
  lemma DateWhen(z: Zone, rollover: TimeOfDay, u: Time, day: int, date: int)
    requires OnDay(z, rollover, u, day)
    requires date * DAY <= ToWall(z, RolloverUtc(z, rollover, day)) < (date + 1) * DAY
    ensures StudyDate(z, rollover, u) == date && StudyWindow(z, rollover, u) == WindowOn(z, rollover, day)
  {
    OnDayIsDayOf(z, rollover, u, day);
    QuotientIs(ToWall(z, RolloverUtc(z, rollover, day)), date);
  }

  lemma SkipEndsNextDay(z: Zone, rollover: TimeOfDay, i: nat, day: int)
    requires ValidZone(z) && i < |z.at| && !SkipKeepsDate(z, rollover, i, day)
    ensures RolloverUtc(z, rollover, day) == z.at[i] && OnDay(z, rollover, z.at[i], day)
    ensures (day + 1) * DAY <= ToWall(z, z.at[i]) < (day + 2) * DAY
  {
    SkipBegins(z, DAY, i);
  }

  /** A skip that ends past midnight but within the study day gives that day the next one's date. */
  lemma SkipMovesDate(z: Zone, rollover: TimeOfDay, i: nat, day: int)
    requires ValidZone(z) && i < |z.at| && !SkipKeepsDate(z, rollover, i, day)
    ensures DayOf(z, rollover, z.at[i]) == day && StudyDate(z, rollover, z.at[i]) == day + 1
    ensures StudyWindow(z, rollover, z.at[i]) == WindowOn(z, rollover, day)
  {
    SkipEndsNextDay(z, rollover, i, day);
    OnDayIsDayOf(z, rollover, z.at[i], day);
    DateWhen(z, rollover, z.at[i], day, day + 1);
  }

  lemma OneSkipOnly(z: Zone, span: int, i: int, r: int)
    requires Spaced(z, span) && 0 <= i < |z.at| && 0 <= r < |z.at|
    requires z.offsets[i] < z.offsets[i + 1] && z.offsets[r] < z.offsets[r + 1]
    ensures GapStart(z, r) <= GapStart(z, i) || GapStart(z, i) + 2 * span <= GapStart(z, r)
  {
    ChangesApart(z, span, i, r);
    ChangesApart(z, span, r, i);
    if i + 1 < r {
      ChangesApart(z, span, i, i + 1);
      ChangesApart(z, span, i + 1, r);
    }
  }

  lemma NoSecondSkip(z: Zone, rollover: TimeOfDay, i: int, day: int, r: int)
    requires ValidZone(z) && 0 <= i < |z.at| && !SkipKeepsDate(z, rollover, i, day) && 0 <= r < |z.at|
    ensures !(z.offsets[r] < z.offsets[r + 1] && GapStart(z, r) == RolloverWall(day + 1, rollover))
  {
    if z.offsets[r] < z.offsets[r + 1] {
      OneSkipOnly(z, DAY, i, r);
    }
  }

  /** The next rollover after such a skip is read back as itself. */
  lemma NextRolloverKept(z: Zone, rollover: TimeOfDay, i: nat, day: int)
    requires ValidZone(z) && RolloverClear(z, rollover) && i < |z.at| && !SkipKeepsDate(z, rollover, i, day)
    ensures ToWall(z, RolloverUtc(z, rollover, day + 1)) == RolloverWall(day + 1, rollover)
  {
    var w := RolloverWall(day + 1, rollover);
    assert Settled(z, w);
    var r := WallRead(z, w);
    var k := InstantRead(z, RolloverUtc(z, rollover, day + 1));
    ReadBack(z, DAY, w, r, k);
    if k != r {
      NoSecondSkip(z, rollover, i, day, r);
    }
  }

  /** Among clear rollovers, `study_date` names the day of every instant exactly when no skip moves a date. */
  lemma StudyDateIsDayIff(z: Zone, rollover: TimeOfDay)
    requires ValidZone(z) && RolloverClear(z, rollover)
    ensures (forall u :: StudyDate(z, rollover, u) == DayOf(z, rollover, u)) <==> DatesKept(z, rollover)
  {
    if DatesKept(z, rollover) {
      forall u ensures StudyDate(z, rollover, u) == DayOf(z, rollover, u) { StudyDateIsDay(z, rollover, u); }
    } else {
      var i, day :| 0 <= i < |z.at| && !SkipKeepsDate(z, rollover, i, day);
      SkipMovesDate(z, rollover, i, day);
    }
  }

  /** Dates and windows correspond for all instants. */
  ghost predicate DatesAreWindows(z: Zone, rollover: TimeOfDay)
  {
    forall u, v {:trigger StudyDate(z, rollover, v), StudyDate(z, rollover, u)} ::
      StudyDate(z, rollover, v) == StudyDate(z, rollover, u) <==> InWindow(v, StudyWindow(z, rollover, u))
  }

  lemma RolloverIsOn(z: Zone, rollover: TimeOfDay, v: Time, day: int)
    requires ToWall(z, v) == RolloverWall(day, rollover)
    ensures OnDay(z, rollover, v, day) && day * DAY <= ToWall(z, v) < (day + 1) * DAY
  {
  }

  lemma NextRolloverDate(z: Zone, rollover: TimeOfDay, i: nat, day: int, v: Time)
    requires ValidZone(z) && RolloverClear(z, rollover) && i < |z.at| && !SkipKeepsDate(z, rollover, i, day)
    requires v == RolloverUtc(z, rollover, day + 1)
    ensures StudyDate(z, rollover, v) == day + 1
  {
    NextRolloverKept(z, rollover, i, day);
    RolloverIsOn(z, rollover, v, day + 1);
    DateWhen(z, rollover, v, day + 1, day + 1);
  }

  lemma EndIsOutside(z: Zone, rollover: TimeOfDay, day: int, w: (Time, Time), v: Time)
    requires w == WindowOn(z, rollover, day) && v == RolloverUtc(z, rollover, day + 1)
    ensures !InWindow(v, w)
  {
  }

  /** Where a skip moves a date, two windows share one. */
  lemma SkipSharesDate(z: Zone, rollover: TimeOfDay, i: nat, day: int, u: Time, v: Time)
    requires ValidZone(z) && RolloverClear(z, rollover) && i < |z.at| && !SkipKeepsDate(z, rollover, i, day)
    requires u == z.at[i] && v == RolloverUtc(z, rollover, day + 1)
    ensures StudyDate(z, rollover, v) == StudyDate(z, rollover, u) && !InWindow(v, StudyWindow(z, rollover, u))
  {
    SkipMovesDate(z, rollover, i, day);
    NextRolloverDate(z, rollover, i, day, v);
    EndIsOutside(z, rollover, day, StudyWindow(z, rollover, u), v);
  }

  lemma SameDateSameWindowIff(z: Zone, rollover: TimeOfDay)
    requires ValidZone(z) && RolloverClear(z, rollover)
    ensures DatesAreWindows(z, rollover) <==> DatesKept(z, rollover)
  {
    if DatesKept(z, rollover) {
      forall u, v
        ensures StudyDate(z, rollover, v) == StudyDate(z, rollover, u) <==> InWindow(v, StudyWindow(z, rollover, u))
      {
        SameDateSameWindow(z, rollover, u, v);
      }
    } else {
      var i, day :| 0 <= i < |z.at| && !SkipKeepsDate(z, rollover, i, day);
      SkipSharesDate(z, rollover, i, day, z.at[i], RolloverUtc(z, rollover, day + 1));
    }
  }

  // ---- A zone that skips a whole day ----

  const HOUR: int := 3600 * 1_000_000

  /** At midnight the clock goes from ten hours behind UTC to fourteen ahead, as in Samoa in 2011. */
  const DAY_SKIPPED: Zone := ZoneData([10 * HOUR], [-10 * HOUR, 14 * HOUR])

  lemma SkippedDayWall(day: int, rollover: TimeOfDay)
    ensures rollover == 0 ==> RolloverWall(day, rollover) <= 0 || DAY <= RolloverWall(day, rollover)
    ensures RolloverWall(day, rollover) == 0 ==> day == 0
  {
  }

  /** With rollover at midnight the skipped day does no harm; with a later one its change lies in no window. */
  lemma DaySkipped(rollover: TimeOfDay)
    ensures ValidZone(DAY_SKIPPED)
    ensures rollover == 0 ==> RolloverClear(DAY_SKIPPED, rollover) && DatesAreWindows(DAY_SKIPPED, rollover)
    ensures rollover != 0 ==> !InWindow(10 * HOUR, StudyWindow(DAY_SKIPPED, rollover, 10 * HOUR))
  {
    var z := DAY_SKIPPED;
    assert GapStart(z, 0) == 0 && GapEnd(z, 0) == DAY;
    if rollover == 0 {
      forall day ensures Settled(z, RolloverWall(day, rollover)) { SkippedDayWall(day, rollover); }
      forall i, day | 0 <= i < |z.at| ensures SkipKeepsDate(z, rollover, i, day) { SkippedDayWall(day, rollover); }
      SameDateSameWindowIff(z, rollover);
    } else {
      RolloverInsideBreaks(z, rollover, 0, 0);
    }
  }

  // ---- A zone whose clock skips the last hour of a day ----

  /** From 23:00 the clock goes to midnight, as in Nuuk since 2024. */
  const LAST_HOUR_SKIPPED: Zone := ZoneData([HOUR], [-2 * HOUR, -HOUR])

  lemma ElevenOClock(day: int)
    ensures RolloverWall(day, 23 * HOUR) <= -HOUR || 0 <= RolloverWall(day, 23 * HOUR)
    ensures RolloverWall(-1, 23 * HOUR) == -HOUR
  {
  }

  lemma LastHourClear()
    ensures ValidZone(LAST_HOUR_SKIPPED) && RolloverClear(LAST_HOUR_SKIPPED, 23 * HOUR)
    ensures !SkipKeepsDate(LAST_HOUR_SKIPPED, 23 * HOUR, 0, -1)
  {
    var z := LAST_HOUR_SKIPPED;
    assert GapStart(z, 0) == -HOUR && GapEnd(z, 0) == 0;
    forall day ensures Settled(z, RolloverWall(day, 23 * HOUR)) { ElevenOClock(day); }
    ElevenOClock(-1);
  }

  /** With rollover at 23:00 the windows of this zone are sound, and yet two of them share a date. */
  lemma LastHourSkipped()
    ensures ValidZone(LAST_HOUR_SKIPPED) && RolloverClear(LAST_HOUR_SKIPPED, 23 * HOUR)
    ensures EveryInstantInItsWindow(LAST_HOUR_SKIPPED, 23 * HOUR)
    ensures !DatesAreWindows(LAST_HOUR_SKIPPED, 23 * HOUR)
    ensures StudyDate(LAST_HOUR_SKIPPED, 23 * HOUR, HOUR) == DayOf(LAST_HOUR_SKIPPED, 23 * HOUR, HOUR) + 1
  {
    LastHourClear();
    SkipMovesDate(LAST_HOUR_SKIPPED, 23 * HOUR, 0, -1);
    SameDateSameWindowIff(LAST_HOUR_SKIPPED, 23 * HOUR);
    forall u ensures InWindow(u, StudyWindow(LAST_HOUR_SKIPPED, 23 * HOUR, u)) {
      InOwnWindow(LAST_HOUR_SKIPPED, 23 * HOUR, u);
    }
  }
}
