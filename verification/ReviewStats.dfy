/** The counting loops of the statistics page (src/bunsho/services/review_stats.py). */
module ReviewStats {
  import opened ReviewTypes
  import opened StudyDay

  const RETENTION_DAYS: nat := 30

  datatype ReviewRecord = ReviewRecord(reviewedAt: Time, grade: Grade, stateBefore: SchedState)

  /** `reviews_between`: the reviews of a half-open interval. */
  function Between(log: seq<ReviewRecord>, from: Time, until: Time): seq<ReviewRecord> {
    if log == [] then []
    else
      var r := log[|log| - 1];
      Between(log[..|log| - 1], from, until) + if from <= r.reviewedAt < until then [r] else []
  }

  function InInterval(log: seq<ReviewRecord>, from: Time, until: Time): nat {
    if log == [] then 0
    else InInterval(log[..|log| - 1], from, until) + if from <= log[|log| - 1].reviewedAt < until then 1 else 0
  }

  /** Reviews on one date, dates being given by `date`. */
  function OnDate(log: seq<ReviewRecord>, date: Time -> int, d: int): nat {
    if log == [] then 0
    else OnDate(log[..|log| - 1], date, d) + if date(log[|log| - 1].reviewedAt) == d then 1 else 0
  }

  /** Reviews of cards in the Review state on a range of dates; with `passed`, only the passed ones. */
  function Recalled(log: seq<ReviewRecord>, date: Time -> int, first: int, last: int, passed: bool): nat {
    if log == [] then 0
    else
      var r := log[|log| - 1];
      Recalled(log[..|log| - 1], date, first, last, passed)
      + if first <= date(r.reviewedAt) <= last && r.stateBefore == Review && (passed ==> r.grade != Again) then 1 else 0
  }

  /** The loop over the records: the count of each of the last 30 dates, and the retention counts. */
  method CountRecords(records: seq<ReviewRecord>, date: Time -> int, today: int)
    returns (daily: map<int, nat>, answered: nat, passed: nat)
    ensures forall d :: d in daily <==> today - RETENTION_DAYS < d <= today
    ensures forall d :: d in daily ==> daily[d] == OnDate(records, date, d)
    ensures answered == Recalled(records, date, today - RETENTION_DAYS + 1, today, false)
    ensures passed == Recalled(records, date, today - RETENTION_DAYS + 1, today, true)
  {
    daily := map[];
    for offset := 0 to RETENTION_DAYS
      invariant forall d :: d in daily <==> today - offset < d <= today
      invariant forall d :: d in daily ==> daily[d] == 0
    {
      daily := daily[today - offset := 0];
    }
    answered, passed := 0, 0;
    for i := 0 to |records|
      invariant forall d :: d in daily <==> today - RETENTION_DAYS < d <= today
      invariant forall d :: d in daily ==> daily[d] == OnDate(records[..i], date, d)
      invariant answered == Recalled(records[..i], date, today - RETENTION_DAYS + 1, today, false)
      invariant passed == Recalled(records[..i], date, today - RETENTION_DAYS + 1, today, true)
    {
      assert records[..i + 1][..i] == records[..i];
      var record := records[i];
      var day := date(record.reviewedAt);
      if day !in daily {
        continue;
      }
      daily := daily[day := daily[day] + 1];
      if record.stateBefore == Review {
        answered := answered + 1;
        if record.grade != Again {
          passed := passed + 1;
        }
      }
    }
    assert records[..|records|] == records;
  }

  // ---- Reading only part of the log loses nothing ----

  lemma {:induction false} RangeKeepsDate(log: seq<ReviewRecord>, date: Time -> int, from: Time, until: Time, d: int)
    requires forall v :: date(v) == d ==> from <= v < until
    ensures OnDate(Between(log, from, until), date, d) == OnDate(log, date, d)
  {
    if log != [] {
      var n := |log| - 1;
      RangeKeepsDate(log[..n], date, from, until, d);
      var earlier, r := Between(log[..n], from, until), log[n];
      assert (earlier + [r])[..|earlier|] == earlier && earlier + [] == earlier;
      var day := date(r.reviewedAt);
    }
  }

  lemma {:induction false} RangeKeepsRecalled(log: seq<ReviewRecord>, date: Time -> int, from: Time, until: Time,
                                              first: int, last: int, passed: bool)
    requires forall v :: first <= date(v) <= last ==> from <= v < until
    ensures Recalled(Between(log, from, until), date, first, last, passed) == Recalled(log, date, first, last, passed)
  {
    if log != [] {
      var n := |log| - 1;
      RangeKeepsRecalled(log[..n], date, from, until, first, last, passed);
      if from <= log[n].reviewedAt < until {
        RecalledAppend(Between(log[..n], from, until), log[n], date, first, last, passed);
      } else {
        assert Between(log, from, until) == Between(log[..n], from, until) + [] == Between(log[..n], from, until);
      }
    }
  }

  lemma {:induction false} RecalledAppend(log: seq<ReviewRecord>, r: ReviewRecord, date: Time -> int, first: int,
                                          last: int, passed: bool)
    ensures Recalled(log + [r], date, first, last, passed) == Recalled(log, date, first, last, passed)
            + if first <= date(r.reviewedAt) <= last && r.stateBefore == Review && (passed ==> r.grade != Again)
              then 1 else 0
  {
    assert (log + [r])[..|log|] == log;
  }

  lemma {:induction false} DateIsInterval(log: seq<ReviewRecord>, date: Time -> int, from: Time, until: Time, d: int)
    requires forall v :: date(v) == d <==> from <= v < until
    ensures OnDate(log, date, d) == InInterval(log, from, until)
  {
    if log != [] {
      DateIsInterval(log[..|log| - 1], date, from, until, d);
    }
  }

  // ---- The range that is read covers the 30 days ----

  /** The part of the log that `summary` reads: from a month before today's window to its end. */
  function ReadRange(w: (Time, Time)): (Time, Time) {
    (w.0 - (RETENTION_DAYS + 1) * DAY, w.1)
  }

  lemma RolloverNear(z: Zone, rollover: TimeOfDay, day: int)
    requires ValidZone(z)
    ensures RolloverWall(day, rollover) - DAY < RolloverUtc(z, rollover, day) < RolloverWall(day, rollover) + DAY
  {
    var r := WallRead(z, RolloverWall(day, rollover));
  }

  lemma DaysBack(d: int, today: int, rollover: TimeOfDay)
    requires today - 30 < d <= today
    ensures RolloverWall(today, rollover) - 29 * DAY <= RolloverWall(d, rollover)
    ensures RolloverWall(d + 1, rollover) <= RolloverWall(today + 1, rollover)
  {
  }

  lemma RangeCoversDay(z: Zone, rollover: TimeOfDay, v: Time, d: int, today: int)
    requires ValidZone(z) && RolloverClear(z, rollover) && OnDay(z, rollover, v, d) && today - 30 < d <= today
    ensures RolloverUtc(z, rollover, today) - 31 * DAY <= v < RolloverUtc(z, rollover, today + 1)
  {
    WindowOfDay(z, rollover, v, d);
    DaysBack(d, today, rollover);
    RolloverNear(z, rollover, d);
    RolloverNear(z, rollover, today);
    assert Settled(z, RolloverWall(d + 1, rollover));
    WallsIncrease(z, DAY, RolloverWall(d + 1, rollover), RolloverWall(today + 1, rollover));
  }

  lemma RangeCovers(z: Zone, rollover: TimeOfDay, now: Time, v: Time)
    requires ValidZone(z) && RolloverClear(z, rollover)
    requires DayOf(z, rollover, now) - RETENTION_DAYS < DayOf(z, rollover, v) <= DayOf(z, rollover, now)
    ensures InWindow(v, ReadRange(StudyWindow(z, rollover, now)))
  {
    var today := DayOf(z, rollover, now);
    DayIsOn(z, rollover, v);
    RangeCoversDay(z, rollover, v, DayOf(z, rollover, v), today);
    assert StudyWindow(z, rollover, now) == (RolloverUtc(z, rollover, today), RolloverUtc(z, rollover, today + 1));
  }

  /** `dates` are the study dates of the zone, `today` and `w` those of `now`. */
  ghost predicate StudyDates(z: Zone, rollover: TimeOfDay, now: Time, dates: Time -> int, today: int, w: (Time, Time)) {
    && (forall u :: dates(u) == StudyDate(z, rollover, u))
    && today == dates(now) && w == StudyWindow(z, rollover, now)
  }

  lemma DatesCovered(z: Zone, rollover: TimeOfDay, now: Time, v: Time)
    requires ValidZone(z) && RolloverClear(z, rollover) && DatesKept(z, rollover)
    ensures var today := StudyDate(z, rollover, now);
            && (today - RETENTION_DAYS < StudyDate(z, rollover, v) <= today ==>
                 InWindow(v, ReadRange(StudyWindow(z, rollover, now))))
            && (StudyDate(z, rollover, v) == today <==> InWindow(v, StudyWindow(z, rollover, now)))
  {
    StudyDateIsDay(z, rollover, now);
    StudyDateIsDay(z, rollover, v);
    if DayOf(z, rollover, now) - RETENTION_DAYS < DayOf(z, rollover, v) <= DayOf(z, rollover, now) {
      RangeCovers(z, rollover, now, v);
    }
    SameDaySameWindow(z, rollover, now, v);
  }

  /** The range covers the last 30 dates, and today's window is today's date. */
  ghost predicate Covering(dates: Time -> int, today: int, w: (Time, Time)) {
    forall v ::
      && (today - RETENTION_DAYS < dates(v) <= today ==> InWindow(v, ReadRange(w)))
      && (dates(v) == today <==> InWindow(v, w))
  }

  lemma AllDatesCovered(z: Zone, rollover: TimeOfDay, now: Time, dates: Time -> int, today: int, w: (Time, Time))
    requires ValidZone(z) && RolloverClear(z, rollover) && DatesKept(z, rollover) &&
             StudyDates(z, rollover, now, dates, today, w)
    ensures Covering(dates, today, w)
  {
    forall v
      ensures today - RETENTION_DAYS < dates(v) <= today ==> InWindow(v, ReadRange(w))
      ensures dates(v) == today <==> InWindow(v, w)
    {
      DatesCovered(z, rollover, now, v);
    }
  }

  lemma RangeIsEnough(dates: Time -> int, today: int, w: (Time, Time), log: seq<ReviewRecord>, d: int, passed: bool)
    requires Covering(dates, today, w)
    ensures var records := Between(log, ReadRange(w).0, ReadRange(w).1);
            && (today - RETENTION_DAYS < d <= today ==> OnDate(records, dates, d) == OnDate(log, dates, d))
            && Recalled(records, dates, today - RETENTION_DAYS + 1, today, passed)
               == Recalled(log, dates, today - RETENTION_DAYS + 1, today, passed)
            && OnDate(log, dates, today) == InInterval(log, w.0, w.1)
  {
    var range := ReadRange(w);
    if today - RETENTION_DAYS < d <= today {
      RangeKeepsDate(log, dates, range.0, range.1, d);
    }
    RangeKeepsRecalled(log, dates, range.0, range.1, today - RETENTION_DAYS + 1, today, passed);
    DateIsInterval(log, dates, w.0, w.1, today);
  }

  /**
   * Each of the 30 daily counts is the number of all logged reviews of that date, the retention counts
   * are those of all logged reviews of the 30 dates, and today's count is that of today's window:
   * none is lost and none is counted twice.
   */
  lemma SummaryComplete(z: Zone, rollover: TimeOfDay, now: Time, dates: Time -> int, today: int, w: (Time, Time),
                        log: seq<ReviewRecord>, d: int, passed: bool)
    requires ValidZone(z) && RolloverClear(z, rollover) && DatesKept(z, rollover) &&
             StudyDates(z, rollover, now, dates, today, w)
    ensures var records := Between(log, ReadRange(w).0, ReadRange(w).1);
            && (today - RETENTION_DAYS < d <= today ==> OnDate(records, dates, d) == OnDate(log, dates, d))
            && Recalled(records, dates, today - RETENTION_DAYS + 1, today, passed)
               == Recalled(log, dates, today - RETENTION_DAYS + 1, today, passed)
            && OnDate(log, dates, today) == InInterval(log, w.0, w.1)
  {
    AllDatesCovered(z, rollover, now, dates, today, w);
    RangeIsEnough(dates, today, w, log, d, passed);
  }

  /** What the loop counted is what the whole log holds. */
  lemma CountsAreComplete(z: Zone, rollover: TimeOfDay, now: Time, dates: Time -> int, today: int, w: (Time, Time),
                          log: seq<ReviewRecord>, records: seq<ReviewRecord>, daily: map<int, nat>)
    requires ValidZone(z) && RolloverClear(z, rollover) && DatesKept(z, rollover) &&
             StudyDates(z, rollover, now, dates, today, w)
    requires records == Between(log, ReadRange(w).0, ReadRange(w).1)
    requires forall d :: d in daily <==> today - RETENTION_DAYS < d <= today
    requires forall d :: d in daily ==> daily[d] == OnDate(records, dates, d)
    ensures forall d :: d in daily ==> daily[d] == OnDate(log, dates, d)
    ensures today in daily && daily[today] == InInterval(log, w.0, w.1)
    ensures Recalled(records, dates, today - RETENTION_DAYS + 1, today, false)
         == Recalled(log, dates, today - RETENTION_DAYS + 1, today, false)
    ensures Recalled(records, dates, today - RETENTION_DAYS + 1, today, true)
         == Recalled(log, dates, today - RETENTION_DAYS + 1, today, true)
  {
    forall d | d in daily ensures daily[d] == OnDate(log, dates, d) {
      SummaryComplete(z, rollover, now, dates, today, w, log, d, false);
    }
    SummaryComplete(z, rollover, now, dates, today, w, log, today, false);
    SummaryComplete(z, rollover, now, dates, today, w, log, today, true);
  }

  function DatesIn(z: Zone, rollover: TimeOfDay): Time -> int {
    u => StudyDate(z, rollover, u)
  }

  lemma DatesInAre(z: Zone, rollover: TimeOfDay, now: Time)
    ensures StudyDates(z, rollover, now, DatesIn(z, rollover), DatesIn(z, rollover)(now), StudyWindow(z, rollover, now))
  {
  }

  /** `summary`, as far as it counts reviews. */
  method Summary(z: Zone, rollover: TimeOfDay, log: seq<ReviewRecord>, now: Time)
    returns (ghost dates: Time -> int, today: int, w: (Time, Time), daily: map<int, nat>, answered: nat, passed: nat,
        reviewedToday: nat)
    ensures StudyDates(z, rollover, now, dates, today, w)
    ensures forall d :: d in daily <==> today - RETENTION_DAYS < d <= today
    ensures ValidZone(z) && RolloverClear(z, rollover) && DatesKept(z, rollover) ==>
              && (forall d :: d in daily ==> daily[d] == OnDate(log, dates, d))
              && answered == Recalled(log, dates, today - RETENTION_DAYS + 1, today, false)
              && passed == Recalled(log, dates, today - RETENTION_DAYS + 1, today, true)
              && reviewedToday == InInterval(log, w.0, w.1)
  {
    var date := DatesIn(z, rollover);
    dates, today, w := date, date(now), StudyWindow(z, rollover, now);
    DatesInAre(z, rollover, now);
    var range := ReadRange(w);
    var records := Between(log, range.0, range.1);
    daily, answered, passed := CountRecords(records, date, today);
    reviewedToday := TodaysCount(daily, today);
    if ValidZone(z) && RolloverClear(z, rollover) && DatesKept(z, rollover) {
      CountsAreComplete(z, rollover, now, date, today, w, log, records, daily);
    }
  }

  method TodaysCount(daily: map<int, nat>, today: int) returns (count: nat)
    requires forall d :: d in daily <==> today - RETENTION_DAYS < d <= today
    ensures today in daily && count == daily[today]
  {
    assert today in daily;
    count := daily[today];
  }
}
