/**
 * The two review tables of `progress.db` (src/bunsho/db/progress_repository.py): what one
 * transaction does to them, the queries over them, and the class that owns them.
 */
module ReviewTables {
  import opened ReviewTypes

  datatype StoredCard = StoredCard(schedule: CardSchedule, reps: nat, lapses: nat)

  datatype LogEntry = LogEntry(
    key: CardKey,
    grade: Grade,
    reviewedAt: Time,
    stateBefore: SchedState,
    stabilityBefore: Option<real>,
    difficultyBefore: Option<real>,
    elapsed: Option<Time>)

  /** `order` lists the cards by row id: the order of their insertion. */
  datatype Tables = Tables(cards: map<CardKey, StoredCard>, order: seq<CardKey>, log: seq<LogEntry>)

  datatype Outcome = Recorded | Stale | BadValue

  predicate Lapsed(grade: Grade, before: SchedState) {
    grade == Again && before == Review
  }

  function Entry(key: CardKey, before: CardSchedule, after: CardSchedule, grade: Grade): LogEntry
    requires after.lastReview.Some?
  {
    LogEntry(key, grade, after.lastReview.value, before.state, before.stability, before.difficulty,
             if before.lastReview.None? then None else Some(after.lastReview.value - before.lastReview.value))
  }

  /** Whether the compare-and-set finds the row it expects. */
  predicate Matches(t: Tables, key: CardKey, before: CardSchedule) {
    if before.state == New then key !in t.cards
    else key in t.cards && t.cards[key].schedule.lastReview == before.lastReview
  }

  /** One `record_review` transaction: insert or compare-and-set, then the log append. */
  function Record(t: Tables, key: CardKey, before: CardSchedule, after: CardSchedule, grade: Grade): (Tables, Outcome) {
    if after.lastReview.None? || (before.state != New && before.lastReview.None?) then (t, BadValue)
    else if !Matches(t, key, before) then (t, Stale)
    else
      var entry := Entry(key, before, after, grade);
      if before.state == New then
        (Tables(t.cards[key := StoredCard(after, 1, 0)], t.order + [key], t.log + [entry]), Recorded)
      else
        var row := t.cards[key];
        var lapses := row.lapses + if Lapsed(grade, before.state) then 1 else 0;
        (Tables(t.cards[key := StoredCard(after, row.reps + 1, lapses)], t.order, t.log + [entry]), Recorded)
  }

  // ---- Queries ----

  predicate FirstReviewIn(e: LogEntry, from: Time, until: Time) {
    e.stateBefore == New && from <= e.reviewedAt < until
  }

  /** First reviews of one direction in a window: one row of the GROUP BY query. */
  function IntroducedBy(log: seq<LogEntry>, d: Direction, from: Time, until: Time): nat {
    if log == [] then 0
    else
      var last := log[|log| - 1];
      IntroducedBy(log[..|log| - 1], d, from, until)
      + if FirstReviewIn(last, from, until) && last.key.direction == d then 1 else 0
  }

  /** First reviews of one item type in a window. */
  function Introduced(log: seq<LogEntry>, itemType: ItemType, from: Time, until: Time): nat {
    if log == [] then 0
    else
      var last := log[|log| - 1];
      Introduced(log[..|log| - 1], itemType, from, until)
      + if FirstReviewIn(last, from, until) && last.key.Type() == itemType then 1 else 0
  }

  const ALL_DIRECTIONS: seq<Direction> := DirectionsOf(Kana) + DirectionsOf(Kanji) + DirectionsOf(Vocab)

  /** The groups of an item type among the directions `ds`, added up. */
  ghost function Grouped(log: seq<LogEntry>, ds: seq<Direction>, itemType: ItemType, from: Time, until: Time): nat {
    if ds == [] then 0
    else
      var d := ds[|ds| - 1];
      Grouped(log, ds[..|ds| - 1], itemType, from, until)
      + if d.Type() == itemType then IntroducedBy(log, d, from, until) else 0
  }

  lemma {:induction false} GroupedUnfolds(log: seq<LogEntry>, ds: seq<Direction>, itemType: ItemType, from: Time,
                                          until: Time)
    requires log != [] && forall i, j :: 0 <= i < j < |ds| ==> ds[i] != ds[j]
    ensures var last := log[|log| - 1];
            Grouped(log, ds, itemType, from, until) == Grouped(log[..|log| - 1], ds, itemType, from, until)
            + if FirstReviewIn(last, from, until) && last.key.Type() == itemType && last.key.direction in ds
              then 1 else 0
  {
    if ds != [] {
      var n := |ds| - 1;
      GroupedUnfolds(log, ds[..n], itemType, from, until);
      assert ds == ds[..n] + [ds[n]];
    }
  }

  /** Grouping by direction and adding the groups of a type up again loses and repeats nothing. */
  lemma {:induction false} DirectionsAddUp(log: seq<LogEntry>, itemType: ItemType, from: Time, until: Time)
    ensures Grouped(log, ALL_DIRECTIONS, itemType, from, until) == Introduced(log, itemType, from, until)
  {
    if log == [] {
      GroupedEmpty(ALL_DIRECTIONS, itemType, from, until);
    } else {
      DirectionsAddUp(log[..|log| - 1], itemType, from, until);
      GroupedUnfolds(log, ALL_DIRECTIONS, itemType, from, until);
      EveryDirection(log[|log| - 1].key.direction);
    }
  }

  lemma {:induction false} GroupedEmpty(ds: seq<Direction>, itemType: ItemType, from: Time, until: Time)
    ensures Grouped([], ds, itemType, from, until) == 0
  {
    if ds != [] {
      GroupedEmpty(ds[..|ds| - 1], itemType, from, until);
    }
  }

  lemma EveryDirection(d: Direction)
    ensures d in ALL_DIRECTIONS
  {
    assert ALL_DIRECTIONS == [GlyphToSound, SoundToGlyph, KanjiToMeaning, KanjiToReading, MeaningToKanji, Recognition,
        Recall];
  }

  /** A window cut in two counts every first review once. */
  lemma {:induction false} WindowsAddUp(log: seq<LogEntry>, itemType: ItemType, from: Time, cut: Time, until: Time)
    requires from <= cut <= until
    ensures Introduced(log, itemType, from, cut) + Introduced(log, itemType, cut, until)
         == Introduced(log, itemType, from, until)
  {
    if log != [] {
      WindowsAddUp(log[..|log| - 1], itemType, from, cut, until);
    }
  }

  function SumFor(rows: seq<(Direction, nat)>, itemType: ItemType): nat {
    if rows == [] then 0
    else
      var (d, n) := rows[|rows| - 1];
      SumFor(rows[..|rows| - 1], itemType) + if d.Type() == itemType then n else 0
  }

  /** `_sum_by_type`: accumulate the grouped rows into a dictionary. */
  method SumByType(rows: seq<(Direction, nat)>) returns (totals: map<ItemType, nat>)
    ensures forall ty :: ty in totals <==> exists i :: 0 <= i < |rows| && rows[i].0.Type() == ty
    ensures forall ty :: (if ty in totals then totals[ty] else 0) == SumFor(rows, ty)
  {
    totals := map[];
    for i := 0 to |rows|
      invariant forall ty :: ty in totals <==> exists j :: 0 <= j < i && rows[j].0.Type() == ty
      invariant forall ty :: (if ty in totals then totals[ty] else 0) == SumFor(rows[..i], ty)
    {
      assert rows[..i + 1][..i] == rows[..i];
      var (d, n) := rows[i];
      var ty := d.Type();
      totals := totals[ty := (if ty in totals then totals[ty] else 0) + n];
    }
    assert rows[..|rows|] == rows;
  }

  class ProgressRepository {
    var cards: map<CardKey, StoredCard>
    var order: seq<CardKey>
    var log: seq<LogEntry>

    ghost function View(): Tables reads this { Tables(cards, order, log) }

    constructor ()
      ensures View() == Tables(map[], [], [])
    {
      cards, order, log := map[], [], [];
    }

    method GetCard(key: CardKey) returns (stored: Option<StoredCard>)
      ensures stored == if key in cards then Some(cards[key]) else None
    {
      if key in cards {
        return Some(cards[key]);
      }
      return None;
    }

    method RecordReview(key: CardKey, before: CardSchedule, after: CardSchedule,
                        grade: Grade) returns (outcome: Outcome)
      modifies this
      ensures (View(), outcome) == Record(old(View()), key, before, after, grade)
    {
      if after.lastReview.None? {
        return BadValue;
      }
      var isNew := before.state == New;
      if !isNew && before.lastReview.None? {
        return BadValue;
      }
      if isNew {
        if key in cards {
          return Stale;
        }
        cards := cards[key := StoredCard(after, 1, 0)];
        order := order + [key];
      } else {
        if key !in cards || cards[key].schedule.lastReview != before.lastReview {
          return Stale;
        }
        var row := cards[key];
        var lapses := if Lapsed(grade, before.state) then row.lapses + 1 else row.lapses;
        cards := cards[key := StoredCard(after, row.reps + 1, lapses)];
      }
      log := log + [Entry(key, before, after, grade)];
      return Recorded;
    }

    /** `new_cards_introduced`: types with no first review in the window are omitted. */
    method NewCardsIntroduced(from: Time, until: Time) returns (totals: map<ItemType, nat>)
      ensures forall ty :: ty in totals <==> Introduced(log, ty, from, until) > 0
      ensures forall ty :: ty in totals ==> totals[ty] == Introduced(log, ty, from, until)
    {
      var rows: seq<(Direction, nat)> := [];
      for i := 0 to |ALL_DIRECTIONS|
        invariant forall ty :: SumFor(rows, ty) == Grouped(log, ALL_DIRECTIONS[..i], ty, from, until)
        invariant forall j :: 0 <= j < |rows| ==> rows[j].1 > 0
      {
        assert ALL_DIRECTIONS[..i + 1][..i] == ALL_DIRECTIONS[..i];
        var d := ALL_DIRECTIONS[i];
        var count := IntroducedBy(log, d, from, until);
        if count > 0 {
          assert (rows + [(d, count)])[..|rows|] == rows;
          rows := rows + [(d, count)];
        }
      }
      totals := SumByType(rows);
      assert ALL_DIRECTIONS[..|ALL_DIRECTIONS|] == ALL_DIRECTIONS;
      forall ty: ItemType
        ensures SumFor(rows, ty) == Introduced(log, ty, from, until)
        ensures ty in totals <==> SumFor(rows, ty) > 0
      {
        DirectionsAddUp(log, ty, from, until);
        SumPositive(rows, ty);
      }
    }
  }

  lemma {:induction false} SumPositive(rows: seq<(Direction, nat)>, itemType: ItemType)
    requires forall j :: 0 <= j < |rows| ==> rows[j].1 > 0
    ensures SumFor(rows, itemType) > 0 <==> exists i :: 0 <= i < |rows| && rows[i].0.Type() == itemType
  {
    if rows != [] {
      var n := |rows| - 1;
      SumPositive(rows[..n], itemType);
      assert forall i :: 0 <= i < n ==> rows[..n][i] == rows[i];
    }
  }
}
