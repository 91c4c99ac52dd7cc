/**
 * The queries over stored times (src/bunsho/db/progress_repository.py: `due_cards`,
 * `next_due_after`, `reviews_between`): SQL compares the texts, and that is comparing the instants.
 */
module DueQueries {
  import opened ReviewTypes
  import opened StableSort
  import opened Timestamps

  /** A row with a stored time: the instant, and the text stored for it. */
  datatype Row = Row(id: nat, key: CardKey, due: Time, text: string)

  /** `text` is what is stored for the instant `t`. */
  ghost predicate Writes(text: string, t: Time) {
    InRange(t) && FormatTimestamp(Aware(t)) == Some(text)
  }

  ghost predicate Stored(row: Row) { Writes(row.text, row.due) }

  ghost predicate AllStored(rows: seq<Row>) {
    forall i :: 0 <= i < |rows| ==> Stored(rows[i])
  }

  /** `id` is the primary key. */
  ghost predicate UniqueIds(rows: seq<Row>) {
    forall i, j :: 0 <= i < j < |rows| ==> rows[i].id != rows[j].id
  }

  predicate NotAfter(a: string, b: string) { a == b || Before(a, b) }

  function Where(rows: seq<Row>, keep: Row -> bool): seq<Row> {
    if rows == [] then []
    else
      var row := rows[|rows| - 1];
      Where(rows[..|rows| - 1], keep) + if keep(row) then [row] else []
  }

  /** ORDER BY the text, then the id. */
  predicate TextOrder(a: Row, b: Row) { Before(a.text, b.text) || (a.text == b.text && a.id <= b.id) }

  predicate TimeOrder(a: Row, b: Row) { a.due < b.due || (a.due == b.due && a.id <= b.id) }

  /** Strictly earlier, or at the same time with a lower id. */
  predicate Precedes(a: Row, b: Row) { a.due < b.due || (a.due == b.due && a.id < b.id) }

  function TextBy(now: string): Row -> bool { (row: Row) => NotAfter(row.text, now) }

  function DueBy(now: Time): Row -> bool { (row: Row) => row.due <= now }

  function Limited(rows: seq<Row>, limit: nat): seq<Row> {
    if limit < |rows| then rows[..limit] else rows
  }

  /** `due_cards` as SQL runs it. */
  function DueByText(rows: seq<Row>, now: string, limit: nat): seq<Row> {
    Limited(Sort(TextOrder, Where(rows, TextBy(now))), limit)
  }

  function DueByTime(rows: seq<Row>, now: Time, limit: nat): seq<Row> {
    Limited(Sort(TimeOrder, Where(rows, DueBy(now))), limit)
  }

  lemma {:induction false} WhereHas(rows: seq<Row>, keep: Row -> bool, row: Row)
    ensures row in Where(rows, keep) <==> row in rows && keep(row)
  {
    if rows != [] {
      WhereHas(rows[..|rows| - 1], keep, row);
      assert rows == rows[..|rows| - 1] + [rows[|rows| - 1]];
    }
  }

  lemma {:induction false} WhereAgrees(rows: seq<Row>, keep: Row -> bool, other: Row -> bool)
    requires forall i :: 0 <= i < |rows| ==> keep(rows[i]) == other(rows[i])
    ensures Where(rows, keep) == Where(rows, other)
  {
    if rows != [] {
      WhereAgrees(rows[..|rows| - 1], keep, other);
    }
  }

  lemma {:induction false} InsertAgrees(le: (Row, Row) -> bool, other: (Row, Row) -> bool, x: Row, s: seq<Row>)
    requires forall y :: y in s ==> le(x, y) == other(x, y)
    ensures Insert(le, x, s) == Insert(other, x, s)
  {
    if s != [] {
      assert s[0] in s;
      InsertAgrees(le, other, x, s[1..]);
    }
  }

  lemma {:induction false} SortAgrees(le: (Row, Row) -> bool, other: (Row, Row) -> bool, s: seq<Row>)
    requires forall x, y :: x in s && y in s ==> le(x, y) == other(x, y)
    ensures Sort(le, s) == Sort(other, s)
  {
    if s != [] {
      SortAgrees(le, other, s[1..]);
      forall y | y in Sort(le, s[1..]) ensures le(s[0], y) == other(s[0], y) {
        SameElements(Sort(le, s[1..]), s[1..], y);
        assert s[0] in s && y in s;
      }
      InsertAgrees(le, other, s[0], Sort(le, s[1..]));
    }
  }

  lemma {:induction false} TextsCompare(t: Time, u: Time, s: string, r: string)
    requires Writes(s, t) && Writes(r, u)
    ensures NotAfter(s, r) <==> t <= u
    ensures Before(s, r) <==> t < u
  {
    StringOrderIsTimeOrder(t, u);
  }

  /** Ordering stored rows by their texts is ordering them by their instants. */
  lemma {:induction false} SortTextsAreTimes(rows: seq<Row>, keep: Row -> bool)
    requires AllStored(rows)
    ensures Sort(TextOrder, Where(rows, keep)) == Sort(TimeOrder, Where(rows, keep))
  {
    var kept := Where(rows, keep);
    forall x, y | x in kept && y in kept ensures TextOrder(x, y) == TimeOrder(x, y) {
      WhereHas(rows, keep, x);
      WhereHas(rows, keep, y);
      assert Stored(x) && Stored(y);
      StringOrderIsTimeOrder(x.due, y.due);
    }
    SortAgrees(TextOrder, TimeOrder, kept);
  }

  /** Filtering and ordering the texts gives the cards that comparing the instants gives. */
  lemma {:induction false} DueTextsAreTimes(rows: seq<Row>, now: Time, nowText: string, limit: nat)
    requires AllStored(rows) && Writes(nowText, now)
    ensures DueByText(rows, nowText, limit) == DueByTime(rows, now, limit)
  {
    forall i | 0 <= i < |rows| ensures NotAfter(rows[i].text, nowText) == (rows[i].due <= now) {
      assert Stored(rows[i]);
      TextsCompare(rows[i].due, now, rows[i].text, nowText);
    }
    WhereAgrees(rows, TextBy(nowText), DueBy(now));
    SortTextsAreTimes(rows, DueBy(now));
  }

  lemma {:induction false} WhereUnique(rows: seq<Row>, keep: Row -> bool)
    requires UniqueIds(rows)
    ensures Distinct(Where(rows, keep))
  {
    if rows != [] {
      var earlier, row := rows[..|rows| - 1], rows[|rows| - 1];
      WhereUnique(earlier, keep);
      WhereHas(earlier, keep, row);
    }
  }

  /** `list` is, in the order of time and then id, exactly the rows that `keep` accepts. */
  ghost predicate Lists(list: seq<Row>, rows: seq<Row>, keep: Row -> bool) {
    && (forall i, j :: 0 <= i < j < |list| ==> Precedes(list[i], list[j]))
    && (forall row :: row in list <==> row in rows && keep(row))
  }

  lemma {:induction false} SortLists(rows: seq<Row>, keep: Row -> bool)
    requires UniqueIds(rows)
    ensures Lists(Sort(TimeOrder, Where(rows, keep)), rows, keep)
  {
    var kept := Where(rows, keep);
    var list := Sort(TimeOrder, kept);
    SortSorts(TimeOrder, kept);
    WhereUnique(rows, keep);
    SortDistinct(TimeOrder, kept);
    forall row ensures row in list <==> row in rows && keep(row) {
      SameElements(list, kept, row);
      WhereHas(rows, keep, row);
    }
    forall i, j | 0 <= i < j < |list| ensures Precedes(list[i], list[j]) {
      assert TimeOrder(list[i], list[j]) && list[i] in rows && list[j] in rows;
    }
  }

  /** Cutting a list in order leaves out nothing that precedes what is kept. */
  lemma {:induction false} CutKeepsEarliest(sorted: seq<Row>, limit: nat)
    requires forall i, j :: 0 <= i < j < |sorted| ==> Precedes(sorted[i], sorted[j])
    ensures var list := Limited(sorted, limit);
            && |list| <= limit && list <= sorted
            && (forall row, i :: row in sorted && row !in list && 0 <= i < |list| ==> Precedes(list[i], row))
            && (forall row :: row in sorted && row !in list ==> |list| == limit)
  {
    var list := Limited(sorted, limit);
    assert forall m :: 0 <= m < |list| ==> list[m] == sorted[m];
    forall row, i | row in sorted && row !in list && 0 <= i < |list| ensures Precedes(list[i], row) {
      var k :| 0 <= k < |sorted| && sorted[k] == row;
    }
  }

  /**
   * Only due cards are returned, in the order of time and then id, and a due card left out comes after all of
   * them; one is left out only at the limit.
   */
  lemma {:induction false} DueCardsAreEarliest(rows: seq<Row>, now: Time, limit: nat)
    requires UniqueIds(rows)
    ensures var list := DueByTime(rows, now, limit);
            && |list| <= limit
            && (forall i, j :: 0 <= i < j < |list| ==> Precedes(list[i], list[j]))
            && (forall row :: row in list ==> row in rows && row.due <= now)
            && (forall row, i :: row in rows && row.due <= now && row !in list && 0 <= i < |list| ==>
                 Precedes(list[i], row))
            && (forall row :: row in rows && row.due <= now && row !in list ==> |list| == limit)
  {
    var sorted, list := Sort(TimeOrder, Where(rows, DueBy(now))), DueByTime(rows, now, limit);
    SortLists(rows, DueBy(now));
    CutKeepsEarliest(sorted, limit);
    assert forall i :: 0 <= i < |list| ==> list[i] == sorted[i];
    assert forall row :: row in sorted <==> row in rows && row.due <= now;
  }

  function TextBetween(from: string, until: string): Row -> bool {
    (row: Row) => NotAfter(from, row.text) && Before(row.text, until)
  }

  function TimeBetween(from: Time, until: Time): Row -> bool { (row: Row) => from <= row.due < until }

  /** The window queries over the log compare texts the same way. */
  lemma {:induction false} WindowTextsAreTimes(rows: seq<Row>, from: Time, until: Time, fromText: string,
                                               untilText: string)
    requires AllStored(rows) && Writes(fromText, from) && Writes(untilText, until)
    ensures Where(rows, TextBetween(fromText, untilText)) == Where(rows, TimeBetween(from, until))
  {
    forall i | 0 <= i < |rows|
      ensures TextBetween(fromText, untilText)(rows[i]) == TimeBetween(from, until)(rows[i])
    {
      assert Stored(rows[i]);
      TextsCompare(from, rows[i].due, fromText, rows[i].text);
      TextsCompare(rows[i].due, until, rows[i].text, untilText);
    }
    WhereAgrees(rows, TextBetween(fromText, untilText), TimeBetween(from, until));
  }

  /** `reviews_between` as SQL runs it. */
  function ReviewsBetween(rows: seq<Row>, from: string, until: string): seq<Row> {
    Sort(TextOrder, Where(rows, TextBetween(from, until)))
  }

  /** It returns exactly the reviews of the window, oldest first and those of one time by id; no other list does. */
  lemma {:induction false} ReviewsAreOldestFirst(rows: seq<Row>, from: Time, until: Time, fromText: string,
                                                 untilText: string, list: seq<Row>)
    requires AllStored(rows) && UniqueIds(rows) && Writes(fromText, from) && Writes(untilText, until)
    ensures Lists(list, rows, TimeBetween(from, until)) <==> list == ReviewsBetween(rows, fromText, untilText)
  {
    WindowTextsAreTimes(rows, from, until, fromText, untilText);
    SortTextsAreTimes(rows, TimeBetween(from, until));
    SortLists(rows, TimeBetween(from, until));
    if Lists(list, rows, TimeBetween(from, until)) {
      OneOrder(Precedes, list, ReviewsBetween(rows, fromText, untilText));
    }
  }

  function SoonerText(now: string, earlier: Option<string>, last: string): Option<string> {
    if Before(now, last) && (earlier.None? || Before(last, earlier.value)) then Some(last) else earlier
  }

  function SoonerTime(now: Time, earlier: Option<Time>, last: Time): Option<Time> {
    if now < last && (earlier.None? || last < earlier.value) then Some(last) else earlier
  }

  /** `next_due_after`: the least text after the given one. */
  function NextText(rows: seq<Row>, now: string): Option<string> {
    if rows == [] then None else SoonerText(now, NextText(rows[..|rows| - 1], now), rows[|rows| - 1].text)
  }

  function NextTime(rows: seq<Row>, now: Time): Option<Time> {
    if rows == [] then None else SoonerTime(now, NextTime(rows[..|rows| - 1], now), rows[|rows| - 1].due)
  }

  ghost predicate WritesBoth(text: Option<string>, t: Option<Time>) {
    if text.None? then t.None? else t.Some? && Writes(text.value, t.value)
  }

  lemma {:induction false} SoonerWrites(now: Time, nowText: string, earlier: Option<Time>, earlierText: Option<string>,
                                        last: Time, lastText: string)
    requires Writes(nowText, now) && Writes(lastText, last) && WritesBoth(earlierText, earlier)
    ensures WritesBoth(SoonerText(nowText, earlierText, lastText), SoonerTime(now, earlier, last))
  {
    TextsCompare(now, last, nowText, lastText);
    if earlier.Some? {
      TextsCompare(last, earlier.value, lastText, earlierText.value);
      assert Before(lastText, earlierText.value) <==> last < earlier.value;
    }
    assert Before(nowText, lastText) <==> now < last;
  }

  lemma {:induction false} NextTextWrites(rows: seq<Row>, now: Time, nowText: string)
    requires AllStored(rows) && Writes(nowText, now)
    ensures WritesBoth(NextText(rows, nowText), NextTime(rows, now))
  {
    if rows != [] {
      var earlier, row := rows[..|rows| - 1], rows[|rows| - 1];
      NextTextWrites(earlier, now, nowText);
      assert Stored(row);
      SoonerWrites(now, nowText, NextTime(earlier, now), NextText(earlier, nowText), row.due, row.text);
    }
  }

  lemma {:induction false} NextTimeIsSoonest(rows: seq<Row>, now: Time)
    ensures match NextTime(rows, now)
            case None => forall i :: 0 <= i < |rows| ==> rows[i].due <= now
            case Some(next) => (exists i :: 0 <= i < |rows| && rows[i].due == next) && next > now
                               && forall i :: 0 <= i < |rows| && rows[i].due > now ==> next <= rows[i].due
  {
    if rows != [] {
      var n := |rows| - 1;
      NextTimeIsSoonest(rows[..n], now);
      assert forall i :: 0 <= i < n ==> rows[..n][i] == rows[i];
    }
  }

  /** The least text after the given one, read back, is the soonest instant after it that any card is due. */
  lemma {:induction false} NextDueReadsBack(rows: seq<Row>, now: Time, nowText: string)
    requires AllStored(rows) && Writes(nowText, now)
    ensures match NextText(rows, nowText)
            case None => forall i :: 0 <= i < |rows| ==> rows[i].due <= now
            case Some(text) =>
              && Parse(text).Some? && Valid(Parse(text).value)
              && (var next := Instant(Parse(text).value);
                  && next > now && (exists i :: 0 <= i < |rows| && rows[i].due == next)
                  && forall i :: 0 <= i < |rows| && rows[i].due > now ==> next <= rows[i].due)
  {
    NextTextWrites(rows, now, nowText);
    NextTimeIsSoonest(rows, now);
    if NextText(rows, nowText).Some? {
      ParseUndoesFormat(NextTime(rows, now).value);
    }
  }
}
