/**
 * Fixed-width UTC strings (src/bunsho/db/timestamps.py): writing one and reading it back, and why
 * comparing the strings in SQL is comparing the instants.
 */
module Timestamps {
  import opened ReviewTypes

  /** A UTC calendar date and time, to the microsecond. */
  datatype DateTime = DateTime(year: int, month: int, day: int, hour: int, minute: int, second: int, micro: int)

  predicate Leap(y: int) {
    y % 4 == 0 && (y % 100 != 0 || y % 400 == 0)
  }

  function DaysInMonth(y: int, m: int): int {
    if m == 2 then if Leap(y) then 29 else 28
    else if m == 4 || m == 6 || m == 9 || m == 11 then 30
    else 31
  }

  predicate Valid(d: DateTime) {
    && 1000 <= d.year <= 9999 && 1 <= d.month <= 12 && 1 <= d.day <= DaysInMonth(d.year, d.month)
    && 0 <= d.hour < 24 && 0 <= d.minute < 60 && 0 <= d.second < 60 && 0 <= d.micro < 1_000_000
  }

  // ---- Calendar time as a number ----

  function DaysBeforeYear(y: int): int {
    var p := y - 1;
    p * 365 + p / 4 - p / 100 + p / 400
  }

  function DaysBeforeMonth(y: int, m: int): int
    requires 1 <= m <= 13
    decreases m
  {
    if m == 1 then 0 else DaysBeforeMonth(y, m - 1) + DaysInMonth(y, m - 1)
  }

  function Ordinal(y: int, m: int, d: int): int
    requires 1 <= m <= 12
  {
    DaysBeforeYear(y) + DaysBeforeMonth(y, m) + d
  }

  const DAY_MICROS: int := 24 * 3600 * 1_000_000

  function OfDay(d: DateTime): int {
    ((d.hour * 60 + d.minute) * 60 + d.second) * 1_000_000 + d.micro
  }

  /** Microseconds since the last midnight before 0001-01-01. */
  function Instant(d: DateTime): Time
    requires Valid(d)
  {
    Ordinal(d.year, d.month, d.day) * DAY_MICROS + OfDay(d)
  }

  lemma YearLength(y: int)
    ensures DaysBeforeYear(y + 1) == DaysBeforeYear(y) + 365 + if Leap(y) then 1 else 0
  {
    Quotients(y, 4);
    Quotients(y, 100);
    Quotients(y, 400);
    Multiples(y);
  }

  lemma Multiples(y: int)
    ensures y % 400 == 0 ==> y % 100 == 0
    ensures y % 100 == 0 ==> y % 4 == 0
  {
    if y % 400 == 0 {
      Hundreds(y, 4 * (y / 400));
    }
    if y % 100 == 0 {
      Fours(y, 25 * (y / 100));
    }
  }

  lemma Hundreds(y: int, q: int)
    requires y == 100 * q
    ensures y % 100 == 0
  {
  }

  lemma Fours(y: int, q: int)
    requires y == 4 * q
    ensures y % 4 == 0
  {
  }

  lemma Quotients(y: int, k: int)
    requires k == 4 || k == 100 || k == 400
    ensures y / k == (y - 1) / k + if y % k == 0 then 1 else 0
  {
  }

  lemma {:induction false} MonthsFillYear(y: int)
    ensures DaysBeforeMonth(y, 13) == 365 + if Leap(y) then 1 else 0
  {
    assert DaysBeforeMonth(y, 4) == DaysBeforeMonth(y, 1) + 31 + DaysInMonth(y, 2) + 31;
    assert DaysBeforeMonth(y, 7) == DaysBeforeMonth(y, 4) + 30 + 31 + 30;
    assert DaysBeforeMonth(y, 10) == DaysBeforeMonth(y, 7) + 31 + 31 + 30;
    assert DaysBeforeMonth(y, 13) == DaysBeforeMonth(y, 10) + 31 + 30 + 31;
  }

  /** The days of a common year before each month, and one more after February of a leap year. */
  const MONTH_STARTS: seq<int> := [0, 31, 59, 90, 120, 151, 181, 212, 243, 273, 304, 334, 365]

  lemma {:induction false} MonthsBegin(y: int, m: int)
    requires 1 <= m <= 13
    ensures DaysBeforeMonth(y, m) == MONTH_STARTS[m - 1] + if m > 2 && Leap(y) then 1 else 0
  {
    if m > 1 {
      MonthsBegin(y, m - 1);
    }
  }

  /** The Unix epoch. */
  lemma {:induction false} EpochOrdinal()
    ensures Ordinal(1970, 1, 1) == 719_163
  {
    assert DaysBeforeMonth(1970, 1) == 0;
  }

  lemma {:induction false} YearsIncrease(y: int, z: int)
    requires y <= z
    ensures DaysBeforeYear(y) <= DaysBeforeYear(z)
    decreases z - y
  {
    if y < z {
      YearLength(y);
      YearsIncrease(y + 1, z);
    }
  }

  lemma {:induction false} MonthsIncrease(y: int, m: int, n: int)
    requires 1 <= m <= n <= 13
    ensures 0 <= DaysBeforeMonth(y, m) <= DaysBeforeMonth(y, n)
    decreases n
  {
    if m < n {
      MonthsIncrease(y, m, n - 1);
    } else if m > 1 {
      MonthsIncrease(y, m - 1, m - 1);
    }
  }

  /** Field by field, most significant first: the order in which the string spells them. */
  predicate Earlier(a: DateTime, b: DateTime) {
    a.year < b.year || (a.year == b.year &&
    (a.month < b.month || (a.month == b.month &&
    (a.day < b.day || (a.day == b.day &&
    (a.hour < b.hour || (a.hour == b.hour &&
    (a.minute < b.minute || (a.minute == b.minute &&
    (a.second < b.second || (a.second == b.second && a.micro < b.micro)))))))))))
  }

  /** A day of a year lies before the next year begins. */
  lemma {:induction false} DayInYear(d: DateTime)
    requires Valid(d)
    ensures DaysBeforeYear(d.year) < Ordinal(d.year, d.month, d.day) <= DaysBeforeYear(d.year + 1)
  {
    MonthsIncrease(d.year, 1, d.month);
    MonthsIncrease(d.year, d.month + 1, 13);
    MonthsFillYear(d.year);
    YearLength(d.year);
  }

  lemma {:induction false} YearEarlier(a: DateTime, b: DateTime)
    requires Valid(a) && Valid(b) && a.year < b.year
    ensures Ordinal(a.year, a.month, a.day) < Ordinal(b.year, b.month, b.day)
  {
    DayInYear(a);
    DayInYear(b);
    YearsIncrease(a.year + 1, b.year);
  }

  lemma {:induction false} MonthEarlier(a: DateTime, b: DateTime)
    requires Valid(a) && Valid(b) && a.year == b.year && a.month < b.month
    ensures Ordinal(a.year, a.month, a.day) < Ordinal(b.year, b.month, b.day)
  {
    MonthsIncrease(a.year, a.month + 1, b.month);
  }

  lemma {:induction false} DateEarlier(a: DateTime, b: DateTime)
    requires Valid(a) && Valid(b)
    requires a.year < b.year || (a.year == b.year && (a.month < b.month || (a.month == b.month && a.day < b.day)))
    ensures Ordinal(a.year, a.month, a.day) < Ordinal(b.year, b.month, b.day)
  {
    if a.year < b.year {
      YearEarlier(a, b);
    } else if a.month < b.month {
      MonthEarlier(a, b);
    }
  }

  lemma {:induction false} EarlierIsSmaller(a: DateTime, b: DateTime)
    requires Valid(a) && Valid(b) && Earlier(a, b)
    ensures Instant(a) < Instant(b)
  {
    assert 0 <= OfDay(a) < DAY_MICROS && 0 <= OfDay(b) < DAY_MICROS;
    if (a.year, a.month, a.day) != (b.year, b.month, b.day) {
      DateEarlier(a, b);
    }
  }

  lemma EarlierIffSmaller(a: DateTime, b: DateTime)
    requires Valid(a) && Valid(b)
    ensures Earlier(a, b) <==> Instant(a) < Instant(b)
    ensures a == b <==> Instant(a) == Instant(b)
  {
    if Earlier(a, b) {
      EarlierIsSmaller(a, b);
    } else if a != b {
      assert Earlier(b, a);
      EarlierIsSmaller(b, a);
    }
  }

  // ---- Every instant of the years 1000 to 9999 has one calendar time ----

  predicate InRange(t: Time) {
    (DaysBeforeYear(1000) + 1) * DAY_MICROS <= t < (DaysBeforeYear(10000) + 1) * DAY_MICROS
  }

  function YearOf(ordinal: int, from: int): (y: int)
    requires DaysBeforeYear(from) < ordinal <= DaysBeforeYear(10000) && from < 10000
    ensures from <= y < 10000 && DaysBeforeYear(y) < ordinal <= DaysBeforeYear(y + 1)
    decreases 10000 - from
  {
    if ordinal <= DaysBeforeYear(from + 1) then from else YearOf(ordinal, from + 1)
  }

  function MonthOf(y: int, ofYear: int, from: int): (m: int)
    requires 1 <= from <= 12 && DaysBeforeMonth(y, from) < ofYear <= DaysBeforeMonth(y, 13)
    ensures from <= m <= 12 && DaysBeforeMonth(y, m) < ofYear <= DaysBeforeMonth(y, m + 1)
    decreases 12 - from
  {
    if from == 12 || ofYear <= DaysBeforeMonth(y, from + 1) then from else MonthOf(y, ofYear, from + 1)
  }

  function CivilDay(ordinal: int): (ymd: (int, int, int))
    requires DaysBeforeYear(1000) < ordinal <= DaysBeforeYear(10000)
    ensures 1000 <= ymd.0 <= 9999 && 1 <= ymd.1 <= 12 && 1 <= ymd.2 <= DaysInMonth(ymd.0, ymd.1)
    ensures Ordinal(ymd.0, ymd.1, ymd.2) == ordinal
  {
    var y := YearOf(ordinal, 1000);
    YearLength(y);
    MonthsFillYear(y);
    var ofYear := ordinal - DaysBeforeYear(y);
    var m := MonthOf(y, ofYear, 1);
    (y, m, ofYear - DaysBeforeMonth(y, m))
  }

  function TimeOfDay(micros: int): (hmsu: (int, int, int, int))
    requires 0 <= micros < DAY_MICROS
    ensures 0 <= hmsu.0 < 24 && 0 <= hmsu.1 < 60 && 0 <= hmsu.2 < 60 && 0 <= hmsu.3 < 1_000_000
    ensures ((hmsu.0 * 60 + hmsu.1) * 60 + hmsu.2) * 1_000_000 + hmsu.3 == micros
  {
    var seconds := micros / 1_000_000;
    var minutes := seconds / 60;
    (minutes / 60, minutes % 60, seconds % 60, micros % 1_000_000)
  }

  lemma DayInRange(t: Time)
    requires InRange(t)
    ensures DaysBeforeYear(1000) < t / DAY_MICROS <= DaysBeforeYear(10000)
  {
    var lo, hi := DaysBeforeYear(1000), DaysBeforeYear(10000);
    assert t == t / DAY_MICROS * DAY_MICROS + t % DAY_MICROS;
  }

  /** The UTC calendar time of an instant. */
  function Civil(t: Time): (d: DateTime)
    requires InRange(t)
    ensures Valid(d) && Instant(d) == t
  {
    DayInRange(t);
    var (y, m, day) := CivilDay(t / DAY_MICROS);
    var (h, n, c, f) := TimeOfDay(t % DAY_MICROS);
    Recompose(t);
    DateTime(y, m, day, h, n, c, f)
  }

  lemma Recompose(t: Time)
    ensures t == t / DAY_MICROS * DAY_MICROS + t % DAY_MICROS
  {
  }

  // ---- The string ----

  function Digit(n: int): char
    requires 0 <= n < 10
  {
    ['0', '1', '2', '3', '4', '5', '6', '7', '8', '9'][n]
  }

  function Pow10(k: nat): nat {
    if k == 0 then 1 else 10 * Pow10(k - 1)
  }

  /** `n` in exactly `k` decimal digits. */
  function Pad(n: int, k: nat): (s: string)
    requires 0 <= n < Pow10(k)
    ensures |s| == k
  {
    if k == 0 then "" else Pad(n / 10, k - 1) + [Digit(n % 10)]
  }

  function Format(d: DateTime): (s: string)
    requires Valid(d)
    ensures |s| == 27
  {
    Widths();
    Pad(d.year, 4) + ("-" + (Pad(d.month, 2) + ("-" + (Pad(d.day, 2) + ("T" + (Pad(d.hour, 2) + (":" +
    (Pad(d.minute, 2) + (":" + (Pad(d.second, 2) + ("." + (Pad(d.micro, 6) + "Z"))))))))))))
  }

  lemma Widths()
    ensures Pow10(2) == 100 && Pow10(4) == 10_000 && Pow10(6) == 1_000_000
  {
    assert Pow10(3) == 10 * Pow10(2);
    assert Pow10(5) == 10 * Pow10(4);
  }

  /** A datetime argument: `format_timestamp` refuses one without a timezone. */
  datatype Moment = Naive(wall: DateTime) | Aware(instant: Time)

  function FormatTimestamp(value: Moment): Option<string>
    requires value.Aware? ==> InRange(value.instant)
  {
    if value.Naive? then None else Some(Format(Civil(value.instant)))
  }

  function DigitValue(c: char): Option<int> {
    if '0' <= c <= '9' then Some(c as int - '0' as int) else None
  }

  function ParseDigits(s: string): Option<int> {
    if s == "" then Some(0)
    else
      var high, low := ParseDigits(s[..|s| - 1]), DigitValue(s[|s| - 1]);
      if high.Some? && low.Some? then Some(high.value * 10 + low.value) else None
  }

  /** Read the fixed-width form back; `None` is the ValueError of a text in another format. */
  function Parse(s: string): Option<DateTime> {
    if |s| != 27 || s[4] != '-' || s[7] != '-' || s[10] != 'T' || s[13] != ':' || s[16] != ':' || s[19] != '.' ||
        s[26] != 'Z'
    then None
    else
      var y, m, d := ParseDigits(s[..4]), ParseDigits(s[5..7]), ParseDigits(s[8..10]);
      var h, n, c := ParseDigits(s[11..13]), ParseDigits(s[14..16]), ParseDigits(s[17..19]);
      var f := ParseDigits(s[20..26]);
      if y.None? || m.None? || d.None? || h.None? || n.None? || c.None? || f.None? then None
      else
        var v := DateTime(y.value, m.value, d.value, h.value, n.value, c.value, f.value);
        if Valid(v) then Some(v) else None
  }

  lemma DigitReads(n: int)
    requires 0 <= n < 10
    ensures DigitValue(Digit(n)) == Some(n)
  {
  }

  /** Reading a text and one more digit. */
  lemma {:induction false} ParseOneMore(high: string, n: int, low: int)
    requires ParseDigits(high) == Some(n) && 0 <= low < 10
    ensures ParseDigits(high + [Digit(low)]) == Some(n * 10 + low)
  {
    DigitReads(low);
    assert (high + [Digit(low)])[..|high|] == high;
  }

  lemma {:induction false} ParsePad(n: int, k: nat)
    requires 0 <= n < Pow10(k)
    ensures ParseDigits(Pad(n, k)) == Some(n)
  {
    if k > 0 {
      ParsePad(n / 10, k - 1);
      ParseOneMore(Pad(n / 10, k - 1), n / 10, n % 10);
    }
  }

  /** A field, the character after it and the text after that, found at place `k` of a string. */
  lemma FieldAt(s: string, k: nat, field: string, sep: char, rest: string)
    requires k <= |s| && s[k..] == field + ([sep] + rest)
    ensures k + |field| < |s| && s[k..k + |field|] == field && s[k + |field|] == sep && s[k + |field| + 1..] == rest
  {
    var tail, n := field + ([sep] + rest), |field|;
    assert tail[..n] == field && tail[n] == sep && tail[n + 1..] == rest;
    assert s[k..][..n] == s[k..k + n] && s[k..][n] == s[k + n] && s[k..][n + 1..] == s[k + n + 1..];
  }

  /** Where the fields stand in the string. */
  lemma Layout(d: DateTime)
    requires Valid(d)
    ensures Pow10(2) == 100 && Pow10(4) == 10_000 && Pow10(6) == 1_000_000
    ensures var s := Format(d);
            && s[4] == '-' && s[7] == '-' && s[10] == 'T' && s[13] == ':' && s[16] == ':' && s[19] == '.' &&
                 s[26] == 'Z'
            && s[..4] == Pad(d.year, 4) && s[5..7] == Pad(d.month, 2) && s[8..10] == Pad(d.day, 2)
            && s[11..13] == Pad(d.hour, 2) && s[14..16] == Pad(d.minute, 2) && s[17..19] == Pad(d.second, 2)
            && s[20..26] == Pad(d.micro, 6)
  {
    Widths();
    FieldsAt(Format(d), Pad(d.year, 4), Pad(d.month, 2), Pad(d.day, 2), Pad(d.hour, 2), Pad(d.minute, 2),
        Pad(d.second, 2), Pad(d.micro, 6));
  }

  lemma FieldsAt(s: string, y: string, m: string, d: string, h: string, n: string, c: string, f: string)
    requires |y| == 4 && |m| == |d| == |h| == |n| == |c| == 2 && |f| == 6
    requires s == y + ("-" + (m + ("-" + (d + ("T" + (h + (":" + (n + (":" + (c + ("." + (f + "Z"))))))))))))
    ensures |s| == 27 && s[4] == '-' && s[7] == '-' && s[10] == 'T' && s[13] == ':' && s[16] == ':' && s[19] == '.' &&
            s[26] == 'Z'
    ensures s[..4] == y && s[5..7] == m && s[8..10] == d && s[11..13] == h && s[14..16] == n && s[17..19] == c &&
            s[20..26] == f
  {
    var s6 := f + "Z";
    var s5 := c + ("." + s6);
    var s4 := n + (":" + s5);
    var s3 := h + (":" + s4);
    var s2 := d + ("T" + s3);
    var s1 := m + ("-" + s2);
    assert s[0..] == s;
    FieldAt(s, 0, y, '-', s1);
    FieldAt(s, 5, m, '-', s2);
    FieldAt(s, 8, d, 'T', s3);
    FieldAt(s, 11, h, ':', s4);
    FieldAt(s, 14, n, ':', s5);
    FieldAt(s, 17, c, '.', s6);
    assert f + "Z" == f + ("Z" + "");
    FieldAt(s, 20, f, 'Z', "");
  }

  /** A text in which every field is found and read is parsed. */
  lemma {:induction false} ReadsBack(s: string, d: DateTime)
    requires Valid(d) && |s| == 27
    requires s[4] == '-' && s[7] == '-' && s[10] == 'T' && s[13] == ':' && s[16] == ':' && s[19] == '.' && s[26] == 'Z'
    requires ParseDigits(s[..4]) == Some(d.year) && ParseDigits(s[5..7]) == Some(d.month) &&
             ParseDigits(s[8..10]) == Some(d.day)
    requires ParseDigits(s[11..13]) == Some(d.hour) && ParseDigits(s[14..16]) == Some(d.minute)
    requires ParseDigits(s[17..19]) == Some(d.second) && ParseDigits(s[20..26]) == Some(d.micro)
    ensures Parse(s) == Some(d)
  {
  }

  lemma {:induction false} ParseFormat(d: DateTime)
    requires Valid(d)
    ensures Parse(Format(d)) == Some(d)
  {
    Layout(d);
    ParsePad(d.year, 4);
    ParsePad(d.month, 2);
    ParsePad(d.day, 2);
    ParsePad(d.hour, 2);
    ParsePad(d.minute, 2);
    ParsePad(d.second, 2);
    ParsePad(d.micro, 6);
    ReadsBack(Format(d), d);
  }

  /** Reading what was written gives the instant back, to the microsecond. */
  lemma ParseUndoesFormat(t: Time)
    requires InRange(t)
    ensures var s := FormatTimestamp(Aware(t)).value;
            Parse(s).Some? && Valid(Parse(s).value) && Instant(Parse(s).value) == t
  {
    ParseFormat(Civil(t));
  }

  // ---- String order ----

  /** SQLite's BINARY collation on these strings: the first difference decides. */
  predicate Before(a: string, b: string) {
    b != "" && (a == "" || a[0] < b[0] || (a[0] == b[0] && Before(a[1..], b[1..])))
  }

  lemma {:induction false} BeforeConcat(a: string, b: string, x: string, y: string)
    requires |a| == |b|
    ensures Before(a + x, b + y) <==> Before(a, b) || (a == b && Before(x, y))
    ensures a + x == b + y <==> a == b && x == y
  {
    if a == "" {
      assert a + x == x && b + y == y;
    } else {
      BeforeConcat(a[1..], b[1..], x, y);
      assert (a + x)[1..] == a[1..] + x && (b + y)[1..] == b[1..] + y;
      assert a == b <==> a[0] == b[0] && a[1..] == b[1..];
      if a + x == b + y {
        assert a == (a + x)[..|a|] && b == (b + y)[..|a|] && x == (a + x)[|a|..] && y == (b + y)[|a|..];
      }
    }
  }

  lemma {:induction false} PadOrder(m: int, n: int, k: nat)
    requires 0 <= m < Pow10(k) && 0 <= n < Pow10(k)
    ensures Before(Pad(m, k), Pad(n, k)) <==> m < n
    ensures Pad(m, k) == Pad(n, k) <==> m == n
  {
    if k > 0 {
      PadOrder(m / 10, n / 10, k - 1);
      BeforeConcat(Pad(m / 10, k - 1), Pad(n / 10, k - 1), [Digit(m % 10)], [Digit(n % 10)]);
      DigitOrder(m % 10, n % 10);
    }
  }

  lemma DigitOrder(m: int, n: int)
    requires 0 <= m < 10 && 0 <= n < 10
    ensures Before([Digit(m)], [Digit(n)]) <==> m < n
    ensures Digit(m) == Digit(n) <==> m == n
  {
  }

  /** One field and its separator: the rest of the string matters only when the field is equal. */
  lemma {:induction false} FieldOrder(m: int, n: int, k: nat, sep: string, x: string, y: string)
    requires 0 <= m < Pow10(k) && 0 <= n < Pow10(k)
    ensures Before(Pad(m, k) + (sep + x), Pad(n, k) + (sep + y)) <==> m < n || (m == n && Before(x, y))
  {
    PadOrder(m, n, k);
    BeforeConcat(Pad(m, k), Pad(n, k), sep + x, sep + y);
    BeforeConcat(sep, sep, x, y);
    NotBeforeItself(sep);
  }

  lemma {:induction false} NotBeforeItself(s: string)
    ensures !Before(s, s)
  {
    if s != "" {
      NotBeforeItself(s[1..]);
    }
  }

  function TimeText(d: DateTime): string
    requires Valid(d)
  {
    Widths();
    Pad(d.hour, 2) + (":" + (Pad(d.minute, 2) + (":" + (Pad(d.second, 2) + ("." + (Pad(d.micro, 6) + "Z"))))))
  }

  predicate TimeEarlier(a: DateTime, b: DateTime) {
    a.hour < b.hour || (a.hour == b.hour &&
    (a.minute < b.minute || (a.minute == b.minute &&
    (a.second < b.second || (a.second == b.second && a.micro < b.micro)))))
  }

  lemma {:induction false} TimeOrder(a: DateTime, b: DateTime)
    requires Valid(a) && Valid(b)
    ensures Before(TimeText(a), TimeText(b)) <==> TimeEarlier(a, b)
  {
    Widths();
    var a6, b6 := Pad(a.micro, 6) + "Z", Pad(b.micro, 6) + "Z";
    var a5, b5 := Pad(a.second, 2) + ("." + a6), Pad(b.second, 2) + ("." + b6);
    var a4, b4 := Pad(a.minute, 2) + (":" + a5), Pad(b.minute, 2) + (":" + b5);
    PadOrder(a.micro, b.micro, 6);
    BeforeConcat(Pad(a.micro, 6), Pad(b.micro, 6), "Z", "Z");
    NotBeforeItself("Z");
    FieldOrder(a.second, b.second, 2, ".", a6, b6);
    FieldOrder(a.minute, b.minute, 2, ":", a5, b5);
    FieldOrder(a.hour, b.hour, 2, ":", a4, b4);
  }

  lemma {:induction false} FormatOrder(a: DateTime, b: DateTime)
    requires Valid(a) && Valid(b)
    ensures Before(Format(a), Format(b)) <==> Earlier(a, b)
  {
    Widths();
    var a3, b3 := TimeText(a), TimeText(b);
    var a2, b2 := Pad(a.day, 2) + ("T" + a3), Pad(b.day, 2) + ("T" + b3);
    var a1, b1 := Pad(a.month, 2) + ("-" + a2), Pad(b.month, 2) + ("-" + b2);
    assert Format(a) == Pad(a.year, 4) + ("-" + a1) && Format(b) == Pad(b.year, 4) + ("-" + b1);
    TimeOrder(a, b);
    FieldOrder(a.day, b.day, 2, "T", a3, b3);
    FieldOrder(a.month, b.month, 2, "-", a2, b2);
    FieldOrder(a.year, b.year, 4, "-", a1, b1);
  }

  /** The strings are ordered as the instants are, and equal only for equal instants. */
  lemma {:induction false} StringOrderIsTimeOrder(t: Time, u: Time)
    requires InRange(t) && InRange(u)
    ensures var s, r := FormatTimestamp(Aware(t)).value, FormatTimestamp(Aware(u)).value;
            && (Before(s, r) <==> t < u)
            && (s == r <==> t == u)
  {
    FormatOrder(Civil(t), Civil(u));
    EarlierIffSmaller(Civil(t), Civil(u));
    ParseUndoesFormat(t);
    ParseUndoesFormat(u);
  }
}
