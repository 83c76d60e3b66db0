/**
 * Local calendar days as integer day numbers (day 0 is 1970-01-01, a Thursday),
 * the weekday that `Date.getDay()` reports for them, the Monday/Friday session
 * days both session pickers look for, and `getDateString`'s `YYYY-MM-DD` form.
 */
module Calendar {
  import opened JsString

  /** `Date.getDay()`: 0 is Sunday, 1 Monday, ..., 6 Saturday. */
  function Weekday(d: int): (w: int)
    ensures 0 <= w < 7
  {
    (d + 4) % 7
  }

  const Monday: int := 1
  const Friday: int := 5

  /** The days on which lunch soccer is held. */
  predicate IsSessionDay(d: int) {
    Weekday(d) == Monday || Weekday(d) == Friday
  }

  /** The weekday label both pickers give a session day: `day === 1 ? 'Monday' : 'Friday'`. */
  function SessionDayName(d: int): (name: string)
    ensures Weekday(d) == Monday ==> name == "Monday"
    ensures IsSessionDay(d) && Weekday(d) != Monday ==> name == "Friday"
  {
    if Weekday(d) == Monday then "Monday" else "Friday"
  }

  lemma WeekdayNext(d: int)
    ensures Weekday(d + 1) == (Weekday(d) + 1) % 7
  {
  }

  /** How many days from `d` to the next Monday or Friday (0 on one). */
  function GapToSessionDay(d: int): (g: nat)
    ensures g <= 3
    ensures g == 0 <==> IsSessionDay(d)
  {
    [1, 0, 3, 2, 1, 0, 2][Weekday(d)]
  }

  lemma GapStep(d: int)
    ensures !IsSessionDay(d) ==> GapToSessionDay(d + 1) + 1 == GapToSessionDay(d)
  {
    WeekdayNext(d);
  }

  /**
   * The first `n` session days on or after `start`, in order: what both
   * pickers produce by stepping a cursor one day at a time.
   */
  function SessionDays(start: int, n: nat): (days: seq<int>)
    ensures |days| == n
    decreases n, GapToSessionDay(start)
  {
    GapStep(start);
    if n == 0 then []
    else if IsSessionDay(start) then [start] + SessionDays(start + 1, n - 1)
    else SessionDays(start + 1, n)
  }

  /**
   * The picked days are Mondays and Fridays, none before `start`, strictly
   * increasing, and the `k`-th is at most `4 * k` days after the first
   * session day from `start`.
   */
  lemma {:induction false} SessionDaysFacts(start: int, n: nat)
    ensures forall k :: 0 <= k < n ==> IsSessionDay(SessionDays(start, n)[k]) && start <= SessionDays(start, n)[k]
    ensures forall i, j :: 0 <= i < j < n ==> SessionDays(start, n)[i] < SessionDays(start, n)[j]
    ensures forall k :: 0 <= k < n ==> SessionDays(start, n)[k] <= start + GapToSessionDay(start) + 4 * k
    decreases n, GapToSessionDay(start)
  {
    GapStep(start);
    WeekdayNext(start);
    if n == 0 {
    } else if IsSessionDay(start) {
      SessionDaysFacts(start + 1, n - 1);
      var days, rest := SessionDays(start, n), SessionDays(start + 1, n - 1);
      assert days == [start] + rest;
      forall k | 0 <= k < n ensures IsSessionDay(days[k]) && start <= days[k] {
        if k > 0 {
          assert days[k] == rest[k - 1];
        }
      }
      forall i, j | 0 <= i < j < n ensures days[i] < days[j] {
        assert days[j] == rest[j - 1] && start + 1 <= rest[j - 1];
        if i > 0 {
          assert days[i] == rest[i - 1];
        }
      }
      forall k | 0 <= k < n ensures days[k] <= start + GapToSessionDay(start) + 4 * k {
        if k > 0 {
          assert days[k] == rest[k - 1] <= start + 1 + GapToSessionDay(start + 1) + 4 * (k - 1);
          assert GapToSessionDay(start + 1) <= 3 && GapToSessionDay(start) == 0;
        }
      }
    } else {
      SessionDaysFacts(start + 1, n);
      assert SessionDays(start, n) == SessionDays(start + 1, n);
    }
  }

  /** No session day between `start` and the last one picked is skipped. */
  lemma {:induction false} SessionDaysComplete(start: int, n: nat, d: int)
    requires n > 0 && start <= d <= SessionDays(start, n)[n - 1] && IsSessionDay(d)
    ensures d in SessionDays(start, n)
    decreases n, GapToSessionDay(start)
  {
    GapStep(start);
    var days := SessionDays(start, n);
    if d == start {
      assert days[0] == start;
    } else if IsSessionDay(start) {
      var rest := SessionDays(start + 1, n - 1);
      assert days == [start] + rest;
      if n == 1 {
        assert false;
      } else {
        assert rest[n - 2] == days[n - 1];
        SessionDaysComplete(start + 1, n - 1, d);
      }
    } else {
      SessionDaysComplete(start + 1, n, d);
    }
  }

  /** Starting on a day that is not a session day picks the same days as starting the day after. */
  lemma SessionDaysSkip(start: int, n: nat)
    requires !IsSessionDay(start)
    ensures SessionDays(start, n) == SessionDays(start + 1, n)
  {
  }

  /**
   * The progress of a day-by-day walk picking session days: the days picked so far, followed by the next session
   * days from the cursor (or from `first`, while the cursor is still on a
   * today that is over), are the `wanted` days to pick.
   */
  predicate Progress(first: int, wanted: nat, days: seq<int>, copy: int) {
    && |days| <= wanted
    && var cursor := if copy < first then first else copy;
      SessionDays(first, wanted) == days + SessionDays(cursor, wanted - |days|)
  }

/** Nothing picked yet, with the cursor not past `first`. */
  lemma ProgressStart(first: int, wanted: nat, copy: int)
    requires copy <= first
    ensures Progress(first, wanted, [], copy)
  {
    assert [] + SessionDays(first, wanted) == SessionDays(first, wanted);
  }

    /** While days remain to be picked, the cursor has not passed the next one. */
  lemma ProgressBound(first: int, wanted: nat, days: seq<int>, copy: int)
    requires Progress(first, wanted, days, copy) && |days| < wanted
    ensures copy <= first + 4 * wanted - 1
  {
    var cursor := if copy < first then first else copy;
    var rest := SessionDays(cursor, wanted - |days|);
    SessionDaysFacts(cursor, wanted - |days|);
    SessionDaysFacts(first, wanted);
    assert rest[0] == SessionDays(first, wanted)[|days|];
  }

  /** Moving the cursor past a day that is not picked keeps the progress. */
  lemma ProgressSkip(first: int, wanted: nat, days: seq<int>, copy: int)
    requires Progress(first, wanted, days, copy)
    requires !IsSessionDay(copy) || copy < first
    requires copy + 1 >= first
    ensures Progress(first, wanted, days, copy + 1)
  {
    if copy >= first {
      SessionDaysSkip(copy, wanted - |days|);
    }
  }

  /** Once `wanted` days are listed, they are the calendar's first `wanted` session days. */
  lemma ProgressDone(first: int, wanted: nat, days: seq<int>, copy: int)
    requires Progress(first, wanted, days, copy) && |days| == wanted
    ensures days == SessionDays(first, wanted)
  {
    assert SessionDays(first, wanted) == days + [];
  }

  /** Picking the cursor's day when it is a session day at or after `first` keeps the progress. */
  lemma ProgressPush(first: int, wanted: nat, days: seq<int>, copy: int)
    requires Progress(first, wanted, days, copy) && |days| < wanted
    requires IsSessionDay(copy) && first <= copy
    ensures Progress(first, wanted, days + [copy], copy + 1)
  {
    var m := wanted - |days|;
    assert SessionDays(copy, m) == [copy] + SessionDays(copy + 1, m - 1);
    assert days + SessionDays(copy, m) == (days + [copy]) + SessionDays(copy + 1, m - 1);
  }

  lemma ProgressPushed(first: int, wanted: nat, days: seq<int>, copy: int, after: seq<int>)
    requires Progress(first, wanted, days, copy) && |days| < wanted
    requires IsSessionDay(copy) && first <= copy
    requires after == days + [copy]
    ensures Progress(first, wanted, after, copy + 1)
  {
    ProgressPush(first, wanted, days, copy);
  }

  // ---- Calendar dates and getDateString ----

  /** A proleptic Gregorian date; `month` is 1-based (`getMonth() + 1`). */
  datatype CalendarDate = CalendarDate(year: int, month: int, day: int)

  predicate IsLeapYear(y: int) {
    y % 4 == 0 && (y % 100 != 0 || y % 400 == 0)
  }

  function DaysInMonth(y: int, m: int): (n: int)
    requires 1 <= m <= 12
    ensures 28 <= n <= 31
  {
    if m == 2 then (if IsLeapYear(y) then 29 else 28)
    else if m == 4 || m == 6 || m == 9 || m == 11 then 30
    else 31
  }

  predicate ValidDate(c: CalendarDate) {
    1 <= c.month <= 12 && 1 <= c.day <= DaysInMonth(c.year, c.month)
  }

  /** Chronological order of dates: by year, then month, then day. */
  predicate DateBefore(a: CalendarDate, b: CalendarDate) {
    a.year < b.year
    || (a.year == b.year && a.month < b.month)
    || (a.year == b.year && a.month == b.month && a.day < b.day)
  }

  /** `date.setDate(date.getDate() + 1)`. */
  function NextDay(c: CalendarDate): (r: CalendarDate)
    requires ValidDate(c)
    ensures ValidDate(r) && DateBefore(c, r)
    ensures r.year == c.year || r.year == c.year + 1
  {
    if c.day < DaysInMonth(c.year, c.month) then CalendarDate(c.year, c.month, c.day + 1)
    else if c.month < 12 then CalendarDate(c.year, c.month + 1, 1)
    else CalendarDate(c.year + 1, 1, 1)
  }

  const Epoch: CalendarDate := CalendarDate(1970, 1, 1)

  /** The calendar date of day number `d`. */
  function Civil(d: nat): (c: CalendarDate)
    ensures ValidDate(c) && c.year >= 1970
  {
    if d == 0 then Epoch else NextDay(Civil(d - 1))
  }

  /** Later day numbers have later calendar dates. */
  lemma {:induction false} CivilIncreasing(d1: nat, d2: nat)
    requires d1 < d2
    ensures DateBefore(Civil(d1), Civil(d2))
    decreases d2
  {
    if d1 < d2 - 1 {
      CivilIncreasing(d1, d2 - 1);
    }
  }

  lemma CivilYearMonotone(d1: nat, d2: nat)
    requires d1 <= d2
    ensures Civil(d1).year <= Civil(d2).year
  {
    if d1 < d2 {
      CivilIncreasing(d1, d2);
    }
  }

  /** `getDateString(date)`: `${year}-${month padded to 2}-${day padded to 2}`. */
  function DateString(c: CalendarDate): string
    requires c.year >= 0 && c.month >= 0 && c.day >= 0
  {
    DecimalString(c.year) + "-" + PadStartZero(DecimalString(c.month), 2) + "-" + PadStartZero(DecimalString(c.day), 2)
  }

  /** `getDateString` of the date with day number `d`. */
  function GetDateString(d: nat): string {
    DateString(Civil(d))
  }

  predicate FourDigitYear(c: CalendarDate) {
    1000 <= c.year <= 9999
  }

  /** For a valid date with a 4-digit year, the string is `YYYY-MM-DD` in fixed places. */
  lemma DateStringLayout(c: CalendarDate)
    requires ValidDate(c) && FourDigitYear(c)
    ensures DateString(c) == FixedDigits(c.year, 4) + ("-" + (FixedDigits(c.month, 2) + ("-" + FixedDigits(c.day, 2))))
  {
    var y, m, d := DecimalString(c.year), PadStartZero(DecimalString(c.month), 2), PadStartZero(DecimalString(c.day), 2);
    DecimalStringFixed(c.year, 4);
    PaddedTwoDigits(c.month);
    PaddedTwoDigits(c.day);
    assert DateString(c) == y + "-" + m + "-" + d;
    Associate(y, "-", m, "-", d);
  }

  /** Where the three fields sit in a `YYYY-MM-DD` string. */
  lemma Fields(y: string, m: string, d: string)
    requires |y| == 4 && |m| == 2 && |d| == 2
    ensures var s := y + ("-" + (m + ("-" + d)));
      |s| == 10 && s[..4] == y && s[4] == '-' && s[5..7] == m && s[7] == '-' && s[8..] == d
  {
    var s := y + ("-" + (m + ("-" + d)));
    assert s[5..7] == m by {
      forall k | 0 <= k < 2 ensures s[5 + k] == m[k] { }
    }
    assert s[8..] == d by {
      forall k | 0 <= k < 2 ensures s[8 + k] == d[k] { }
    }
  }

  lemma Associate(a: string, b: string, c: string, d: string, e: string)
    ensures a + b + c + d + e == a + (b + (c + (d + e)))
  {
  }

  /**
   * For valid dates with 4-digit years, comparing `getDateString` results as
   * strings agrees with chronological order, and equal strings mean equal dates.
   */
  lemma DateStringOrder(a: CalendarDate, b: CalendarDate)
    requires ValidDate(a) && ValidDate(b) && FourDigitYear(a) && FourDigitYear(b)
    ensures StrLess(DateString(a), DateString(b)) <==> DateBefore(a, b)
    ensures DateString(a) == DateString(b) <==> a == b
  {
    DateStringLayout(a);
    DateStringLayout(b);
    var ya, yb := FixedDigits(a.year, 4), FixedDigits(b.year, 4);
    var ma, mb := FixedDigits(a.month, 2), FixedDigits(b.month, 2);
    var da, db := FixedDigits(a.day, 2), FixedDigits(b.day, 2);
    FixedDigitsOrder(a.year, b.year, 4);
    FixedDigitsOrder(a.month, b.month, 2);
    FixedDigitsOrder(a.day, b.day, 2);
    var ra, rb := "-" + (ma + ("-" + da)), "-" + (mb + ("-" + db));
    StrLessConcat(ya, ra, yb, rb);
    StrLessConcat("-", ma + ("-" + da), "-", mb + ("-" + db));
    StrLessConcat(ma, "-" + da, mb, "-" + db);
    StrLessConcat("-", da, "-", db);
    SplitEqual(ya, ra, yb, rb);
    SplitEqual("-", ma + ("-" + da), "-", mb + ("-" + db));
    SplitEqual(ma, "-" + da, mb, "-" + db);
    SplitEqual("-", da, "-", db);
  }

  lemma SplitEqual(p: string, s: string, q: string, t: string)
    requires |p| == |q|
    ensures p + s == q + t <==> p == q && s == t
  {
    if p + s == q + t {
      assert p == (p + s)[..|p|] && q == (q + t)[..|q|];
      assert s == (p + s)[|p|..] && t == (q + t)[|q|..];
    }
  }

  /** Reads the year, month and day back out of a `YYYY-MM-DD` string. */
  function ParseDateString(s: string): (c: CalendarDate)
    requires |s| == 10 && forall k :: 0 <= k < 10 && k != 4 && k != 7 ==> IsDigit(s[k])
  {
    CalendarDate(DigitsValue(s[..4]), DigitsValue(s[5..7]), DigitsValue(s[8..]))
  }

  lemma {:induction false} FixedDigitsValue(n: nat, width: nat)
    requires n < Pow10(width)
    ensures DigitsValue(FixedDigits(n, width)) == n
  {
    if width > 0 {
      FixedDigitsValue(n / 10, width - 1);
      var s := FixedDigits(n, width);
      assert s[..|s| - 1] == FixedDigits(n / 10, width - 1);
      DigitRoundTrip(n % 10);
    }
  }

  lemma DigitRoundTrip(k: nat)
    requires k < 10
    ensures DigitValue(DigitChar(k)) == k
  {
  }

  /** `getDateString` loses nothing: its result parses back to the same date. */
  lemma DateStringRoundTrip(c: CalendarDate)
    requires ValidDate(c) && FourDigitYear(c)
    ensures var s := DateString(c);
      |s| == 10 && s[4] == '-' && s[7] == '-'
      && (forall k :: 0 <= k < 10 && k != 4 && k != 7 ==> IsDigit(s[k]))
      && ParseDateString(s) == c
  {
    DateStringLayout(c);
    var s := DateString(c);
    var y, m, d := FixedDigits(c.year, 4), FixedDigits(c.month, 2), FixedDigits(c.day, 2);
    Fields(y, m, d);
    FixedDigitsValue(c.year, 4);
    FixedDigitsValue(c.month, 2);
    FixedDigitsValue(c.day, 2);
  }
}
