/**
 * The upcoming-session list the frontend shows (frontend/src/lib/sessions.js):
 * `getUpcomingSessions` walks a date cursor forward from now, one day at a
 * time, and keeps the Mondays and Fridays that are not already over.
 *
 * The clock is an input: `now` is today's day number and `currentHour`,
 * `currentMinutes` the local time; `clock` stands for `Date.now()`.
 */
module Sessions {
  import opened JsString
  import opened Calendar

  const SessionTime: string := "11:20 AM - 1:05 PM EST"
  const Available: string := "0/100"

  /** One entry of the list; `day` is the day number of `dateObj` (the locale `date` text is not modelled). */
  datatype UpcomingSession = UpcomingSession(
    id: int, day: int, weekday: string, time: string, available: string, today: bool, tomorrow: bool)

  /** The fields of a listed session with id `id`, as `today` is day `now`. */
  predicate Listed(session: UpcomingSession, id: int, now: int) {
    && session.id == id
    && session.weekday == SessionDayName(session.day)
    && session.time == SessionTime && session.available == Available
    && (session.today <==> session.day == now)
    && (session.tomorrow <==> session.day == now + 1)
  }

  /** Whether today's session has started: 13:05 local time or later. */
  predicate AfterCutoff(currentHour: int, currentMinutes: int) {
    currentHour > 13 || (currentHour == 13 && currentMinutes >= 5)
  }

  /** The first day that can still hold a listed session. */
  function FirstDay(now: nat, currentHour: int, currentMinutes: int): nat {
    if AfterCutoff(currentHour, currentMinutes) then now + 1 else now
  }

  /** The entry the loop pushes for session day `d` with id `id`. */
  function Entry(id: int, d: int, now: int): UpcomingSession {
    UpcomingSession(id, d, SessionDayName(d), SessionTime, Available, d == now, d == now + 1)
  }

  /** The entries for the days `days`, with ids counting up from `clock`. */
  function Entries(days: seq<int>, clock: int, now: int): (sessions: seq<UpcomingSession>)
    ensures |sessions| == |days|
  {
    seq(|days|, k requires 0 <= k < |days| => Entry(clock + k, days[k], now))
  }

  /** `count`, or 0 when it is not positive: how many times `sessions.length < count` lets the loop push. */
  function Wanted(count: int): nat {
    if count > 0 then count else 0
  }

  /** The session days the list holds for a clock reading: the first `count` Mondays and Fridays from `FirstDay`. */
  function UpcomingDays(now: nat, currentHour: int, currentMinutes: int, count: int): (days: seq<int>)
    ensures |days| == Wanted(count)
  {
    SessionDays(FirstDay(now, currentHour, currentMinutes), Wanted(count))
  }

  /** The years the cursor can reach all have four digits, so date strings compare like dates. */
  predicate FourDigitHorizon(now: nat, count: int) {
    Civil(now + 4 + 4 * Wanted(count)).year <= 9999
  }

  /** For days in the four-digit range, `getDateString` is injective and never puts a later day first. */
  lemma DayStrings(a: nat, b: nat, horizon: nat)
    requires a <= b <= horizon && Civil(horizon).year <= 9999
    ensures !StrLess(GetDateString(b), GetDateString(a))
    ensures GetDateString(a) == GetDateString(b) <==> a == b
  {
    CivilYearMonotone(a, horizon);
    CivilYearMonotone(b, horizon);
    DateStringOrder(Civil(b), Civil(a));
    if a < b {
      CivilIncreasing(a, b);
    }
  }

  /**
   * `getUpcomingSessions(count)`: the entries for the first `count` Mondays
   * and Fridays from `FirstDay`. The `sessionDateString < todayDateString`
   * test never fires, since the cursor never goes behind today.
   */
  method GetUpcomingSessions(now: nat, currentHour: int, currentMinutes: int, count: int, clock: int)
    returns (sessions: seq<UpcomingSession>)
    requires FourDigitHorizon(now, count)
    ensures sessions == Entries(UpcomingDays(now, currentHour, currentMinutes, count), clock, now)
  {
    var first := FirstDay(now, currentHour, currentMinutes);
    var wanted := Wanted(count);
    var copy := now;
    sessions := [];
    ghost var days: seq<int> := [];
    ProgressStart(first, wanted, copy);
    while |sessions| < count
      invariant now <= copy && |days| <= wanted
      invariant copy < first ==> copy == now && first == now + 1
      invariant Progress(first, wanted, days, copy)
      invariant sessions == Entries(days, clock, now)
      decreases wanted - |days|, first + 4 * wanted - copy
    {
      ProgressBound(first, wanted, days, copy);
      var dayOfWeek := Weekday(copy);
      if dayOfWeek == 1 || dayOfWeek == 5 {
        var isToday, isTomorrow, isPast := CompareDateStrings(now, copy, count);
        if isToday && AfterCutoff(currentHour, currentMinutes) {
          ProgressSkip(first, wanted, days, copy);
          copy := copy + 1;
          continue;
        }
        if isPast {
          copy := copy + 1;
          continue;
        }
        var session := UpcomingSession(
          clock + |sessions|, copy, if dayOfWeek == 1 then "Monday" else "Friday",
          SessionTime, Available, isToday, isTomorrow);
        PushEntry(first, wanted, days, copy, clock, now);
        sessions := sessions + [session];
        days := days + [copy];
      } else {
        ProgressSkip(first, wanted, days, copy);
      }
      copy := copy + 1;
    }
    ProgressDone(first, wanted, days, copy);
  }

  /**
   * The date-string tests of one loop iteration: `isToday` and `isTomorrow`
   * compare the cursor's `getDateString` with today's and tomorrow's, and
   * `isPast` is `sessionDateString < todayDateString`. Within the four-digit
   * horizon they mean what they say about the day numbers.
   */
  method CompareDateStrings(now: nat, copy: nat, count: int) returns (isToday: bool, isTomorrow: bool, isPast: bool)
    requires FourDigitHorizon(now, count) && now <= copy <= now + 4 + 4 * Wanted(count)
    ensures isToday <==> copy == now
    ensures isTomorrow <==> copy == now + 1
    ensures !isPast
  {
    var todayDateString := GetDateString(now);
    var tomorrowDateString := GetDateString(now + 1);
    var sessionDateString := GetDateString(copy);
    CursorStrings(now, copy, now + 4 + 4 * Wanted(count));
    isToday := sessionDateString == todayDateString;
    isTomorrow := sessionDateString == tomorrowDateString;
    isPast := StrLess(sessionDateString, todayDateString);
  }

  /** What the three date-string tests mean for a cursor between today and the horizon. */
  lemma CursorStrings(now: nat, copy: nat, horizon: nat)
    requires now < horizon && now <= copy <= horizon && Civil(horizon).year <= 9999
    ensures GetDateString(copy) == GetDateString(now) <==> copy == now
    ensures GetDateString(copy) == GetDateString(now + 1) <==> copy == now + 1
    ensures !StrLess(GetDateString(copy), GetDateString(now))
  {
    DayStrings(now, copy, horizon);
    if copy == now {
      DayStrings(now, now + 1, horizon);
    } else if copy > now + 1 {
      DayStrings(now + 1, copy, horizon);
    }
  }

  /**
   * The list has `count` entries (none for a non-positive count); each has its
   * id, weekday label, time, availability and today/tomorrow flags, falls on
   * a Monday or Friday no earlier than today, and is today only before 13:05;
   * the days strictly increase.
   */
  lemma UpcomingSessionsFacts(now: nat, currentHour: int, currentMinutes: int, count: int, clock: int)
    ensures var sessions := Entries(UpcomingDays(now, currentHour, currentMinutes, count), clock, now);
      && |sessions| == Wanted(count)
      && (forall k :: 0 <= k < |sessions| ==>
            && Listed(sessions[k], clock + k, now)
            && IsSessionDay(sessions[k].day) && now <= sessions[k].day
            && (sessions[k].day == now ==> !AfterCutoff(currentHour, currentMinutes)))
      && (forall i, j :: 0 <= i < j < |sessions| ==> sessions[i].day < sessions[j].day)
  {
    SessionDaysFacts(FirstDay(now, currentHour, currentMinutes), Wanted(count));
  }

  /** No Monday or Friday from the first listable day up to the last listed one is missing. */
  lemma UpcomingSessionsComplete(now: nat, currentHour: int, currentMinutes: int, count: int, clock: int, d: int)
    requires var sessions := Entries(UpcomingDays(now, currentHour, currentMinutes, count), clock, now);
      sessions != [] && FirstDay(now, currentHour, currentMinutes) <= d <= sessions[|sessions| - 1].day
      && IsSessionDay(d)
    ensures exists k :: 0 <= k < Wanted(count) && Entries(UpcomingDays(now, currentHour, currentMinutes, count), clock, now)[k].day == d
  {
    var days := UpcomingDays(now, currentHour, currentMinutes, count);
    SessionDaysComplete(FirstDay(now, currentHour, currentMinutes), Wanted(count), d);
    var k :| 0 <= k < |days| && days[k] == d;
    assert Entries(days, clock, now)[k].day == d;
  }

  /** Pushing the cursor's entry keeps the progress invariant and extends the entries by its day. */
  lemma PushEntry(first: int, wanted: nat, days: seq<int>, copy: int, clock: int, now: int)
    requires Progress(first, wanted, days, copy) && |days| < wanted
    requires IsSessionDay(copy) && first <= copy
    ensures Progress(first, wanted, days + [copy], copy + 1)
    ensures Entries(days, clock, now) + [Entry(clock + |days|, copy, now)] == Entries(days + [copy], clock, now)
  {
    ProgressPush(first, wanted, days, copy);
  }
}
