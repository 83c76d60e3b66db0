/**
 * The nightly session top-up (backend/src/utils/sessionGenerator.js): delete
 * every session dated before today, then create Monday and Friday sessions
 * after the latest remaining one until eight future sessions exist.
 *
 * The session table is the `sessions` field of a `SessionStore`; dates are day
 * numbers at local midnight and `today` is the day number of `new Date()`.
 */
module SessionGenerator {
  import opened Calendar

  /** A row of the session table. */
  datatype StoredSession = StoredSession(
    date: int, dayOfWeek: string, startTime: string, endTime: string, timezone: string)

  /** How many future sessions the generator keeps in stock. */
  const Target: nat := 8

  /** The row the generator creates for session day `d`. */
  function Generated(d: int): (s: StoredSession)
    ensures s.date == d
  {
    StoredSession(d, SessionDayName(d), "11:45 AM", "1:05 PM", "EST")
  }

  /** The rows created for the days `days`, in order. */
  function GeneratedRows(days: seq<int>): (rows: seq<StoredSession>)
    ensures |rows| == |days|
  {
    seq(|days|, k requires 0 <= k < |days| => Generated(days[k]))
  }

  /** The rows `deleteMany({date: {lt: today}})` leaves, in table order. */
  function Kept(sessions: seq<StoredSession>, today: int): (kept: seq<StoredSession>)
    ensures |kept| <= |sessions|
    ensures forall s :: s in kept <==> s in sessions && s.date >= today
  {
    if sessions == [] then []
    else
      var last := sessions[|sessions| - 1];
      Kept(sessions[..|sessions| - 1], today) + (if last.date >= today then [last] else [])
  }

  /** The latest date among `sessions`: the date of the last row of the ascending `findMany`. */
  function MaxDate(sessions: seq<StoredSession>): (m: int)
    requires sessions != []
    ensures exists s :: s in sessions && s.date == m
    ensures forall s :: s in sessions ==> s.date <= m
  {
    var last := sessions[|sessions| - 1];
    if |sessions| == 1 then last.date
    else
      var rest := MaxDate(sessions[..|sessions| - 1]);
      assert forall s :: s in sessions ==> s in sessions[..|sessions| - 1] || s == last;
      if last.date > rest then last.date else rest
  }

  /** `startDate`: today with no future session left, else the day after the latest one. */
  function StartDay(kept: seq<StoredSession>, today: int): int {
    if kept == [] then today else MaxDate(kept) + 1
  }

  /** How many sessions the `while` loop creates: up to eight in all, none when eight remain. */
  function Needed(kept: seq<StoredSession>): nat {
    if |kept| < Target then Target - |kept| else 0
  }

  /** The rows a run on day `today` creates. */
  function Created(sessions: seq<StoredSession>, today: int): seq<StoredSession> {
    var kept := Kept(sessions, today);
    GeneratedRows(SessionDays(StartDay(kept, today), Needed(kept)))
  }

  /** The table after a run on day `today`. */
  function AfterGeneration(sessions: seq<StoredSession>, today: int): seq<StoredSession> {
    Kept(sessions, today) + Created(sessions, today)
  }

  /** Whether `findFirst` finds a row on day `d`. */
  predicate HasSessionOn(sessions: seq<StoredSession>, d: int) {
    exists s :: s in sessions && s.date == d
  }

  /** The first session day is no earlier than today and later than every remaining session. */
  lemma StartDayAfterKept(sessions: seq<StoredSession>, today: int)
    ensures var kept := Kept(sessions, today);
      today <= StartDay(kept, today) && forall s :: s in kept ==> s.date < StartDay(kept, today)
  {
    var kept := Kept(sessions, today);
    if kept != [] {
      var s :| s in kept && s.date == MaxDate(kept);
    }
  }

  /**
   * Each created row is a Monday or Friday session at 11:45 AM-1:05 PM EST, on
   * or after today and after every remaining session, in increasing date order.
   */
  lemma CreatedRows(sessions: seq<StoredSession>, today: int)
    ensures var kept := Kept(sessions, today);
      var created := Created(sessions, today);
      && |created| == Needed(kept)
      && (forall k :: 0 <= k < |created| ==>
            && IsSessionDay(created[k].date)
            && created[k].dayOfWeek == SessionDayName(created[k].date)
            && created[k].startTime == "11:45 AM" && created[k].endTime == "1:05 PM"
            && created[k].timezone == "EST"
            && today <= created[k].date
            && (forall s :: s in kept ==> s.date < created[k].date))
      && (forall i, j :: 0 <= i < j < |created| ==> created[i].date < created[j].date)
  {
    var kept := Kept(sessions, today);
    var start := StartDay(kept, today);
    StartDayAfterKept(sessions, today);
    SessionDaysFacts(start, Needed(kept));
  }

  /**
   * A run deletes exactly the past sessions, keeps every future one, and leaves
   * eight rows when fewer than eight remained (all of them otherwise).
   */
  lemma AfterGenerationFacts(sessions: seq<StoredSession>, today: int)
    ensures var after := AfterGeneration(sessions, today);
      && (forall s :: s in after ==> s.date >= today)
      && (forall s :: s in sessions && s.date >= today ==> s in after)
      && |after| == if |Kept(sessions, today)| < Target then Target else |Kept(sessions, today)|
  {
    var kept := Kept(sessions, today);
    var created := Created(sessions, today);
    var after := AfterGeneration(sessions, today);
    CreatedRows(sessions, today);
    forall s | s in after ensures s.date >= today {
      if s !in kept {
        var k :| 0 <= k < |created| && created[k] == s;
      }
    }
  }

  /** The computation of `startDate` from the rows left after the deletion, in ascending date order. */
  method FirstDate(currSessions: seq<StoredSession>, today: int) returns (startDate: int)
    ensures startDate == StartDay(currSessions, today)
  {
    startDate := today;
    if |currSessions| > 0 {
      startDate := MaxDate(currSessions) + 1;
    }
  }

  /** The session table. */
  class SessionStore {
    var sessions: seq<StoredSession>

    constructor(initial: seq<StoredSession>)
      ensures sessions == initial
    {
      sessions := initial;
    }

    /** `sessionGenerator()` on day `today`: the deletion, then the top-up. */
    method Generate(today: int)
      modifies this
      ensures sessions == AfterGeneration(old(sessions), today)
    {
      DeletePast(today);
      TopUp(today);
    }

    /** `deleteMany({where: {date: {lt: today}}})`. */
    method DeletePast(today: int)
      modifies this
      ensures sessions == Kept(old(sessions), today)
    {
      sessions := Kept(sessions, today);
    }

    /**
     * The `while` loop of `sessionGenerator()` over the remaining rows. The
     * existence check before each create never finds a row: the cursor is
     * always past every date in the table.
     */
    method TopUp(today: int)
      modifies this
      ensures sessions == old(sessions) + GeneratedRows(SessionDays(StartDay(old(sessions), today), Needed(old(sessions))))
    {
      var currSessions := sessions;
      var startDate := FirstDate(currSessions, today);
      var currentDate := startDate;
      var sessionsCreated := 0;
      ghost var needed := Needed(currSessions);
      ghost var createdDays: seq<int> := [];
      ProgressStart(startDate, needed, currentDate);
      while |currSessions| + sessionsCreated < Target
        invariant sessionsCreated == |createdDays| <= needed
        invariant startDate <= currentDate
        invariant Progress(startDate, needed, createdDays, currentDate)
        invariant sessions == currSessions + GeneratedRows(createdDays)
        invariant forall s :: s in sessions ==> s.date < currentDate
        decreases needed - sessionsCreated, startDate + 4 * needed - currentDate
      {
        ProgressBound(startDate, needed, createdDays, currentDate);
        var dayOfWeek := Weekday(currentDate);
        if dayOfWeek == 1 || dayOfWeek == 5 {
          var existingSession := HasSessionOn(sessions, currentDate);
          assert !existingSession;
          if !existingSession {
            CreateStep(currSessions, sessions, startDate, needed, createdDays, currentDate);
            sessions := sessions + [Generated(currentDate)];
            createdDays := createdDays + [currentDate];
            sessionsCreated := sessionsCreated + 1;
          }
        } else {
          ProgressSkip(startDate, needed, createdDays, currentDate);
        }
        currentDate := currentDate + 1;
      }
      ProgressDone(startDate, needed, createdDays, currentDate);
    }
  }

  /**
   * Creating the row for session day `d` keeps the loop's invariants: the
   * created days still follow the session calendar, the table is the kept
   * rows then the created ones, and every date is before the next cursor.
   */
  lemma CreateStep(kept: seq<StoredSession>, sessions: seq<StoredSession>, start: int, needed: nat,
                   days: seq<int>, d: int)
    requires Progress(start, needed, days, d) && |days| < needed
    requires IsSessionDay(d) && start <= d
    requires sessions == kept + GeneratedRows(days)
    requires forall s :: s in sessions ==> s.date < d
    ensures Progress(start, needed, days + [d], d + 1)
    ensures sessions + [Generated(d)] == kept + GeneratedRows(days + [d])
    ensures forall s :: s in sessions + [Generated(d)] ==> s.date < d + 1
  {
    ProgressPush(start, needed, days, d);
    CreateKeepsOrder(kept, days, d);
  }

  /** Appending the row for `d` extends the generated rows by that day. */
  lemma CreateKeepsOrder(kept: seq<StoredSession>, days: seq<int>, d: int)
    ensures kept + GeneratedRows(days + [d]) == (kept + GeneratedRows(days)) + [Generated(d)]
  {
    assert GeneratedRows(days + [d]) == GeneratedRows(days) + [Generated(d)];
  }
}
