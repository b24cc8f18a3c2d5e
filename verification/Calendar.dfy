/**
 The session calendar a set of bars implies: the dates that have a bar, and what lies between them.
 */
module Calendar {
  import opened Options
  import opened Ordering

  /** Python's proleptic ordinal: day 1 is a Monday. */
  predicate IsFriday(day: int) {
    day % 7 == 5
  }

  predicate IsWeekend(day: int) {
    IsFriday(day - 1) || IsFriday(day - 2)
  }

  /** Of every week, which begins on a Monday, exactly the sixth and the seventh day are weekend. */
  lemma {:induction false} WeekendIs(week: int, weekday: nat)
    requires weekday < 7
    ensures IsWeekend(7 * week + 1 + weekday) <==> weekday >= 5
  {
    assert (7 * week + weekday) % 7 == weekday;
    assert (7 * week + weekday - 1) % 7 == if weekday == 0 then 6 else weekday - 1;
  }

  datatype SessionCalendar = SessionCalendar(sessions: seq<int>, first: Option<int>, last: Option<int>,
                                             daysSpanned: nat, weekdayGaps: seq<int>, weekendSkipped: nat)

  /** The days from `first` up to and including `upTo` without a session. */
  ghost predicate Missing(day: int, first: int, upTo: int, sessions: seq<int>) {
    first <= day <= upTo && day !in sessions
  }

  ghost function WeekendDays(first: int, upTo: int, sessions: seq<int>): set<int> {
    set day | first <= day <= upTo && day !in sessions && IsWeekend(day)
  }

  /** The gaps and the weekend count describe the days up to and including `upTo`. */
  ghost predicate Tallied(gaps: seq<int>, weekend: nat, first: int, upTo: int, sessions: seq<int>) {
    && Ascending(gaps) && (forall day :: day in gaps <==> Missing(day, first, upTo, sessions) && !IsWeekend(day))
    && weekend == |WeekendDays(first, upTo, sessions)|
  }

  lemma TallyDay(gaps: seq<int>, weekend: nat, first: int, day: int, sessions: seq<int>)
    requires first < day && Tallied(gaps, weekend, first, day - 1, sessions)
    ensures day in sessions ==> Tallied(gaps, weekend, first, day, sessions)
    ensures day !in sessions && IsWeekend(day) ==> Tallied(gaps, weekend + 1, first, day, sessions)
    ensures day !in sessions && !IsWeekend(day) ==> Tallied(gaps + [day], weekend, first, day, sessions)
  {
    assert forall i :: 0 <= i < |gaps| ==> gaps[i] in gaps;
    assert WeekendDays(first, day, sessions) == WeekendDays(first, day - 1, sessions)
      + if day !in sessions && IsWeekend(day) then {day} else {};
  }

  lemma NotBetween(sessions: seq<int>, i: nat, day: int)
    requires Ascending(sessions) && i + 1 < |sessions| && sessions[i] < day < sessions[i + 1]
    ensures day !in sessions
  {}

  /** `_session_calendar`.  Every day of the span is a session, a listed weekday gap or a counted
      weekend day, and only one of them. */
  method ImpliedCalendar(bars: seq<int>) returns (c: SessionCalendar)
    ensures c.sessions == Dates(bars) && Ascending(c.sessions)
    ensures bars == [] ==> c == SessionCalendar([], None, None, 0, [], 0)
    ensures bars != [] ==>
      c.sessions != [] && c.first == Some(c.sessions[0]) && c.last == Some(c.sessions[|c.sessions| - 1])
    ensures bars != [] ==> c.daysSpanned == c.last.value - c.first.value + 1
    ensures c.daysSpanned == |c.sessions| + |c.weekdayGaps| + c.weekendSkipped
    ensures bars != [] ==> Tallied(c.weekdayGaps, c.weekendSkipped, c.first.value, c.last.value, c.sessions)
  {
    var sessions := Dates(bars);
    DatesAscend(bars);
    if sessions == [] {
      return SessionCalendar([], None, None, 0, [], 0);
    }
    var gaps, weekend := [], 0;
    ghost var first := sessions[0];
    assert WeekendDays(first, first, sessions) == {};
    for i := 0 to |sessions| - 1
      invariant Tallied(gaps, weekend, first, sessions[i], sessions)
      invariant sessions[i] - first + 1 == i + 1 + |gaps| + weekend
    {
      for day := sessions[i] + 1 to sessions[i + 1]
        invariant Tallied(gaps, weekend, first, day - 1, sessions)
        invariant day - first == i + 1 + |gaps| + weekend
      {
        NotBetween(sessions, i, day);
        TallyDay(gaps, weekend, first, day, sessions);
        if IsWeekend(day) {
          weekend := weekend + 1;
        } else {
          gaps := gaps + [day];
        }
      }
      TallyDay(gaps, weekend, first, sessions[i + 1], sessions);
    }
    c := SessionCalendar(sessions, Some(sessions[0]), Some(sessions[|sessions| - 1]),
                         sessions[|sessions| - 1] - sessions[0] + 1, gaps, weekend);
  }
}
