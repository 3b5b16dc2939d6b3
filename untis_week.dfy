/** A school week as the client stores it (src/untis/untis_week.rs): the
    Monday and the Friday as `%Y-%m-%d` strings. Today's date, which the
    source reads from the local clock, is a parameter. */
module UntisWeek {
  import opened Wrappers
  import opened Text
  import opened Calendar

  datatype Week = Week(start: string, end: string)

  /** The week starting on day `monday` and ending four days later. */
  function Spanning(monday: int): Week {
    Week(Format(monday), Format(monday + 4))
  }

  /** `day + Duration::weeks(weeks)`. */
  function WeeksLater(day: int, weeks: int): int {
    day + 7 * weeks
  }

  /** `Week::from_date`. */
  function FromDate(date: int): Week {
    Spanning(MondayOf(date))
  }

  /** `Week::current_plus(offset)`, with today given. */
  function CurrentPlus(offset: int, today: int): Week {
    Spanning(WeeksLater(MondayOf(today), offset))
  }

  /** `Week::current()`. */
  function Current(today: int): Week {
    CurrentPlus(0, today)
  }

  /** The day `shift_weeks` counts from: the parsed start, or today when the
      start does not parse. */
  function ShiftStart(w: Week, today: int): int {
    Parse(w.start).GetOr(today)
  }

  /** `shift_weeks`: the week starting whole weeks after `ShiftStart`, its end
      four days after its new start. */
  function ShiftWeeks(w: Week, weeks: int, today: int): Week {
    Spanning(WeeksLater(ShiftStart(w, today), weeks))
  }

  function Next(w: Week, today: int): Week {
    ShiftWeeks(w, 1, today)
  }

  function Previous(w: Week, today: int): Week {
    ShiftWeeks(w, -1, today)
  }

  /** Moving by no weeks stays put; moving one week on and one back, or back
      and on, returns to the start; moving keeps the weekday. */
  lemma WeeksLaterLaws(day: int)
    ensures WeeksLater(day, 0) == day
    ensures WeeksLater(WeeksLater(day, 1), -1) == day
    ensures WeeksLater(WeeksLater(day, -1), 1) == day
  {
  }

  lemma WeeksLaterWeekday(day: int, weeks: int)
    ensures DaysFromMonday(WeeksLater(day, weeks)) == DaysFromMonday(day)
  {
    WeekdayPeriodic(day, weeks);
  }

  /** A week written by the model parses back to its Monday and its Friday. */
  lemma SpanningParses(monday: int)
    requires FourDigitYear(monday) && FourDigitYear(monday + 4)
    ensures Parse(Spanning(monday).start) == Some(monday)
    ensures Parse(Spanning(monday).end) == Some(monday + 4)
  {
    ParseFormat(monday);
    ParseFormat(monday + 4);
  }

  /** `shift_weeks` counts from the start when it parses and from today
      otherwise. */
  lemma ShiftStartCases(w: Week, today: int)
    ensures Parse(w.start).Some? ==> ShiftStart(w, today) == Parse(w.start).value
    ensures Parse(w.start).None? ==> ShiftStart(w, today) == today
  {
  }

  /** Shifting a week the model wrote moves its Monday by whole weeks. */
  lemma ShiftMovesStart(monday: int, weeks: int, today: int)
    requires FourDigitYear(monday) && FourDigitYear(monday + 4)
    ensures ShiftWeeks(Spanning(monday), weeks, today) == Spanning(WeeksLater(monday, weeks))
  {
    SpanningParses(monday);
  }

  /** A start that does not parse makes the shift count from today, whether
      or not today is a Monday. */
  lemma ShiftFallback(w: Week, weeks: int, today: int)
    requires Parse(w.start).None?
    ensures ShiftWeeks(w, weeks, today) == Spanning(WeeksLater(today, weeks))
  {
  }

  /** `previous` undoes `next`, and `next` undoes `previous`, for a week
      the model wrote. */
  lemma NextPrevious(monday: int, today: int)
    requires FourDigitYear(monday) && FourDigitYear(monday + 4)
    requires FourDigitYear(WeeksLater(monday, 1)) && FourDigitYear(WeeksLater(monday, 1) + 4)
    requires FourDigitYear(WeeksLater(monday, -1)) && FourDigitYear(WeeksLater(monday, -1) + 4)
    ensures Previous(Next(Spanning(monday), today), today) == Spanning(monday)
    ensures Next(Previous(Spanning(monday), today), today) == Spanning(monday)
  {
    WeeksLaterLaws(monday);
    ShiftMovesStart(monday, 1, today);
    ShiftMovesStart(WeeksLater(monday, 1), -1, today);
    ShiftMovesStart(monday, -1, today);
    ShiftMovesStart(WeeksLater(monday, -1), 1, today);
  }

  /** `current()` is the week of today. */
  lemma CurrentIsFromDate(today: int)
    ensures Current(today) == FromDate(today)
  {
    WeeksLaterLaws(MondayOf(today));
  }

  /** `current_plus(k)` is the current week shifted by `k` weeks, and
      starts on a Monday. */
  lemma CurrentPlusIsShift(offset: int, today: int)
    requires FourDigitYear(MondayOf(today)) && FourDigitYear(MondayOf(today) + 4)
    ensures CurrentPlus(offset, today) == ShiftWeeks(Current(today), offset, today)
    ensures DaysFromMonday(WeeksLater(MondayOf(today), offset)) == 0
  {
    CurrentIsFromDate(today);
    ShiftMovesStart(MondayOf(today), offset, today);
    WeeksLaterWeekday(MondayOf(today), offset);
  }

  /** `to_string`: "d.m - d.m" without zero padding; a start or end that
      does not parse (a panic in the source) gives `None`. */
  function ToString(w: Week): (r: Option<string>)
    ensures r.Some? <==> Parse(w.start).Some? && Parse(w.end).Some?
  {
    match (Parse(w.start), Parse(w.end))
    case (Some(s), Some(e)) =>
      var cs, ce := CivilFromDays(s), CivilFromDays(e);
      Some(NatToString(cs.day) + "." + NatToString(cs.month) + " - " + NatToString(ce.day) + "." + NatToString(ce.month))
    case _ => None
  }

  /** The label of a week the model wrote shows its Monday's and its
      Friday's day and month. */
  lemma ToStringOfSpanning(monday: int)
    requires FourDigitYear(monday) && FourDigitYear(monday + 4)
    ensures ToString(Spanning(monday)).Some?
    ensures var cs, ce := CivilFromDays(monday), CivilFromDays(monday + 4);
      ToString(Spanning(monday)).value
        == NatToString(cs.day) + "." + NatToString(cs.month) + " - " + NatToString(ce.day) + "." + NatToString(ce.month)
  {
    SpanningParses(monday);
  }

  /** `from_date` names the Monday on or before the date (at most six days
      earlier, by `MondayOf`'s contract) and the Friday after it. */
  lemma FromDateSpec(date: int)
    requires FourDigitYear(MondayOf(date)) && FourDigitYear(MondayOf(date) + 4)
    ensures Parse(FromDate(date).start) == Some(MondayOf(date))
    ensures Parse(FromDate(date).end) == Some(MondayOf(date) + 4)
  {
    var m := MondayOf(date);
    SpanningParses(m);
  }
}
