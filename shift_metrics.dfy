/** The metrics a punch-out derives from the punch pair: lateness,
    undertime, regular hours, overtime and night differential, against the
    fixed 09:00-18:00 schedule with a nine-hour regular cap. */
module ShiftMetrics {
  import opened Clock
  import NightDiff

  const SHIFT_START_HOUR: int := 9
  const SHIFT_END_HOUR: int := 18
  /** Nine hours, the most a day counts as regular time. */
  const REGULAR_CAP: int := 9 * HOUR

  /** The unrounded metrics of one shift, as the daily summary adds them and
      the breakdown row stores them: four exact durations in milliseconds,
      and the night differential, which is already rounded, in hundredths
      of an hour. */
  datatype Metrics = Metrics(
    regular: Millis,
    overtime: Millis,
    nightDiff: Hundredths,
    late: Millis,
    undertime: Millis)

  /** `schedStart`: 09:00 of the punch-in date, with the punch-in's
      milliseconds, which `setHours(9, 0, 0)` keeps. */
  function ScheduledStart(timeIn: Millis): (r: Millis)
    ensures Midnight(r) == Midnight(timeIn)
    ensures r == Midnight(timeIn) + 9 * HOUR + timeIn % SECOND
  {
    SetHoursKeepMillis(timeIn, SHIFT_START_HOUR)
  }

  /** `schedEnd`: 18:00 of the punch-in date, built the same way. */
  function ScheduledEnd(timeIn: Millis): (r: Millis)
    ensures Midnight(r) == Midnight(timeIn)
    ensures r == Midnight(timeIn) + 18 * HOUR + timeIn % SECOND
  {
    SetHoursKeepMillis(timeIn, SHIFT_END_HOUR)
  }

  /** `late`: how far the punch-in is past 09:00. It is never negative and
      is zero for a punch-in at or before 09:00. After 09:00 it is the time
      past 09:00 less the punch-in's sub-second part, which
      `setHours(9, 0, 0)` kept, so it is a whole number of seconds. */
  function Late(timeIn: Millis): (r: Millis)
    ensures r >= 0
    ensures timeIn <= Midnight(timeIn) + 9 * HOUR ==> r == 0
    ensures timeIn > Midnight(timeIn) + 9 * HOUR ==>
      r == timeIn - (Midnight(timeIn) + 9 * HOUR) - timeIn % SECOND
    ensures r % SECOND == 0
  {
    var q := timeIn / SECOND;
    assert timeIn == q * SECOND + timeIn % SECOND;
    var k := q - DayOf(timeIn) * 86400 - 32400;
    assert timeIn - ScheduledStart(timeIn) == k * SECOND;
    WholeSeconds(Max(0, k));
    Max(0, timeIn - ScheduledStart(timeIn))
  }

  lemma WholeSeconds(k: int)
    ensures (k * SECOND) % SECOND == 0
  {
    DivUnique(k * SECOND, SECOND, k);
  }

  /** `undertime`: how early the punch-out is before 18:00 of the punch-in
      date (18:00 carrying the punch-in's milliseconds); zero at or after it. */
  function Undertime(timeIn: Millis, timeOut: Millis): (r: Millis)
    ensures r >= 0
    ensures timeOut >= Midnight(timeIn) + 18 * HOUR + timeIn % SECOND ==> r == 0
    ensures timeOut < Midnight(timeIn) + 18 * HOUR + timeIn % SECOND ==>
      r == Midnight(timeIn) + 18 * HOUR + timeIn % SECOND - timeOut
    ensures timeOut >= Midnight(timeIn) + 18 * HOUR + SECOND ==> r == 0
    ensures timeOut <= Midnight(timeIn) + 18 * HOUR ==> r == Midnight(timeIn) + 18 * HOUR + timeIn % SECOND - timeOut
  {
    if timeOut < ScheduledEnd(timeIn) then ScheduledEnd(timeIn) - timeOut else 0
  }

  /** `regular`: the time worked, capped at nine hours; negative when the
      punch-out precedes the punch-in, since nothing checks the order. */
  function Regular(worked: Millis): (r: Millis)
    ensures r <= REGULAR_CAP && r <= worked
    ensures worked <= REGULAR_CAP ==> r == worked
    ensures worked >= REGULAR_CAP ==> r == REGULAR_CAP
  {
    Min(worked, REGULAR_CAP)
  }

  /** `overtime`: the time worked beyond nine hours. It is positive exactly
      when more than nine hours are worked, and with the regular time it
      makes up all the time worked. */
  function Overtime(worked: Millis): (r: Millis)
    ensures r >= 0
    ensures r > 0 <==> worked > REGULAR_CAP
    ensures Regular(worked) + r == worked
  {
    if worked > REGULAR_CAP then worked - REGULAR_CAP else 0
  }

  /** Everything a punch-out at `timeOut` derives for a punch-in at `timeIn`.
      Nothing requires `timeOut` to follow `timeIn`. */
  function Compute(timeIn: Millis, timeOut: Millis): (m: Metrics)
    ensures m.regular + m.overtime == timeOut - timeIn
    ensures m.regular <= REGULAR_CAP && m.overtime >= 0
    ensures m.late >= 0 && m.undertime >= 0
    ensures 0 <= m.nightDiff <= 800
  {
    var worked := timeOut - timeIn;
    Metrics(Regular(worked), Overtime(worked), NightDiff.NightDiffHours(timeIn, timeOut),
            Late(timeIn), Undertime(timeIn, timeOut))
  }

  /** 08:45 to 19:30 on one date: not late, 10.75 hours worked, of which
      9.00 regular and 1.75 overtime, no undertime. */
  lemma ExampleDayShift(d: Date)
    ensures var m := Compute(d * DAY + 8 * HOUR + 45 * MINUTE, d * DAY + 19 * HOUR + 30 * MINUTE);
      && m.late == 0 && m.undertime == 0
      && m.regular == 9 * HOUR && m.overtime == HOUR + 45 * MINUTE
      && m.regular + m.overtime == 10 * HOUR + 45 * MINUTE
      && RoundHundredths(m.regular, HOUR) == 900
      && RoundHundredths(m.overtime, HOUR) == 175
      && m.nightDiff == 0
  {
    var ti := d * DAY + 8 * HOUR + 45 * MINUTE;
    var to := d * DAY + 19 * HOUR + 30 * MINUTE;
    DayOfOffset(d, 8 * HOUR + 45 * MINUTE);
    RoundHundredthsExact(900, HOUR);
    RoundHundredthsExact(175, HOUR);
    NightDiff.NoNightDiffBeforeTen(ti, to);
  }
}
