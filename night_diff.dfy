/** The night differential of a shift: the time worked inside the premium
    windows 22:00-24:00 of the punch-in date and 00:00-06:00 of the date
    after it, in hours rounded to two decimals. */
module NightDiff {
  import opened Clock

  /** Length of the common part of [aStart, aEnd) and [bStart, bEnd), or 0
      when they do not meet (the `overlapMs` helper). */
  function Overlap(aStart: int, aEnd: int, bStart: int, bEnd: int): (r: int)
    ensures r >= 0
    ensures r <= Max(0, aEnd - aStart) && r <= Max(0, bEnd - bStart)
    ensures r > 0 <==> Max(aStart, bStart) < Min(aEnd, bEnd)
    ensures r > 0 ==> r == Min(aEnd, bEnd) - Max(aStart, bStart)
  {
    Max(0, Min(aEnd, bEnd) - Max(aStart, bStart))
  }

  /** Two adjacent windows cover as much of an interval as the window that
      joins them. */
  lemma OverlapSplit(aStart: int, aEnd: int, b1: int, b2: int, b3: int)
    requires b1 <= b2 <= b3
    ensures Overlap(aStart, aEnd, b1, b2) + Overlap(aStart, aEnd, b2, b3)
            == Overlap(aStart, aEnd, b1, b3)
  {
  }

  /** Extending the worked interval never shrinks its overlap with a window. */
  lemma OverlapMonotone(aStart: int, aEnd: int, aEnd': int, bStart: int, bEnd: int)
    requires aEnd <= aEnd'
    ensures Overlap(aStart, aEnd, bStart, bEnd) <= Overlap(aStart, aEnd', bStart, bEnd)
  {
  }

  /** Window A starts at 22:00 of the punch-in date: `setHours(22, 0, 0, 0)`. */
  function FirstWindowStart(timeIn: Millis): (r: Millis)
    ensures Midnight(r) == Midnight(timeIn) && r == Midnight(timeIn) + 22 * HOUR
  {
    SetHoursExact(timeIn, 22)
  }

  /** Window A ends at `setHours(24, 0, 0, 0)` of its start: the midnight
      that begins the next date. */
  function FirstWindowEnd(timeIn: Millis): (r: Millis)
    ensures r == Midnight(timeIn) + DAY && Midnight(r) == r
    ensures DayOf(r) == DayOf(timeIn) + 1
  {
    SetHoursExact(FirstWindowStart(timeIn), 24)
  }

  /** Window B starts where window A ends, at 00:00 of the next date. */
  function SecondWindowStart(timeIn: Millis): (r: Millis)
    ensures r == Midnight(timeIn) + DAY && DayOf(r) == DayOf(timeIn) + 1
  {
    FirstWindowEnd(timeIn)
  }

  /** Window B ends at 06:00 of the next date: `setHours(6, 0, 0, 0)` of its start. */
  function SecondWindowEnd(timeIn: Millis): (r: Millis)
    ensures r == Midnight(timeIn) + DAY + 6 * HOUR && DayOf(r) == DayOf(timeIn) + 1
  {
    SetHoursExact(SecondWindowStart(timeIn), 6)
  }

  /** `msND`: the milliseconds of [timeIn, timeOut) inside the two windows.
      They are the overlap with the one window 22:00 to 06:00 the next day,
      never negative, never more than the time worked and never more than
      the eight hours that window spans. */
  function NightDiffMillis(timeIn: Millis, timeOut: Millis): (r: int)
    ensures r == Overlap(timeIn, timeOut, Midnight(timeIn) + 22 * HOUR, Midnight(timeIn) + DAY + 6 * HOUR)
    ensures 0 <= r <= Max(0, timeOut - timeIn)
    ensures r <= 8 * HOUR
  {
    var m := Midnight(timeIn);
    OverlapSplit(timeIn, timeOut, m + 22 * HOUR, m + DAY, m + DAY + 6 * HOUR);
    Overlap(timeIn, timeOut, FirstWindowStart(timeIn), FirstWindowEnd(timeIn))
    + Overlap(timeIn, timeOut, SecondWindowStart(timeIn), SecondWindowEnd(timeIn))
  }

  /** `computeNightDiffHours`: the night time in hours, rounded to two
      decimals and kept as hundredths of an hour; between 0.00 and 8.00,
      and 0.00 when no night time was worked. */
  function NightDiffHours(timeIn: Millis, timeOut: Millis): (r: Hundredths)
    ensures 0 <= r <= 800
    ensures NightDiffMillis(timeIn, timeOut) == 0 ==> r == 0
  {
    RoundHundredthsMonotone(NightDiffMillis(timeIn, timeOut), 8 * HOUR, HOUR);
    RoundHundredthsExact(800, HOUR);
    RoundHundredthsExact(0, HOUR);
    RoundHundredths(NightDiffMillis(timeIn, timeOut), HOUR)
  }

  /** Punching out later never lowers the night differential. */
  lemma NightDiffMonotone(timeIn: Millis, timeOut: Millis, timeOut': Millis)
    requires timeOut <= timeOut'
    ensures NightDiffMillis(timeIn, timeOut) <= NightDiffMillis(timeIn, timeOut')
    ensures NightDiffHours(timeIn, timeOut) <= NightDiffHours(timeIn, timeOut')
  {
    var m := Midnight(timeIn);
    OverlapMonotone(timeIn, timeOut, timeOut', m + 22 * HOUR, m + DAY + 6 * HOUR);
    RoundHundredthsMonotone(NightDiffMillis(timeIn, timeOut), NightDiffMillis(timeIn, timeOut'), HOUR);
  }

  /** A shift from 21:00 to 02:30 the next day earns 2 h in window A and
      2.5 h in window B: 4.50 hours. */
  lemma NightDiffExample(d: Date)
    ensures NightDiffMillis(d * DAY + 21 * HOUR, (d + 1) * DAY + 2 * HOUR + 30 * MINUTE) == 4 * HOUR + 30 * MINUTE
    ensures NightDiffHours(d * DAY + 21 * HOUR, (d + 1) * DAY + 2 * HOUR + 30 * MINUTE) == 450
  {
    var ti := d * DAY + 21 * HOUR;
    DayOfOffset(d, 21 * HOUR);
    RoundHundredthsExact(450, HOUR);
  }

  /** Work that ends by 22:00 of the punch-in date earns no night time:
      the early hours of the punch-in date itself are outside both windows. */
  lemma NoNightDiffBeforeTen(timeIn: Millis, timeOut: Millis)
    requires timeOut <= Midnight(timeIn) + 22 * HOUR
    ensures NightDiffMillis(timeIn, timeOut) == 0
    ensures NightDiffHours(timeIn, timeOut) == 0
  {
  }
}
