/** Wall-clock arithmetic in one fixed time zone.

    An instant is an integer number of milliseconds since the epoch, as
    JavaScript's `Date.getTime()` returns it; a calendar date is the day
    number of an instant. The JavaScript `Date.setHours` calls the dashboard
    makes are written out here, and so is `toFixed(2)` rounding. */
module Clock {

  type Millis = int
  type Date = int
  /** A quantity (of hours or of minutes) times one hundred, as `toFixed(2)` keeps it. */
  type Hundredths = int

  const SECOND: int := 1000
  const MINUTE: int := 60 * SECOND
  const HOUR: int := 60 * MINUTE
  const DAY: int := 24 * HOUR

  function Min(a: int, b: int): int { if a <= b then a else b }
  function Max(a: int, b: int): int { if a <= b then b else a }

  /** The calendar date an instant falls on. */
  function DayOf(t: Millis): (d: Date)
    ensures d * DAY <= t < d * DAY + DAY
  {
    t / DAY
  }

  /** 00:00:00.000 of the date `t` falls on. */
  function Midnight(t: Millis): (m: Millis)
    ensures m <= t < m + DAY
    ensures m % DAY == 0
  {
    DayOf(t) * DAY
  }

  /** `new Date(t).setHours(h, 0, 0)`: the hour is set, minutes and seconds
      are zeroed, and the milliseconds of `t` are kept. For an hour of the
      day the result stays on the date of `t`. */
  function SetHoursKeepMillis(t: Millis, h: int): (r: Millis)
    ensures 0 <= h < 24 ==> Midnight(r) == Midnight(t)
    ensures (r - Midnight(t)) / HOUR == h
    ensures (r - Midnight(t)) % HOUR == t % SECOND
    ensures r % SECOND == t % SECOND
  {
    var ms := t % SECOND;
    var r := Midnight(t) + h * HOUR + ms;
    assert 0 <= h < 24 ==> Midnight(r) == Midnight(t) by {
      if 0 <= h < 24 {
        MidnightOfOffset(t, h * HOUR + ms);
      }
    }
    QuotientRemainder(h, HOUR, ms);
    assert r == (DayOf(t) * 86400 + h * 3600) * SECOND + ms;
    QuotientRemainder(DayOf(t) * 86400 + h * 3600, SECOND, ms);
    r
  }

  /** `new Date(t).setHours(h, 0, 0, 0)`: exactly hour `h` of the date of
      `t`; an hour of 24 is the midnight that starts the next date. */
  function SetHoursExact(t: Millis, h: int): (r: Millis)
    ensures 0 <= h < 24 ==> Midnight(r) == Midnight(t)
    ensures (r - Midnight(t)) / HOUR == h
    ensures (r - Midnight(t)) % HOUR == 0
    ensures h == 24 ==> Midnight(r) == r && DayOf(r) == DayOf(t) + 1
  {
    var r := Midnight(t) + h * HOUR;
    assert 0 <= h < 24 ==> Midnight(r) == Midnight(t) by {
      if 0 <= h < 24 {
        MidnightOfOffset(t, h * HOUR);
      }
    }
    assert h == 24 ==> Midnight(r) == r && DayOf(r) == DayOf(t) + 1 by {
      if h == 24 {
        DayOfOffset(DayOf(t) + 1, 0);
      }
    }
    DivUnique(h * HOUR, HOUR, h);
    r
  }

  /** `q * d + ms` with `ms` below `d` has quotient `q` and remainder `ms`. */
  lemma QuotientRemainder(q: int, d: int, ms: int)
    requires d > 0 && 0 <= ms < d
    ensures (q * d + ms) / d == q && (q * d + ms) % d == ms
  {
    DivUnique(q * d + ms, d, q);
  }

  /** Integer division is unique: the quotient is pinned down by its bounds. */
  lemma DivUnique(a: int, d: int, q: int)
    requires d > 0
    requires q * d <= a < q * d + d
    ensures a / d == q
  {
    var k, r := a / d - q, a % d;
    assert a == q * d + k * d + r;
    assert 0 <= r < d;
  }

  /** Adding less than a day to a midnight stays on that date. */
  lemma MidnightOfOffset(t: Millis, off: int)
    requires 0 <= off < DAY
    ensures Midnight(Midnight(t) + off) == Midnight(t)
    ensures DayOf(Midnight(t) + off) == DayOf(t)
  {
    DivUnique(Midnight(t) + off, DAY, DayOf(t));
  }

  /** The instant `off` milliseconds into date `d` lies on date `d`. */
  lemma DayOfOffset(d: Date, off: int)
    requires 0 <= off < DAY
    ensures DayOf(d * DAY + off) == d
    ensures Midnight(d * DAY + off) == d * DAY
  {
    DivUnique(d * DAY + off, DAY, d);
  }

  /** `x.toFixed(2)` for `x == n / unit`, as a count of hundredths of `unit`:
      the nearest whole number of hundredths, with a tie rounded away from
      zero (the sign is taken off first, then ties go up). Binary floating
      point error is not modelled. */
  function RoundHundredths(n: int, unit: int): (r: Hundredths)
    requires unit > 0 && unit % 100 == 0
    ensures n >= 0 ==> 2 * r * (unit / 100) - unit / 100 <= 2 * n < 2 * r * (unit / 100) + unit / 100
    ensures n < 0 ==> 2 * r * (unit / 100) - unit / 100 < 2 * n <= 2 * r * (unit / 100) + unit / 100
    ensures n >= 0 ==> r >= 0
    ensures n <= 0 ==> r <= 0
  {
    var u := unit / 100;
    if n >= 0 then
      HalfUpStep(2 * n + u, u);
      (2 * n + u) / (2 * u)
    else
      HalfUpStep(2 * -n + u, u);
      -((2 * -n + u) / (2 * u))
  }

  /** The quotient of `v` by `2 * u`, in the shape the rounding bounds use. */
  lemma HalfUpStep(v: int, u: int)
    requires u > 0
    ensures var q := v / (2 * u); 2 * q * u <= v < 2 * q * u + 2 * u && 2 * -q * u == -(2 * q * u)
  {
    var q := v / (2 * u);
    assert v == q * (2 * u) + v % (2 * u);
    assert q * (2 * u) == 2 * q * u;
  }

  /** Rounding never reverses the order of two quantities. */
  lemma RoundHundredthsMonotone(a: int, b: int, unit: int)
    requires unit > 0 && unit % 100 == 0
    requires a <= b
    ensures RoundHundredths(a, unit) <= RoundHundredths(b, unit)
  {
    var ra, rb := RoundHundredths(a, unit), RoundHundredths(b, unit);
    if rb < ra {
      GapOfTwo(rb, ra, unit / 100);
      assert false;
    }
  }

  /** Two different whole counts of hundredths are at least a whole
      hundredth apart, written in the shape of the rounding bounds. */
  lemma GapOfTwo(x: int, y: int, u: int)
    requires x < y && u >= 0
    ensures 2 * x * u + u <= 2 * y * u - u
  {
    MulMono(2 * x + 2, 2 * y, u);
    assert (2 * x + 2) * u == 2 * x * u + 2 * u;
  }

  lemma MulMono(x: int, y: int, u: int)
    requires x <= y && u >= 0
    ensures x * u <= y * u
  {
    assert y * u - x * u == (y - x) * u;
  }

  /** A whole number of hundredths of `unit` rounds to itself. */
  lemma RoundHundredthsExact(k: int, unit: int)
    requires unit > 0 && unit % 100 == 0
    ensures RoundHundredths(k * (unit / 100), unit) == k
  {
    var u := unit / 100;
    var r := RoundHundredths(k * u, unit);
    if r < k {
      MulMono(r + 1, k, u);
      assert false;
    } else if r > k {
      MulMono(k + 1, r, u);
      assert false;
    }
  }
}
