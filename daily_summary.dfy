/** The organisation-wide totals for one date and the per-employee
    breakdown rows beside them. */
module DailySummary {
  import opened Clock
  import ShiftMetrics
  import opened Records

  /** A `dailySummary/<date>` document. The four durations are the sums of
      the unrounded metrics (milliseconds); the night differential is a sum
      of already rounded hundredths of an hour. */
  datatype Totals = Totals(
    totalRegular: Millis,
    totalOvertime: Millis,
    totalNightDiff: Hundredths,
    totalLate: Millis,
    totalUndertime: Millis,
    totalEmployees: nat)

  /** A `dailySummary/<date>/records/<uid>` document: the employee's display
      name, the unrounded metrics and the instant the row was written. */
  datatype BreakdownRow = BreakdownRow(name: string, metrics: ShiftMetrics.Metrics, timestamp: Millis)

  /** One punch-out folded into the date's totals: the first creates totals
      equal to that employee's metrics with one employee; each later one adds
      its metrics field by field and counts one more employee. */
  function Accumulate(prior: Option<Totals>, m: ShiftMetrics.Metrics): (t: Totals)
    ensures t.totalEmployees == (if prior.Some? then prior.value.totalEmployees + 1 else 1)
    ensures prior.None? ==> t == Totals(m.regular, m.overtime, m.nightDiff, m.late, m.undertime, 1)
  {
    match prior
    case None => Totals(m.regular, m.overtime, m.nightDiff, m.late, m.undertime, 1)
    case Some(p) =>
      Totals(p.totalRegular + m.regular, p.totalOvertime + m.overtime,
             p.totalNightDiff + m.nightDiff, p.totalLate + m.late,
             p.totalUndertime + m.undertime, p.totalEmployees + 1)
  }

  /** One of the five metrics a punch-out contributes. */
  datatype Field = RegularField | OvertimeField | NightDiffField | LateField | UndertimeField

  function Get(m: ShiftMetrics.Metrics, f: Field): int
  {
    match f
    case RegularField => m.regular
    case OvertimeField => m.overtime
    case NightDiffField => m.nightDiff
    case LateField => m.late
    case UndertimeField => m.undertime
  }

  /** The sum of one metric over a sequence of contributions. */
  function Sum(s: seq<ShiftMetrics.Metrics>, f: Field): int
  {
    if s == [] then 0 else Get(s[0], f) + Sum(s[1..], f)
  }

  lemma {:induction false} SumAppend(s: seq<ShiftMetrics.Metrics>, m: ShiftMetrics.Metrics, f: Field)
    ensures Sum(s + [m], f) == Sum(s, f) + Get(m, f)
  {
    if s != [] {
      assert (s + [m])[1..] == s[1..] + [m];
      SumAppend(s[1..], m, f);
    }
  }

  /** The reference totals of a set of contributions: every total is the sum
      of that metric over them and the head count is how many there are. */
  function TotalsOf(s: seq<ShiftMetrics.Metrics>): Totals
  {
    Totals(Sum(s, RegularField), Sum(s, OvertimeField), Sum(s, NightDiffField),
           Sum(s, LateField), Sum(s, UndertimeField), |s|)
  }

  /** No contributions give zero totals; a single one gives exactly its
      metrics and one employee. */
  lemma TotalsOfBase(s: seq<ShiftMetrics.Metrics>)
    ensures s == [] ==> TotalsOf(s) == Totals(0, 0, 0, 0, 0, 0)
    ensures |s| == 1 ==> TotalsOf(s) == Totals(s[0].regular, s[0].overtime, s[0].nightDiff, s[0].late, s[0].undertime, 1)
  {
    if |s| == 1 {
      assert s[1..] == [];
      assert forall f :: Sum(s, f) == Get(s[0], f);
    }
  }

  /** The totals of no contributions are absent; otherwise they are `TotalsOf`. */
  function Stored(s: seq<ShiftMetrics.Metrics>): Option<Totals>
  {
    if s == [] then None else Some(TotalsOf(s))
  }

  /** Folding one more contribution into the stored totals gives the totals
      of the longer sequence. */
  lemma AccumulateExtends(s: seq<ShiftMetrics.Metrics>, m: ShiftMetrics.Metrics)
    ensures Accumulate(Stored(s), m) == TotalsOf(s + [m])
  {
    SumAppend(s, m, RegularField);
    SumAppend(s, m, OvertimeField);
    SumAppend(s, m, NightDiffField);
    SumAppend(s, m, LateField);
    SumAppend(s, m, UndertimeField);
    if s == [] {
      assert [] + [m] == [m];
    }
  }

  /** The summary document after the punch-outs `s`, one after another,
      starting from no document. */
  function Replay(s: seq<ShiftMetrics.Metrics>): Option<Totals>
  {
    if s == [] then None else Some(Accumulate(Replay(s[..|s| - 1]), s[|s| - 1]))
  }

  /** After N punch-outs on a date, each total is the sum of the N
      contributions and the head count is N. */
  lemma {:induction false} ReplayIsSum(s: seq<ShiftMetrics.Metrics>)
    ensures Replay(s) == Stored(s)
  {
    if s != [] {
      var init := s[..|s| - 1];
      ReplayIsSum(init);
      AccumulateExtends(init, s[|s| - 1]);
      assert init + [s[|s| - 1]] == s;
    }
  }

  /** Two employees with 9.00 and 8.00 regular hours on a date that had no
      summary: 17.00 regular hours and two employees. */
  lemma TwoEmployeesExample(a: ShiftMetrics.Metrics, b: ShiftMetrics.Metrics)
    requires a.regular == 9 * HOUR && b.regular == 8 * HOUR
    ensures Accumulate(Some(Accumulate(None, a)), b).totalRegular == 17 * HOUR
    ensures Accumulate(Some(Accumulate(None, a)), b).totalEmployees == 2
  {
  }
}
