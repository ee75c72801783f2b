/** The punch recorder: the employee dashboard's punch-in and punch-out
    handlers and the administrator's edit-and-save, over an in-memory store
    of attendance documents, daily summaries and breakdown rows. */
module Timekeeping {
  import opened Clock
  import opened Records
  import ShiftMetrics
  import opened DailySummary

  /** What a handler reports: success, or the error it shows instead of writing. */
  datatype Status =
    | Done
    | AlreadyTimedIn   // "You have already timed in today!"
    | NotTimedIn       // "Please time in first!"
    | AlreadyTimedOut  // "You have already timed out today!"
    | MissingTimes     // "Please fill in both Time In and Time Out!"

  ghost predicate Distinct<T>(s: seq<T>)
  {
    forall i, j | 0 <= i < j < |s| :: s[i] != s[j]
  }

  /** A distinct sequence has as many elements as its set. */
  lemma {:induction false} DistinctCard<T>(s: seq<T>)
    requires Distinct(s)
    ensures |set x | x in s| == |s|
  {
    if s != [] {
      var t := s[..|s| - 1];
      assert Distinct(t);
      DistinctCard(t);
      assert (set x | x in s) == (set x | x in t) + {s[|s| - 1]};
      assert s[|s| - 1] !in t by {
        forall i | 0 <= i < |t| ensures t[i] != s[|s| - 1] {
          assert s[i] != s[|s| - 1];
        }
      }
    }
  }

  /** The metrics of the breakdown rows of employees `us` on date `d`, in order. */
  ghost function Contributions(rows: map<(Date, string), BreakdownRow>, d: Date, us: seq<string>): (r: seq<ShiftMetrics.Metrics>)
    requires forall u | u in us :: (d, u) in rows
    ensures |r| == |us|
  {
    if us == [] then [] else Contributions(rows, d, us[..|us| - 1]) + [rows[(d, us[|us| - 1])].metrics]
  }

  /** Contributions depend only on the rows they name. */
  lemma {:induction false} ContributionsFrame(rows: map<(Date, string), BreakdownRow>,
                                              rows': map<(Date, string), BreakdownRow>, d: Date, us: seq<string>)
    requires forall u | u in us :: (d, u) in rows && (d, u) in rows' && rows[(d, u)] == rows'[(d, u)]
    ensures Contributions(rows, d, us) == Contributions(rows', d, us)
  {
    if us != [] {
      ContributionsFrame(rows, rows', d, us[..|us| - 1]);
    }
  }

  /** The store invariant. Every summary is the sum of the breakdown rows of
      its date, one row per employee who punched out (`punchedOut` lists
      them per date, in order), and an employee with a row has a
      punched-out attendance record for that date. */
  ghost predicate Consistent(attendance: map<DocId, AttendanceRecord>, summary: map<Date, Totals>,
                             breakdown: map<(Date, string), BreakdownRow>, punchedOut: map<Date, seq<string>>)
  {
    && punchedOut.Keys == summary.Keys
    && (forall d | d in punchedOut :: punchedOut[d] != [] && Distinct(punchedOut[d]))
    && (forall k | k in breakdown :: k.0 in punchedOut && k.1 in punchedOut[k.0])
    && (forall d, u | d in punchedOut && u in punchedOut[d] :: (d, u) in breakdown)
    && (forall k | k in breakdown ::
          PunchKey(k.1, k.0) in attendance && attendance[PunchKey(k.1, k.0)].timeOut.Some?)
    && (forall d | d in summary :: summary[d] == TotalsOf(Contributions(breakdown, d, punchedOut[d])))
  }

  /** A write to the attendance collection that keeps every present
      `timeOut` present keeps the invariant. */
  lemma AttendanceWriteKeepsConsistent(attendance: map<DocId, AttendanceRecord>, summary: map<Date, Totals>,
                                       breakdown: map<(Date, string), BreakdownRow>, punchedOut: map<Date, seq<string>>,
                                       key: DocId, rec: AttendanceRecord)
    requires Consistent(attendance, summary, breakdown, punchedOut)
    requires key in attendance && attendance[key].timeOut.Some? ==> rec.timeOut.Some?
    ensures Consistent(attendance[key := rec], summary, breakdown, punchedOut)
  {
  }

  /** The employees listed as punched out on `date`, none when it has no summary. */
  ghost function ListedOn(punchedOut: map<Date, seq<string>>, date: Date): seq<string>
  {
    if date in punchedOut then punchedOut[date] else []
  }

  /** A first punch-out of `uid` on `date` keeps the invariant. */
  lemma PunchOutKeepsConsistent(attendance: map<DocId, AttendanceRecord>, summary: map<Date, Totals>,
                                breakdown: map<(Date, string), BreakdownRow>, punchedOut: map<Date, seq<string>>,
                                uid: string, date: Date, rec: AttendanceRecord, row: BreakdownRow)
    requires Consistent(attendance, summary, breakdown, punchedOut)
    requires rec.timeOut.Some?
    requires PunchKey(uid, date) in attendance && attendance[PunchKey(uid, date)].timeOut.None?
    ensures (date, uid) !in breakdown
    ensures Consistent(attendance[PunchKey(uid, date) := rec],
                       summary[date := Accumulate(Lookup(summary, date), row.metrics)],
                       breakdown[(date, uid) := row],
                       punchedOut[date := ListedOn(punchedOut, date) + [uid]])
  {
    PunchOutRows(attendance, summary, breakdown, punchedOut, uid, date, rec, row);
    PunchOutSummaries(attendance, summary, breakdown, punchedOut, uid, date, row);
  }

  /** The row part of `PunchOutKeepsConsistent`: the employee had no row,
      and after the punch-out is listed once for the date, has a row and has
      a punched-out record; every other employee is as before. */
  lemma PunchOutRows(attendance: map<DocId, AttendanceRecord>, summary: map<Date, Totals>,
                     breakdown: map<(Date, string), BreakdownRow>, punchedOut: map<Date, seq<string>>,
                     uid: string, date: Date, rec: AttendanceRecord, row: BreakdownRow)
    requires Consistent(attendance, summary, breakdown, punchedOut)
    requires rec.timeOut.Some?
    requires PunchKey(uid, date) in attendance && attendance[PunchKey(uid, date)].timeOut.None?
    ensures (date, uid) !in breakdown
    ensures Distinct(ListedOn(punchedOut, date) + [uid])
    ensures forall k | k in breakdown[(date, uid) := row] ::
      k.0 in punchedOut[date := ListedOn(punchedOut, date) + [uid]]
      && k.1 in punchedOut[date := ListedOn(punchedOut, date) + [uid]][k.0]
    ensures forall d, u | d in punchedOut[date := ListedOn(punchedOut, date) + [uid]]
                          && u in punchedOut[date := ListedOn(punchedOut, date) + [uid]][d] ::
      (d, u) in breakdown[(date, uid) := row]
    ensures forall k | k in breakdown[(date, uid) := row] ::
      PunchKey(k.1, k.0) in attendance[PunchKey(uid, date) := rec]
      && attendance[PunchKey(uid, date) := rec][PunchKey(k.1, k.0)].timeOut.Some?
  {
    var before := ListedOn(punchedOut, date);
    var attendance', breakdown' := attendance[PunchKey(uid, date) := rec], breakdown[(date, uid) := row];
    var punchedOut' := punchedOut[date := before + [uid]];
    assert uid !in before;
    forall k | k in breakdown'
      ensures k.0 in punchedOut' && k.1 in punchedOut'[k.0]
      ensures PunchKey(k.1, k.0) in attendance' && attendance'[PunchKey(k.1, k.0)].timeOut.Some?
    {
      if k != (date, uid) {
        assert k in breakdown;
      }
    }
    forall d, u | d in punchedOut' && u in punchedOut'[d] ensures (d, u) in breakdown' {
      if d == date && u != uid {
        assert u in before;
      }
    }
  }

  /** The summary part of `PunchOutKeepsConsistent`: folding the new row's
      metrics into the date's totals keeps every summary the sum of its rows. */
  lemma PunchOutSummaries(attendance: map<DocId, AttendanceRecord>, summary: map<Date, Totals>,
                          breakdown: map<(Date, string), BreakdownRow>, punchedOut: map<Date, seq<string>>,
                          uid: string, date: Date, row: BreakdownRow)
    requires Consistent(attendance, summary, breakdown, punchedOut)
    requires (date, uid) !in breakdown
    ensures var summary' := summary[date := Accumulate(Lookup(summary, date), row.metrics)];
      forall d | d in summary' ::
        summary'[d] == TotalsOf(Contributions(breakdown[(date, uid) := row], d,
                                              punchedOut[date := ListedOn(punchedOut, date) + [uid]][d]))
  {
    var before := ListedOn(punchedOut, date);
    var summary', breakdown' := summary[date := Accumulate(Lookup(summary, date), row.metrics)], breakdown[(date, uid) := row];
    var punchedOut' := punchedOut[date := before + [uid]];
    ContributionsFrame(breakdown, breakdown', date, before);
    assert (before + [uid])[..|before|] == before;
    assert Contributions(breakdown', date, before + [uid])
        == Contributions(breakdown, date, before) + [row.metrics];
    assert Stored(Contributions(breakdown, date, before)) == Lookup(summary, date);
    AccumulateExtends(Contributions(breakdown, date, before), row.metrics);
    forall d | d in summary' && d != date
      ensures summary'[d] == TotalsOf(Contributions(breakdown', d, punchedOut'[d]))
    {
      ContributionsFrame(breakdown, breakdown', d, punchedOut[d]);
    }
  }

  class Timekeeper {
    /** The `attendance` collection. */
    var attendance: map<DocId, AttendanceRecord>
    /** The `dailySummary` collection, one document per date. */
    var summary: map<Date, Totals>
    /** The `dailySummary/<date>/records` sub-collections, keyed by date and uid. */
    var breakdown: map<(Date, string), BreakdownRow>
    /** For each date that has a summary, the employees who punched out on
        it, in the order they did. */
    ghost var punchedOut: map<Date, seq<string>>

    ghost predicate Valid()
      reads this
    {
      Consistent(attendance, summary, breakdown, punchedOut)
    }

    constructor ()
      ensures Valid()
      ensures attendance == map[] && summary == map[] && breakdown == map[]
    {
      attendance, summary, breakdown := map[], map[], map[];
      punchedOut := map[];
    }

    /** The employees with a breakdown row on date `d`. */
    ghost function EmployeesOn(d: Date): set<string>
      reads this
    {
      set k | k in breakdown.Keys && k.0 == d :: k.1
    }

    /** A date's head count is the number of employees with a breakdown row
        on it, and each of its totals is the sum over their rows. */
    lemma SummaryMatchesBreakdown(d: Date)
      requires Valid() && d in summary
      ensures summary[d].totalEmployees == |EmployeesOn(d)| > 0
      ensures summary[d] == TotalsOf(Contributions(breakdown, d, punchedOut[d]))
    {
      var us := punchedOut[d];
      assert EmployeesOn(d) == set u | u in us by {
        forall u | u in us ensures u in EmployeesOn(d) {
          assert (d, u) in breakdown;
          assert (d, u).0 == d;
        }
        forall u | u in EmployeesOn(d) ensures u in us {
          var k :| k in breakdown.Keys && k.0 == d && k.1 == u;
        }
      }
      DistinctCard(us);
      assert us[0] in EmployeesOn(d);
    }

    /** `handleTimeIn`: a second punch-in for today's record is refused and
        writes nothing; otherwise `{ uid, date, timeIn }` is merged into it. */
    method TimeIn(uid: string, now: Millis) returns (status: Status)
      requires Valid()
      modifies this
      ensures Valid()
      ensures var prior := Lookup(old(attendance), PunchKey(uid, DayOf(now)));
        && (status == AlreadyTimedIn <==> prior.Some? && prior.value.timeIn.Some?)
        && (status == AlreadyTimedIn || status == Done)
      ensures var key := PunchKey(uid, DayOf(now));
        attendance == if status == Done
          then old(attendance)[key := Merge(Lookup(old(attendance), key), TimeInPatch(uid, DayOf(now), now))]
          else old(attendance)
      ensures status == Done ==> var rec := attendance[PunchKey(uid, DayOf(now))];
        rec.uid == Some(uid) && rec.date == Some(DayOf(now)) && rec.timeIn == Some(now)
      ensures summary == old(summary) && breakdown == old(breakdown)
    {
      var today := DayOf(now);
      var key := PunchKey(uid, today);
      var existing := Lookup(attendance, key);
      if existing.Some? && existing.value.timeIn.Some? {
        return AlreadyTimedIn;
      }
      AttendanceWriteKeepsConsistent(attendance, summary, breakdown, punchedOut,
                                     key, Merge(existing, TimeInPatch(uid, today, now)));
      attendance := attendance[key := Merge(existing, TimeInPatch(uid, today, now))];
      status := Done;
    }

    /** `handleTimeOut` for the record of `uid` on `date`: refused, with no
        write, when that record has no punch-in or already has a punch-out.
        Otherwise the punch-out and its rounded metrics are merged into the
        record, the unrounded metrics are folded into the date's summary, and
        the employee's breakdown row is replaced. The employee never had a
        row for that date before. */
    method TimeOut(uid: string, date: Date, now: Millis, name: string, recordedAt: Millis)
      returns (status: Status)
      requires Valid()
      modifies this
      ensures Valid()
      ensures var prior := Lookup(old(attendance), PunchKey(uid, date));
        && (status == NotTimedIn <==> prior.None? || prior.value.timeIn.None?)
        && (status == AlreadyTimedOut <==> prior.Some? && prior.value.timeIn.Some? && prior.value.timeOut.Some?)
        && (status == NotTimedIn || status == AlreadyTimedOut || status == Done)
      ensures status != Done ==>
        attendance == old(attendance) && summary == old(summary) && breakdown == old(breakdown)
      ensures status == Done ==>
        var key := PunchKey(uid, date);
        var rec := old(attendance)[key];
        var m := ShiftMetrics.Compute(rec.timeIn.value, now);
        && (date, uid) !in old(breakdown)
        && attendance == old(attendance)[key := Merge(Some(rec), TimeOutPatch(now, m))]
        && summary == old(summary)[date := Accumulate(Lookup(old(summary), date), m)]
        && breakdown == old(breakdown)[(date, uid) := BreakdownRow(name, m, recordedAt)]
        && summary[date].totalEmployees == |EmployeesOn(date)|
        && attendance[key].timeOut == Some(now)
        && attendance[key].timeIn == rec.timeIn && attendance[key].uid == rec.uid
    {
      var key := PunchKey(uid, date);
      var record := Lookup(attendance, key);
      if record.None? || record.value.timeIn.None? {
        return NotTimedIn;
      }
      if record.value.timeOut.Some? {
        return AlreadyTimedOut;
      }
      var m := ShiftMetrics.Compute(record.value.timeIn.value, now);
      var row := BreakdownRow(name, m, recordedAt);
      var written := Merge(record, TimeOutPatch(now, m));
      PunchOutKeepsConsistent(attendance, summary, breakdown, punchedOut, uid, date, written, row);
      ghost var before := ListedOn(punchedOut, date);

      attendance := attendance[key := written];
      summary := summary[date := Accumulate(Lookup(summary, date), m)];
      breakdown := breakdown[(date, uid) := row];
      punchedOut := punchedOut[date := before + [uid]];
      status := Done;
      assert Valid();
      assert attendance == old(attendance)[key := Merge(Some(old(attendance)[key]), TimeOutPatch(now, m))];
      assert summary == old(summary)[date := Accumulate(Lookup(old(summary), date), m)];
      assert breakdown == old(breakdown)[(date, uid) := BreakdownRow(name, m, recordedAt)];
      SummaryMatchesBreakdown(date);
    }

    /** The administrator's Save: refused, with no write, unless both
        `timeIn` and `timeOut` are filled in; otherwise the edited fields are
        merged into the document being edited, or into a new one named by the
        current time. Metrics and summaries are left as they were. */
    method AdminSave(id: Option<DocId>, now: Millis, edit: AttendanceRecord) returns (status: Status)
      requires Valid()
      modifies this
      ensures Valid()
      ensures status == MissingTimes <==> edit.timeIn.None? || edit.timeOut.None?
      ensures status == MissingTimes || status == Done
      ensures var key := if id.Some? then id.value else Generated(now);
        attendance == if status == Done
          then old(attendance)[key := Merge(Lookup(old(attendance), key), edit)]
          else old(attendance)
      ensures summary == old(summary) && breakdown == old(breakdown)
    {
      if edit.timeIn.None? || edit.timeOut.None? {
        return MissingTimes;
      }
      var key := if id.Some? then id.value else Generated(now);
      AttendanceWriteKeepsConsistent(attendance, summary, breakdown, punchedOut,
                                     key, Merge(Lookup(attendance, key), edit));
      attendance := attendance[key := Merge(Lookup(attendance, key), edit)];
      status := Done;
    }
  }

  /** A repeated punch-in, a punch-out with no punch-in and a repeated
      punch-out are each refused. */
  method RefusedPunches(d: Date)
  {
    var store := new Timekeeper();
    var t := d * DAY + 8 * HOUR;
    DayOfOffset(d, 8 * HOUR);
    DayOfOffset(d, 8 * HOUR + MINUTE);

    var status := store.TimeIn("alice", t);
    assert status == Done;
    status := store.TimeIn("alice", t + MINUTE);
    assert status == AlreadyTimedIn;
    status := store.TimeOut("bob", d, t + MINUTE, "Bob", t + MINUTE);
    assert status == NotTimedIn;
    status := store.TimeOut("alice", d, t + HOUR, "Alice", t + HOUR);
    assert status == Done;
    status := store.TimeOut("alice", d, t + 2 * HOUR, "Alice", t + 2 * HOUR);
    assert status == AlreadyTimedOut;
  }
}
