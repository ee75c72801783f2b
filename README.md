# Mini-HCM timekeeping engine in Dafny

This project models the timekeeping core of Mini-HCM, a small attendance
dashboard. The core is:

- the employee dashboard's punch-in and punch-out handlers;
- the metrics a punch-out derives: lateness, undertime, regular hours,
  overtime and night differential;
- the folding of those metrics into a per-date organisation summary and a
  per-employee breakdown row;
- the administrator dashboard's weekly report, its per-date attendance
  list and its edit-and-save of an attendance record.

The store is three in-memory maps with Firestore's merge-write semantics,
held by the class `Timekeeping.Timekeeper`:

- `attendance` maps a document id to an attendance record;
- `summary` maps a date to its totals;
- `breakdown` maps a (date, uid) pair to a row.

The handlers are methods on that class. The formulas, the night-differential
interval arithmetic and the report transforms are functions, with lemmas
about them.

Conventions of the model:

- An instant is an integer count of milliseconds in one fixed time zone.
  A date is the day number `t / DAY`, so ordering dates is chronological.
- The four duration metrics (`regular`, `overtime`, `late`, `undertime`) are
  kept as exact milliseconds. This is what a shift contributes to the
  summary, and what the breakdown row keeps. The code converts them to hours
  or minutes as binary floating point; the model does not.
- `computeNightDiffHours` already rounds its result, so the night
  differential is kept as hundredths of an hour everywhere.
- The attendance record stores `toFixed(2)` values. The model writes these
  as whole hundredths, rounded to nearest with ties away from zero.
- `setHours(9, 0, 0)` and `setHours(18, 0, 0)` pass no milliseconds
  argument, so they keep the punch-in's milliseconds. The model keeps them
  too. As a result, lateness is a whole number of seconds, and "18:00" for
  undertime is 18:00 plus the punch-in's sub-second part.
  `setHours(h, 0, 0, 0)` for the night windows resets the milliseconds.
- The night windows are 22:00-24:00 of the punch-in date and 00:00-06:00 of
  the next date. Work in the small hours of the punch-in date itself earns
  nothing (`NightDiff.NoNightDiffBeforeTen`).
- The ghost field `punchedOut` lists, per date, the employees who punched
  out, in order. The class invariant `Consistent` states three things:
  - each summary's totals are the field-by-field sums of that date's
    breakdown rows;
  - its head count is the number of those rows;
  - every employee with a row has a punched-out attendance record for that
    date.
  From these, `TimeOut` proves that a punch-out never finds an existing
  breakdown row. That holds because the model's punch-out guard reads the
  stored record. The code's guard reads the session's copy of the record
  instead (`src/components/Dashboard.jsx:104-111`). With that guard, a
  second session holding a stale copy passes it and adds the same shift to
  the summary again. "## Left out" lists this.

Where the intended design and the code differ, the model follows the code:

- There is no check that the punch-out follows the punch-in. A reversed
  pair gives negative `regular` and zero overtime.
- There is no subtract-then-add of a previous breakdown contribution.
- The schedule is fixed at 09:00-18:00 with a nine-hour cap. It is not read
  from the employee profile.
- No aggregation-pending error is ever raised.

## Model

| member | source | states |
|---|---|---|
| `Clock.DayOf` | src/components/Dashboard.jsx:80 | the date of an instant is the day whose midnight-to-midnight span contains it |
| `Clock.SetHoursKeepMillis` | src/components/Dashboard.jsx:117-120 | `setHours(h, 0, 0)`: hour `h` of the same date (for an hour of the day), with minutes and seconds zero and the instant's own milliseconds kept |
| `Clock.SetHoursExact` | src/components/Dashboard.jsx:209-216 | `setHours(h, 0, 0, 0)`: exactly hour `h` of the same date (for an hour of the day); an hour of 24 is the midnight that starts the next date |
| `Clock.Midnight` | src/components/Dashboard.jsx:117-120 | the start of an instant's date: a multiple of a day, at most a day before the instant |
| `Clock.RoundHundredths` | src/components/Dashboard.jsx:134-138 | `toFixed(2)`: the nearest whole hundredth, with ties away from zero; the sign is kept, and a value that rounds to zero becomes 0 |
| `Clock.RoundHundredthsMonotone` | src/components/Dashboard.jsx:228 | rounding to hundredths never reverses the order of two quantities |
| `Clock.RoundHundredthsExact` | src/components/Dashboard.jsx:138 | re-rounding the already rounded night differential leaves it as it is |
| `NightDiff.Overlap` | src/components/Dashboard.jsx:218-222 | `overlapMs` is never negative and is at most either interval's length; it is positive exactly when the intervals share a point, and then it is the length of the shared part |
| `NightDiff.OverlapSplit` | src/components/Dashboard.jsx:224-226 | the overlaps with two adjacent windows add up to the overlap with the window that joins them |
| `NightDiff.OverlapMonotone` | src/components/Dashboard.jsx:218-222 | a later end of the worked interval never decreases its overlap |
| `NightDiff.FirstWindowStart` | src/components/Dashboard.jsx:209-210 | the first window starts at 22:00 of the punch-in date |
| `NightDiff.FirstWindowEnd` | src/components/Dashboard.jsx:211-212 | `setHours(24, 0, 0, 0)` of that start is the midnight that begins the next date |
| `NightDiff.SecondWindowStart` | src/components/Dashboard.jsx:214 | the second window starts at 00:00 of the next date |
| `NightDiff.SecondWindowEnd` | src/components/Dashboard.jsx:215-216 | the second window ends at 06:00 of the next date |
| `NightDiff.NightDiffMillis` | src/components/Dashboard.jsx:224-226 | `msND` is the overlap with the one window from 22:00 to 06:00 the next day; it is non-negative, at most the time worked and at most 8 h |
| `NightDiff.NightDiffHours` | src/components/Dashboard.jsx:205-229 | `computeNightDiffHours` is between 0.00 and 8.00 hours, and 0.00 when no night time was worked |
| `NightDiff.NightDiffMonotone` | src/components/Dashboard.jsx:224-228 | a later punch-out never lowers the night time, before or after rounding |
| `NightDiff.NightDiffExample` | src/components/Dashboard.jsx:205-229 | on any date, 21:00 to 02:30 the next day gives 2 h + 2.5 h = 4.50 hours |
| `NightDiff.NoNightDiffBeforeTen` | src/components/Dashboard.jsx:209-216 | a shift that ends by 22:00 of its punch-in date earns no night time |
| `ShiftMetrics.ScheduledStart` | src/components/Dashboard.jsx:117-118 | `schedStart` is 09:00 of the punch-in date, plus the punch-in's milliseconds |
| `ShiftMetrics.ScheduledEnd` | src/components/Dashboard.jsx:119-120 | `schedEnd` is 18:00 of the punch-in date, plus the punch-in's milliseconds |
| `ShiftMetrics.Late` | src/components/Dashboard.jsx:117-122 | lateness is never negative. It is zero for a punch-in at or before 09:00. After 09:00 it is the time past 09:00 less the punch-in's sub-second part, so it is a whole number of seconds |
| `ShiftMetrics.Undertime` | src/components/Dashboard.jsx:119-123 | undertime is never negative. It is zero for a punch-out at or after 18:00 of the punch-in date, and otherwise it is the time left until then (18:00 carries the punch-in's milliseconds) |
| `ShiftMetrics.Regular` | src/components/Dashboard.jsx:124 | regular time is at most nine hours and at most the time worked. It equals the time worked up to nine hours, and nine hours from there on |
| `ShiftMetrics.Overtime` | src/components/Dashboard.jsx:124-125 | overtime is non-negative and positive exactly when more than nine hours are worked; regular time plus overtime is the time worked |
| `ShiftMetrics.Compute` | src/components/Dashboard.jsx:113-127 | for any punch pair: regular + overtime is the time worked, regular is at most 9 h, overtime, lateness and undertime are non-negative, and the night differential is between 0 and 8.00 hours |
| `ShiftMetrics.ExampleDayShift` | src/components/Dashboard.jsx:113-138 | on any date, 08:45 to 19:30 gives no lateness, no undertime, 9.00 regular + 1.75 overtime = 10.75 hours, and no night time |
| `Records.Lookup` | src/components/Dashboard.jsx:84-85 | a read finds a document exactly when one is stored under the key, and then finds the stored value |
| `Records.Merge` | src/components/Dashboard.jsx:90-94 | a merge write onto no document stores the patch; an empty patch leaves a stored document as it is |
| `Records.MergeFields` | src/components/AdminDashboard.jsx:334 | field by field, a merge takes the patch's value where the patch supplies one and keeps the stored value elsewhere |
| `Records.MergeIdempotent` | src/components/Dashboard.jsx:130-141 | writing the same merge patch twice leaves what writing it once left |
| `Records.MergeKeepsPresent` | src/components/Dashboard.jsx:130-141 | a merge never removes a `timeIn` or `timeOut` that is present |
| `Records.TimeInPatch` | src/components/Dashboard.jsx:90-94 | a punch-in writes `timeIn` and never `timeOut` |
| `Records.TimeOutPatch` | src/components/Dashboard.jsx:130-141 | a punch-out writes `timeOut` and the metrics, never `uid`, `date` or `timeIn`. The stored night differential is the computed one, and stored overtime is non-negative |
| `DailySummary.Accumulate` | src/components/Dashboard.jsx:148-167 | the first punch-out of a date creates totals equal to its metrics with one employee; each later one raises the head count by exactly one |
| `DailySummary.TotalsOfBase` | src/components/Dashboard.jsx:148-155 | the reference totals `TotalsOf` of no contributions are zero, and of one contribution are exactly its metrics with one employee |
| `DailySummary.AccumulateExtends` | src/components/Dashboard.jsx:157-167 | folding one more punch-out into the totals of earlier ones gives the field-by-field sums over all of them; the head count is how many there are |
| `DailySummary.ReplayIsSum` | src/components/Dashboard.jsx:145-169 | folding N punch-outs one after another into a date with no summary leaves no summary when N is 0, and otherwise the reference totals: each total the sum of the N contributions and the head count N |
| `DailySummary.TwoEmployeesExample` | src/components/Dashboard.jsx:148-169 | employees with 9.00 and 8.00 regular hours on a date with no summary give 17.00 regular hours and two employees |
| `Timekeeping.AttendanceWriteKeepsConsistent` | src/components/AdminDashboard.jsx:330-334 | a write to an attendance record that keeps any present `timeOut` keeps the store invariant |
| `Timekeeping.PunchOutKeepsConsistent` | src/components/Dashboard.jsx:129-183 | a punch-out on a record without `timeOut` has no breakdown row yet. Writing the record, the summary and the row keeps the invariant that every summary is the sum of its date's rows |
| `Timekeeping.PunchOutRows` | src/components/Dashboard.jsx:171-183 | a first punch-out finds no row, and afterwards the employee is listed once for the date, has a row and has a punched-out record |
| `Timekeeping.PunchOutSummaries` | src/components/Dashboard.jsx:145-169 | folding the new row's metrics into the date's totals keeps every summary the sum of its date's rows |
| `Timekeeping.Timekeeper.SummaryMatchesBreakdown` | src/components/Dashboard.jsx:145-183 | a date's head count is the number of employees with a breakdown row on it, and its totals are the sums over those rows |
| `Timekeeping.Timekeeper.TimeIn` | src/components/Dashboard.jsx:78-99 | refused, with no write, when today's record already has `timeIn`. Otherwise `{uid, date, timeIn}` is merged into that record alone; summaries and breakdown rows are untouched |
| `Timekeeping.Timekeeper.TimeOut` | src/components/Dashboard.jsx:102-202 | refused, with no write, when the record has no `timeIn` or already has `timeOut`. Otherwise three writes happen: `timeOut` and the rounded metrics are merged into that record alone; the unrounded metrics are folded into that date's summary alone; that employee's breakdown row is replaced by exactly the latest metrics. There was no row before, and the head count equals the employees with rows |
| `Timekeeping.Timekeeper.AdminSave` | src/components/AdminDashboard.jsx:329-338 | refused, with no write, when `timeIn` or `timeOut` is empty. Otherwise the edit is merge-written into the edited document, or into a new one named by the current time; nothing else changes |
| `Reports.Insert` | src/components/AdminDashboard.jsx:81 | insertion adds exactly the one element: one more entry, the multiset grows by that element, every entry is it or an old one |
| `Reports.InsertSorted` | src/components/AdminDashboard.jsx:81 | inserting into a newest-first sequence keeps it newest first |
| `Reports.SortByDateDesc` | src/components/AdminDashboard.jsx:81 | the sort returns a permutation of the summaries in which dates never increase |
| `Reports.SortStable` | src/components/AdminDashboard.jsx:81 | the sort is stable: the summaries of any one date keep their relative order |
| `Reports.InsertWithDate` | src/components/AdminDashboard.jsx:81 | insertion puts the new summary ahead of every summary of its own date |
| `Reports.Reverse` | src/components/AdminDashboard.jsx:82 | `reverse` puts element i at position n-1-i |
| `Reports.WeeklyView` | src/components/AdminDashboard.jsx:81-82 | `data.slice(0, 7).reverse()` of the sorted summaries: the weekly report has min(n, 7) entries |
| `Reports.WeeklyFromInput` | src/components/AdminDashboard.jsx:77-82 | every weekly entry is one of the summaries, at most as often as it occurs; no zero-filled dates appear |
| `Reports.WeeklyAscending` | src/components/AdminDashboard.jsx:81-82 | the weekly report runs oldest to newest, strictly when no two summaries share a date |
| `Reports.SortStrict` | src/components/AdminDashboard.jsx:81 | with distinct dates the sorted summaries are strictly newest first |
| `Reports.WeeklyMostRecent` | src/components/AdminDashboard.jsx:81-82 | every summary left out of the report is no newer than every one kept, and strictly older when dates are distinct |
| `Reports.OnDate` | src/components/AdminDashboard.jsx:49-51 | the date filter lists only stored documents whose `date` is the selected one |
| `Reports.OnDateCounts` | src/components/AdminDashboard.jsx:49-51 | each document of the selected date is listed exactly as often as it is stored, and no other document is listed |
| `Reports.OnDateAppend` | src/components/AdminDashboard.jsx:49-51 | the filter keeps the original order: filtering a concatenation concatenates the filtered parts |
| `Reports.OnDateKeepsAll` | src/components/AdminDashboard.jsx:49-51 | when every document has the selected date, the list is all of them, unchanged |

## Left out

- Authentication and routing: the `if (!user) return` guards, login, registration, logout and `App.jsx`. These concern the session, not the computation.
- Storage I/O. `getDoc`, `setDoc`, `getDocs` and `query` are in-memory maps with merge writes. A write never fails here, so the `try`/`catch` around the summary update and its error toast are not modelled.
- `Timekeeping.Timekeeper.TimeOut`: its guard reads a different record from the code's. The code checks the session's copy of today's record, the React `record` state (`src/components/Dashboard.jsx:104-111`). That copy also supplies `timeIn` and the date key (lines 114, 129, 145 and 172). The model reads the stored record for `(uid, date)`, with `date` a parameter. The model therefore does not capture two behaviours of the code:
  - Midnight. At local 00:00 the `setInterval` sets `record` to null (lines 67-75). A reload loads the new date's record (lines 45-54 and 80). Either way, a shift that began before midnight is refused with "Please time in first!", even with one session. The model's `TimeOut` accepts such a punch-out. `NightDiff.NightDiffExample` states what `computeNightDiffHours` gives for a 21:00-02:30 shift, but the dashboard will normally refuse to record that shift.
  - Two sessions. Several tabs or devices can each hold the punched-in copy of the same record. Each passes the guard at line 108 in turn. Every further punch-out adds its metrics and one more employee to the summary (lines 157-169), while it overwrites the single breakdown row (lines 171-183). The summary then double-counts. The model's store-reading guard refuses the second punch-out, so the invariant `Consistent` and the no-double-count result hold only for the model's guard.
- `setRecord`, `fetchTodayRecord` and the midnight reset are part of the guard above. Other state updates (`setAttendance`, `setWeeklyData`, `setHistory`) and `fetchAttendanceHistory`, `fetchDailySummary`, toasts and rendering only feed the display.
- `formatTime` and `formatDate`. These are presentation.
- Binary floating point. Durations are exact integers, and `toFixed(2)` is exact round-half-away-from-zero. Errors such as `1.005.toFixed(2)` are not reproduced.
- Time zones and daylight saving. One fixed zone is assumed, so the UTC date key and the local `setHours` agree.
- Concurrency: the read-then-write race on the summary document. Only sequential calls are modelled.
- Clock reads and the display name are parameters of `TimeOut`: `now` for the punch-out, `recordedAt` for the breakdown row's `timestamp`, and `name` for `userData?.name || user.email`.
- `Timekeeping.Timekeeper.AdminSave`: its patch carries only the nine attendance fields. The `id` field and any other extra fields the edit form holds are not modelled. The form's `datetime-local` strings become instants.
- `Records.TimeOutPatch`: its contract does not restate each rounded metric. The rounding itself is stated once, by `Clock.RoundHundredths`.
