/** Attendance documents as the store keeps them: every field optional, and
    writes made with merge semantics (`setDoc(ref, fields, { merge: true })`). */
module Records {
  import opened Clock
  import ShiftMetrics

  datatype Option<+T> = None | Some(value: T)

  /** The look-up a `getDoc` makes: the stored value, or `None` when no
      document has that key. */
  function Lookup<K, V>(m: map<K, V>, k: K): (r: Option<V>)
    ensures r.Some? <==> k in m
    ensures r.Some? ==> r.value == m[k]
  {
    if k in m then Some(m[k]) else None
  }

  /** An attendance document's id: `${uid}_${date}` for an employee's punch
      record, or the `Date.now()` stamp an administrator's new record gets. */
  datatype DocId = PunchKey(uid: string, date: Date) | Generated(stamp: Millis)

  /** The fields of an attendance document, `None` where a field is absent.
      The five metrics are the rounded values a punch-out stores: hundredths
      of an hour for `regular`, `overtime` and `nightDiff`, hundredths of a
      minute for `late` and `undertime`. */
  datatype AttendanceRecord = AttendanceRecord(
    uid: Option<string>,
    date: Option<Date>,
    timeIn: Option<Millis>,
    timeOut: Option<Millis>,
    regular: Option<Hundredths>,
    overtime: Option<Hundredths>,
    late: Option<Hundredths>,
    undertime: Option<Hundredths>,
    nightDiff: Option<Hundredths>)

  const NoFields: AttendanceRecord :=
    AttendanceRecord(None, None, None, None, None, None, None, None, None)

  function Pick<T>(written: Option<T>, prior: Option<T>): Option<T>
  {
    if written.Some? then written else prior
  }

  /** A merge write of `patch` over the stored document `prior` (absent when
      `None`): every field the patch supplies overwrites, every other field
      keeps its stored value. */
  function Merge(prior: Option<AttendanceRecord>, patch: AttendanceRecord): (r: AttendanceRecord)
    ensures prior.None? ==> r == patch
    ensures patch == NoFields && prior.Some? ==> r == prior.value
  {
    var base := if prior.Some? then prior.value else NoFields;
    AttendanceRecord(
      Pick(patch.uid, base.uid), Pick(patch.date, base.date), Pick(patch.timeIn, base.timeIn),
      Pick(patch.timeOut, base.timeOut), Pick(patch.regular, base.regular),
      Pick(patch.overtime, base.overtime), Pick(patch.late, base.late),
      Pick(patch.undertime, base.undertime), Pick(patch.nightDiff, base.nightDiff))
  }

  /** Field by field, a merged document takes the patch's value where the
      patch has one and the stored value elsewhere. */
  lemma MergeFields(prior: AttendanceRecord, patch: AttendanceRecord)
    ensures var r := Merge(Some(prior), patch);
      && r.uid == (if patch.uid.Some? then patch.uid else prior.uid)
      && r.date == (if patch.date.Some? then patch.date else prior.date)
      && r.timeIn == (if patch.timeIn.Some? then patch.timeIn else prior.timeIn)
      && r.timeOut == (if patch.timeOut.Some? then patch.timeOut else prior.timeOut)
      && r.regular == (if patch.regular.Some? then patch.regular else prior.regular)
      && r.overtime == (if patch.overtime.Some? then patch.overtime else prior.overtime)
      && r.late == (if patch.late.Some? then patch.late else prior.late)
      && r.undertime == (if patch.undertime.Some? then patch.undertime else prior.undertime)
      && r.nightDiff == (if patch.nightDiff.Some? then patch.nightDiff else prior.nightDiff)
  {
  }

  /** Writing the same patch twice leaves what writing it once left. */
  lemma MergeIdempotent(prior: Option<AttendanceRecord>, patch: AttendanceRecord)
    ensures Merge(Some(Merge(prior, patch)), patch) == Merge(prior, patch)
  {
  }

  /** A field present before a merge is still present after it. */
  lemma MergeKeepsPresent(prior: AttendanceRecord, patch: AttendanceRecord)
    ensures prior.timeIn.Some? ==> Merge(Some(prior), patch).timeIn.Some?
    ensures prior.timeOut.Some? ==> Merge(Some(prior), patch).timeOut.Some?
  {
  }

  /** The fields a punch-in writes: `{ uid, date, timeIn }`. */
  function TimeInPatch(uid: string, date: Date, now: Millis): (p: AttendanceRecord)
    ensures p.timeOut.None? && p.timeIn == Some(now)
  {
    NoFields.(uid := Some(uid), date := Some(date), timeIn := Some(now))
  }

  /** The fields a punch-out writes: `timeOut` and the five metrics, each
      rounded by `toFixed(2)` (the night differential is already rounded). */
  function TimeOutPatch(now: Millis, m: ShiftMetrics.Metrics): (p: AttendanceRecord)
    ensures p.uid.None? && p.date.None? && p.timeIn.None? && p.timeOut == Some(now)
    ensures p.nightDiff == Some(m.nightDiff)
    ensures m.overtime >= 0 ==> p.overtime.Some? && p.overtime.value >= 0
  {
    RoundHundredthsExact(m.nightDiff, HOUR);
    NoFields.(
      timeOut := Some(now),
      regular := Some(RoundHundredths(m.regular, HOUR)),
      overtime := Some(RoundHundredths(m.overtime, HOUR)),
      late := Some(RoundHundredths(m.late, MINUTE)),
      undertime := Some(RoundHundredths(m.undertime, MINUTE)),
      nightDiff := Some(RoundHundredths(m.nightDiff * (HOUR / 100), HOUR)))
  }
}
