/** The administrator's read-only views: the weekly report over all daily
    summaries and the attendance list of one selected date. */
module Reports {
  import opened Clock
  import opened Records
  import opened DailySummary

  /** A summary document with its id, the date: `{ date: doc.id, ...doc.data() }`. */
  datatype DaySummary = DaySummary(date: Date, totals: Totals)

  ghost predicate SortedDesc(s: seq<DaySummary>)
  {
    forall i, j | 0 <= i < j < |s| :: s[i].date >= s[j].date
  }

  ghost predicate StrictlyDesc(s: seq<DaySummary>)
  {
    forall i, j | 0 <= i < j < |s| :: s[i].date > s[j].date
  }

  ghost predicate StrictlyAsc(s: seq<DaySummary>)
  {
    forall i, j | 0 <= i < j < |s| :: s[i].date < s[j].date
  }

  /** No two summaries share a date, as when they are the documents of one
      collection keyed by date. */
  ghost predicate DistinctDates(s: seq<DaySummary>)
  {
    forall i, j | 0 <= i < j < |s| :: s[i].date != s[j].date
  }

  ghost function DatesOf(s: seq<DaySummary>): set<Date>
  {
    set x | x in s :: x.date
  }

  /** `x` placed into the newest-first sequence `s`, ahead of every summary
      of the same or an older date. */
  function Insert(x: DaySummary, s: seq<DaySummary>): (r: seq<DaySummary>)
    ensures |r| == |s| + 1
    ensures multiset(r) == multiset(s) + multiset{x}
    ensures forall y | y in r :: y == x || y in s
  {
    if s == [] || x.date >= s[0].date then [x] + s
    else
      assert s == [s[0]] + s[1..];
      [s[0]] + Insert(x, s[1..])
  }

  /** Inserting into a newest-first sequence keeps it newest first. */
  lemma {:induction false} InsertSorted(x: DaySummary, s: seq<DaySummary>)
    requires SortedDesc(s)
    ensures SortedDesc(Insert(x, s))
  {
    if s != [] && x.date < s[0].date {
      var t := Insert(x, s[1..]);
      assert SortedDesc(s[1..]) by {
        forall i, j | 0 <= i < j < |s[1..]| ensures s[1..][i].date >= s[1..][j].date {
          assert s[1..][i] == s[i + 1] && s[1..][j] == s[j + 1];
        }
      }
      InsertSorted(x, s[1..]);
      forall k | 0 <= k < |t| ensures t[k].date <= s[0].date {
        assert t[k] in t;
        if t[k] != x {
          var i :| 0 <= i < |s[1..]| && s[1..][i] == t[k];
          assert s[i + 1] == t[k];
        }
      }
      var r := Insert(x, s);
      assert r == [s[0]] + t;
      forall i, j | 0 <= i < j < |r| ensures r[i].date >= r[j].date {
        if i == 0 {
          assert r[j] == t[j - 1];
        } else {
          assert r[i] == t[i - 1] && r[j] == t[j - 1];
        }
      }
    }
  }

  /** Newest first: `data.sort((a, b) => new Date(b.date) - new Date(a.date))`.
      The result is the input reordered, with dates never increasing; like
      `Array.prototype.sort`, it is stable (`SortStable`). */
  function SortByDateDesc(s: seq<DaySummary>): (r: seq<DaySummary>)
    ensures |r| == |s|
    ensures multiset(r) == multiset(s)
    ensures SortedDesc(r)
  {
    if s == [] then []
    else
      assert s == [s[0]] + s[1..];
      InsertSorted(s[0], SortByDateDesc(s[1..]));
      Insert(s[0], SortByDateDesc(s[1..]))
  }

  function Reverse(s: seq<DaySummary>): (r: seq<DaySummary>)
    ensures |r| == |s|
    ensures forall i | 0 <= i < |s| :: r[i] == s[|s| - 1 - i]
  {
    if s == [] then [] else Reverse(s[1..]) + [s[0]]
  }

  lemma {:induction false} ReverseMultiset(s: seq<DaySummary>)
    ensures multiset(Reverse(s)) == multiset(s)
  {
    if s != [] {
      ReverseMultiset(s[1..]);
      assert s == [s[0]] + s[1..];
    }
  }

  lemma {:induction false} InsertStrict(x: DaySummary, t: seq<DaySummary>)
    requires StrictlyDesc(t) && x.date !in DatesOf(t)
    ensures StrictlyDesc(Insert(x, t))
  {
    if t != [] && x.date < t[0].date {
      InsertStrict(x, t[1..]);
      assert x.date !in DatesOf(t[1..]) by {
        forall y | y in t[1..] ensures y.date != x.date {
          assert y in t;
        }
      }
      forall y | y in Insert(x, t[1..]) ensures y.date < t[0].date {
        if y != x {
          var i :| 0 <= i < |t[1..]| && t[1..][i] == y;
          assert t[i + 1] == y;
        }
      }
    } else if t != [] {
      assert x.date != t[0].date by { assert t[0] in t; }
    }
  }

  /** With no two summaries sharing a date, the newest-first order is strict. */
  lemma {:induction false} SortStrict(s: seq<DaySummary>)
    requires DistinctDates(s)
    ensures StrictlyDesc(SortByDateDesc(s))
  {
    if s != [] {
      var rest := SortByDateDesc(s[1..]);
      assert DistinctDates(s[1..]) by {
        forall i, j | 0 <= i < j < |s[1..]| ensures s[1..][i].date != s[1..][j].date {
          assert s[1..][i] == s[i + 1] && s[1..][j] == s[j + 1];
        }
      }
      SortStrict(s[1..]);
      assert s[0].date !in DatesOf(rest) by {
        forall y | y in rest ensures y.date != s[0].date {
          assert y in multiset(rest);
          var i :| 0 <= i < |s[1..]| && s[1..][i] == y;
          assert s[i + 1] == y;
        }
      }
      InsertStrict(s[0], rest);
    }
  }

  /** The summaries of date `d`, in their order in `s`. */
  function WithDate(s: seq<DaySummary>, d: Date): seq<DaySummary>
  {
    if s == [] then [] else (if s[0].date == d then [s[0]] else []) + WithDate(s[1..], d)
  }

  /** Insertion puts `x` ahead of every summary of its own date. */
  lemma {:induction false} InsertWithDate(x: DaySummary, t: seq<DaySummary>, d: Date)
    ensures WithDate(Insert(x, t), d) == (if x.date == d then [x] else []) + WithDate(t, d)
  {
    if t == [] || x.date >= t[0].date {
      assert ([x] + t)[0] == x && ([x] + t)[1..] == t;
    } else {
      InsertWithDate(x, t[1..], d);
      var r := Insert(x, t);
      assert r[0] == t[0] && r[1..] == Insert(x, t[1..]);
    }
  }

  /** The sort is stable: the summaries of any one date keep their order. */
  lemma {:induction false} SortStable(s: seq<DaySummary>, d: Date)
    ensures WithDate(SortByDateDesc(s), d) == WithDate(s, d)
  {
    if s != [] {
      SortStable(s[1..], d);
      InsertWithDate(s[0], SortByDateDesc(s[1..]), d);
    }
  }

  /** How many summaries the weekly report keeps. */
  const WEEK: nat := 7

  /** `fetchWeeklySummary`: newest first, the first seven, reversed. The
      report holds seven summaries, or all of them when there are fewer. */
  function WeeklyView(s: seq<DaySummary>): (r: seq<DaySummary>)
    ensures |r| == Min(|s|, WEEK)
  {
    Reverse(SortByDateDesc(s)[..Min(|s|, WEEK)])
  }

  /** The report is the first `k` summaries of the sorted sequence; the
      rest of it is what the report leaves out. */
  lemma WeeklyParts(s: seq<DaySummary>)
    ensures var r, k := SortByDateDesc(s), Min(|s|, WEEK);
      && multiset(WeeklyView(s)) == multiset(r[..k])
      && multiset(s) == multiset(r[..k]) + multiset(r[k..])
  {
    var r, k := SortByDateDesc(s), Min(|s|, WEEK);
    var t := r[..k];
    assert WeeklyView(s) == Reverse(t);
    ReverseMultiset(t);
    SplitMultiset(r, k);
  }

  lemma SplitMultiset(r: seq<DaySummary>, k: nat)
    requires k <= |r|
    ensures multiset(r) == multiset(r[..k]) + multiset(r[k..])
  {
    assert r == r[..k] + r[k..];
  }

  /** Every entry of the report is one of the summaries, as often as it
      occurs there: no date is filled in with zeros. */
  lemma WeeklyFromInput(s: seq<DaySummary>)
    ensures multiset(WeeklyView(s)) <= multiset(s)
    ensures forall y | y in WeeklyView(s) :: y in s
  {
    WeeklyParts(s);
    forall y | y in WeeklyView(s) ensures y in s {
      assert y in multiset(WeeklyView(s));
    }
  }

  /** The report runs oldest to newest, strictly so when no two summaries
      share a date. */
  lemma WeeklyAscending(s: seq<DaySummary>)
    ensures forall i, j | 0 <= i < j < |WeeklyView(s)| :: WeeklyView(s)[i].date <= WeeklyView(s)[j].date
    ensures DistinctDates(s) ==> StrictlyAsc(WeeklyView(s))
  {
    var r, k := SortByDateDesc(s), Min(|s|, WEEK);
    var v := WeeklyView(s);
    if DistinctDates(s) {
      SortStrict(s);
    }
    forall i, j | 0 <= i < j < |v|
      ensures v[i].date <= v[j].date
      ensures DistinctDates(s) ==> v[i].date < v[j].date
    {
      assert v[i] == r[k - 1 - i] && v[j] == r[k - 1 - j];
    }
  }

  /** In a newest-first sequence, everything after position `k` is no newer
      than anything before it. */
  lemma SortedSplit(r: seq<DaySummary>, k: nat)
    requires SortedDesc(r) && k <= |r|
    ensures forall x, y | x in multiset(r[k..]) && y in multiset(r[..k]) :: x.date <= y.date
    ensures StrictlyDesc(r) ==> forall x, y | x in multiset(r[k..]) && y in multiset(r[..k]) :: x.date < y.date
  {
    forall x: DaySummary, y: DaySummary | x in multiset(r[k..]) && y in multiset(r[..k])
      ensures x.date <= y.date
      ensures StrictlyDesc(r) ==> x.date < y.date
    {
      var i :| k <= i < |r| && r[i] == x;
      var j :| 0 <= j < k && r[j] == y;
    }
  }

  lemma SubtractParts(a: multiset<DaySummary>, b: multiset<DaySummary>)
    ensures (a + b) - a == b
  {
  }

  /** A summary the report leaves out is no newer than any it keeps, and
      strictly older when no two summaries share a date. */
  lemma WeeklyMostRecent(s: seq<DaySummary>)
    ensures forall x, y | x in multiset(s) - multiset(WeeklyView(s)) && y in WeeklyView(s) :: x.date <= y.date
    ensures DistinctDates(s) ==>
      forall x, y | x in multiset(s) - multiset(WeeklyView(s)) && y in WeeklyView(s) :: x.date < y.date
  {
    if DistinctDates(s) {
      SortStrict(s);
    }
    var r, k := SortByDateDesc(s), Min(|s|, WEEK);
    var v, kept, dropped := WeeklyView(s), r[..k], r[k..];
    WeeklyParts(s);
    SubtractParts(multiset(kept), multiset(dropped));
    assert multiset(s) - multiset(v) == multiset(dropped);
    SortedSplit(r, k);
    forall y | y in v ensures y in multiset(kept) {
      assert y in multiset(v);
    }
  }

  /** An attendance document with its id: `{ id: doc.id, ...doc.data() }`. */
  datatype AttendanceDoc = AttendanceDoc(id: DocId, record: AttendanceRecord)

  /** `fetchAttendanceForDate`: the documents whose `date` field is the
      selected date, each as often as it occurs, and no others. */
  function OnDate(docs: seq<AttendanceDoc>, date: Date): (r: seq<AttendanceDoc>)
    ensures forall x | x in r :: x in docs && x.record.date == Some(date)
    ensures |r| <= |docs|
  {
    if docs == [] then []
    else (if docs[0].record.date == Some(date) then [docs[0]] else []) + OnDate(docs[1..], date)
  }

  /** Each document of the selected date is listed exactly as many times as
      it is stored; no other document is listed. */
  lemma {:induction false} OnDateCounts(docs: seq<AttendanceDoc>, date: Date, x: AttendanceDoc)
    ensures multiset(OnDate(docs, date))[x] == if x.record.date == Some(date) then multiset(docs)[x] else 0
  {
    if docs != [] {
      assert docs == [docs[0]] + docs[1..];
      OnDateCounts(docs[1..], date, x);
    }
  }

  /** The filter keeps the documents' order: filtering a concatenation is
      concatenating the filtered parts. */
  lemma {:induction false} OnDateAppend(a: seq<AttendanceDoc>, b: seq<AttendanceDoc>, date: Date)
    ensures OnDate(a + b, date) == OnDate(a, date) + OnDate(b, date)
  {
    if a != [] {
      var head := if a[0].record.date == Some(date) then [a[0]] else [];
      assert (a + b)[0] == a[0] && (a + b)[1..] == a[1..] + b;
      assert OnDate(a + b, date) == head + OnDate(a[1..] + b, date);
      OnDateAppend(a[1..], b, date);
      assert OnDate(a, date) == head + OnDate(a[1..], date);
    } else {
      assert a + b == b;
    }
  }

  /** When every document is of the selected date, all of them are listed as they are. */
  lemma {:induction false} OnDateKeepsAll(docs: seq<AttendanceDoc>, date: Date)
    requires forall x | x in docs :: x.record.date == Some(date)
    ensures OnDate(docs, date) == docs
  {
    if docs != [] {
      OnDateKeepsAll(docs[1..], date);
    }
  }
}
