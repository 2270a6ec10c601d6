/**
 * Properties of the attendance report: which subjects it has and in what
 * order, what their weekly periods are, when it can be produced, and how
 * it responds to the absence input.
 */
module ReportProperties {
  import opened OrderedDict
  import opened Attendance

  // ---------------------------------------------------------------------
  // Subjects: exactly the scheduled ones, once each, in discovery order

  /** No subject is reported twice. */
  lemma {:induction false} DiscoveredDistinct(occ: seq<Binding<int>>)
    ensures forall i, j | 0 <= i < j < |Discovered(occ)| :: Discovered(occ)[i] != Discovered(occ)[j]
  {
    if occ != [] {
      DiscoveredDistinct(occ[..|occ| - 1]);
    }
  }

  /** A binding's key is found among the timetable's bindings exactly when some day schedules it. */
  lemma {:induction false} OccurrencesKeys(tt: Timetable, s: string)
    ensures (exists i | 0 <= i < |Occurrences(tt)| :: Occurrences(tt)[i].key == s) <==>
            (exists k | 0 <= k < |tt| :: HasKey(tt[k].value, s))
  {
    if tt != [] {
      var pre, last := tt[..|tt| - 1], tt[|tt| - 1].value;
      var occ := Occurrences(pre);
      var all: seq<Binding<int>> := occ + last;
      OccurrencesKeys(pre, s);
      assert Occurrences(tt) == all;
      if exists i | 0 <= i < |all| :: all[i].key == s {
        var i :| 0 <= i < |all| && all[i].key == s;
        if i < |occ| {
          assert all[i] == occ[i];
          var k :| 0 <= k < |pre| && HasKey(pre[k].value, s);
          assert tt[k] == pre[k];
        } else {
          assert last[i - |occ|].key == s;
          assert HasKey(tt[|tt| - 1].value, s);
        }
      }
      if exists k | 0 <= k < |tt| :: HasKey(tt[k].value, s) {
        var k :| 0 <= k < |tt| && HasKey(tt[k].value, s);
        if k < |tt| - 1 {
          assert pre[k] == tt[k];
          var i :| 0 <= i < |occ| && occ[i].key == s;
          assert all[i] == occ[i];
        } else {
          var j :| 0 <= j < |last| && last[j].key == s;
          assert all[|occ| + j] == last[j];
        }
      }
    }
  }

  /**
   * The report's subjects are exactly the subjects some day schedules,
   * and none appears twice.
   */
  lemma SubjectsAreScheduled(tt: Timetable, s: string)
    ensures s in Subjects(tt) <==> exists k | 0 <= k < |tt| :: HasKey(tt[k].value, s)
    ensures forall i, j | 0 <= i < j < |Subjects(tt)| :: Subjects(tt)[i] != Subjects(tt)[j]
  {
    var occ := Occurrences(tt);
    DiscoveredMembers(occ, s);
    OccurrencesKeys(tt, s);
    DiscoveredDistinct(occ);
    assert Subjects(tt) == Discovered(occ);
  }

  /** The first day's bindings come first. */
  lemma {:induction false} OccurrencesStart(tt: Timetable)
    requires tt != []
    ensures tt[0].value <= Occurrences(tt)
  {
    if |tt| == 1 {
      assert tt[..0] == [];
    } else {
      var pre := tt[..|tt| - 1];
      OccurrencesStart(pre);
      assert pre[0] == tt[0];
    }
  }

  /** A subject already discovered keeps its place whatever bindings follow. */
  lemma {:induction false} DiscoveredPrefix(occ: seq<Binding<int>>, more: seq<Binding<int>>)
    ensures Discovered(occ) <= Discovered(occ + more)
    decreases |more|
  {
    if more == [] {
      assert occ + more == occ;
    } else {
      var m := more[..|more| - 1];
      DiscoveredPrefix(occ, m);
      assert (occ + more)[..|occ + more| - 1] == occ + m;
    }
  }

  /**
   * Subjects are ordered by first occurrence: the subject at position `i`
   * occurs at some binding before which (inclusive) the subject at a later
   * position `j` has not yet occurred.
   */
  lemma {:induction false} DiscoveryOrder(occ: seq<Binding<int>>, i: nat, j: nat)
    requires i < j < |Discovered(occ)|
    ensures exists p | 0 <= p < |occ| ::
              occ[p].key == Discovered(occ)[i] &&
              forall q | 0 <= q <= p :: occ[q].key != Discovered(occ)[j]
  {
    var pre := occ[..|occ| - 1];
    var d := Discovered(pre);
    assert forall q | 0 <= q < |pre| :: pre[q] == occ[q];
    if j < |d| {
      DiscoveryOrder(pre, i, j);
      var p :| 0 <= p < |pre| && pre[p].key == d[i] && forall q | 0 <= q <= p :: pre[q].key != d[j];
      assert occ[p].key == Discovered(occ)[i];
    } else {
      var k := occ[|occ| - 1].key;
      assert Discovered(occ) == d + [k] && Discovered(occ)[j] == k;
      DiscoveredMembers(pre, d[i]);
      DiscoveredMembers(pre, k);
      var p :| 0 <= p < |pre| && pre[p].key == d[i];
      assert occ[p].key == Discovered(occ)[i];
    }
  }

  // ---------------------------------------------------------------------
  // Weekly periods

  /** The reference definition: the subject's periods on each day (0 where not scheduled), summed over the days. */
  function WeeklyPeriods(tt: Timetable, s: string): int
  {
    if tt == [] then 0 else WeeklyPeriods(tt[..|tt| - 1], s) + Get(tt[|tt| - 1].value, s, 0)
  }

  lemma WeeklyPeriodsPrefix(tt: Timetable, k: nat, s: string)
    requires k < |tt|
    ensures WeeklyPeriods(tt[..k + 1], s) == WeeklyPeriods(tt[..k], s) + Get(tt[k].value, s, 0)
  {
    assert tt[..k + 1][..k] == tt[..k];
  }

  /** Adding a day's bindings adds that day's periods of `s` to its total. */
  lemma {:induction false} TotalOfDay(seen: seq<Binding<int>>, day: Schedule, s: string)
    requires DistinctKeys(day)
    ensures Total(seen + day, s) == Total(seen, s) + Get(day, s, 0)
    decreases |day|
  {
    if day == [] {
      assert seen + day == seen;
    } else {
      var rest, b := day[..|day| - 1], day[|day| - 1];
      assert forall i | 0 <= i < |rest| :: rest[i] == day[i];
      assert seen + day == (seen + rest) + [b];
      TotalSnoc(seen + rest, b);
      TotalOfDay(seen, rest, s);
      if b.key == s {
        assert !HasKey(rest, s);
      }
    }
  }

  /**
   * What the accumulation stores for a subject is its reference weekly
   * periods, whatever the absences.
   */
  lemma {:induction false} PeriodsPerWeekIsWeekly(tt: Timetable, s: string)
    requires WellFormed(tt)
    ensures PeriodsPerWeek(tt, s) == WeeklyPeriods(tt, s)
  {
    if tt != [] {
      var pre := tt[..|tt| - 1];
      assert forall d | d in pre :: d in tt;
      PeriodsPerWeekIsWeekly(pre, s);
      TotalOfDay(Occurrences(pre), tt[|tt| - 1].value, s);
    }
  }

  /** With positive period counts every binding's value is positive. */
  lemma {:induction false} OccurrencesPositive(tt: Timetable)
    requires PositivePeriods(tt)
    ensures forall b | b in Occurrences(tt) :: b.value > 0
  {
    if tt != [] {
      var pre := tt[..|tt| - 1];
      assert forall d | d in pre :: d in tt;
      OccurrencesPositive(pre);
    }
  }

  lemma {:induction false} TotalPositive(occ: seq<Binding<int>>, s: string)
    requires forall b | b in occ :: b.value > 0
    requires s in Discovered(occ)
    ensures Total(occ, s) > 0
  {
    var pre := occ[..|occ| - 1];
    assert forall b | b in pre :: b in occ;
    if s in Discovered(pre) {
      TotalPositive(pre, s);
    } else {
      TotalUndiscovered(pre, s);
    }
  }

  /**
   * With positive period counts every reported subject has positive
   * weekly periods, hence positive term hours: the percentage's division
   * is always defined.
   */
  lemma PeriodsPositive(tt: Timetable, s: string)
    requires PositivePeriods(tt)
    requires s in Subjects(tt)
    ensures PeriodsPerWeek(tt, s) > 0
    ensures PeriodsPerWeek(tt, s) * TermWeeks > 0
  {
    OccurrencesPositive(tt);
    TotalPositive(Occurrences(tt), s);
  }

  // ---------------------------------------------------------------------
  // The periods of all rows add up to the whole timetable

  /** Sum of all period counts of a list of bindings. */
  function AllPeriods(occ: seq<Binding<int>>): int
  {
    if occ == [] then 0 else AllPeriods(occ[..|occ| - 1]) + occ[|occ| - 1].value
  }

  /** Sum of all period counts of the timetable, day by day. */
  function TimetablePeriods(tt: Timetable): int
  {
    if tt == [] then 0 else TimetablePeriods(tt[..|tt| - 1]) + AllPeriods(tt[|tt| - 1].value)
  }

  /** Sum of the weekly totals of the subjects `ss`. */
  function SumTotals(occ: seq<Binding<int>>, ss: seq<string>): int
  {
    if ss == [] then 0 else SumTotals(occ, ss[..|ss| - 1]) + Total(occ, ss[|ss| - 1])
  }

  function Count(ss: seq<string>, s: string): nat
  {
    if ss == [] then 0 else Count(ss[..|ss| - 1], s) + (if ss[|ss| - 1] == s then 1 else 0)
  }

  lemma {:induction false} CountDistinct(ss: seq<string>, s: string)
    requires forall i, j | 0 <= i < j < |ss| :: ss[i] != ss[j]
    ensures Count(ss, s) == if s in ss then 1 else 0
  {
    if ss != [] {
      var p := ss[..|ss| - 1];
      assert forall i | 0 <= i < |p| :: p[i] == ss[i];
      CountDistinct(p, s);
      assert s in ss <==> s in p || s == ss[|ss| - 1];
    }
  }

  lemma {:induction false} SumTotalsSnoc(occ: seq<Binding<int>>, b: Binding<int>, ss: seq<string>)
    ensures SumTotals(occ + [b], ss) == SumTotals(occ, ss) + b.value * Count(ss, b.key)
  {
    TotalSnoc(occ, b);
    if ss != [] {
      SumTotalsSnoc(occ, b, ss[..|ss| - 1]);
    }
  }

  lemma {:induction false} AllPeriodsAppend(occ: seq<Binding<int>>, more: seq<Binding<int>>)
    ensures AllPeriods(occ + more) == AllPeriods(occ) + AllPeriods(more)
    decreases |more|
  {
    if more == [] {
      assert occ + more == occ;
    } else {
      var m := more[..|more| - 1];
      assert (occ + more)[..|occ + more| - 1] == occ + m;
      AllPeriodsAppend(occ, m);
    }
  }

  lemma {:induction false} OccurrencesPeriods(tt: Timetable)
    ensures AllPeriods(Occurrences(tt)) == TimetablePeriods(tt)
  {
    if tt != [] {
      OccurrencesPeriods(tt[..|tt| - 1]);
      AllPeriodsAppend(Occurrences(tt[..|tt| - 1]), tt[|tt| - 1].value);
    }
  }

  lemma {:induction false} SumOverDiscovered(occ: seq<Binding<int>>)
    ensures SumTotals(occ, Discovered(occ)) == AllPeriods(occ)
  {
    if occ != [] {
      var pre, b := occ[..|occ| - 1], occ[|occ| - 1];
      var d := Discovered(pre);
      assert occ == pre + [b];
      SumOverDiscovered(pre);
      SumTotalsSnoc(pre, b, d);
      DiscoveredDistinct(pre);
      CountDistinct(d, b.key);
      if b.key !in d {
        assert (d + [b.key])[..|d|] == d;
        TotalUndiscovered(pre, b.key);
        TotalSnoc(pre, b);
      }
    }
  }

  /**
   * The weekly periods of all reported subjects add up to the sum of every
   * period count in the timetable.
   */
  lemma ReportedPeriodsAddUp(tt: Timetable)
    ensures SumTotals(Occurrences(tt), Subjects(tt)) == TimetablePeriods(tt)
  {
    SumOverDiscovered(Occurrences(tt));
    OccurrencesPeriods(tt);
  }

  // ---------------------------------------------------------------------
  // When a report exists

  /**
   * A report is produced exactly when there are no subjects or every day
   * of the absences is a timetable day, and no subject's weekly periods
   * are zero.
   */
  lemma ReportDefined(tt: Timetable, a: Absences)
    ensures Report(tt, a).Ok? <==>
              && (Subjects(tt) == [] || forall i | 0 <= i < |a| :: HasKey(tt, a[i].key))
              && forall s | s in Subjects(tt) :: PeriodsPerWeek(tt, s) != 0
  {
    var ss := Subjects(tt);
    RowsShape(tt, a, ss);
    if ss != [] && Report(tt, a).Ok? {
      assert MakeRow(tt, a, ss[0]).Ok?;
    }
  }

  /** The same, for a timetable whose period counts are all positive. */
  lemma ReportDefinedForPositivePeriods(tt: Timetable, a: Absences)
    requires PositivePeriods(tt)
    requires forall i | 0 <= i < |a| :: HasKey(tt, a[i].key)
    ensures Report(tt, a).Ok?
  {
    forall s | s in Subjects(tt) ensures PeriodsPerWeek(tt, s) != 0 {
      PeriodsPositive(tt, s);
    }
    ReportDefined(tt, a);
  }

  // ---------------------------------------------------------------------
  // No absences: full attendance

  lemma {:induction false} NoHoursMissed(tt: Timetable, a: Absences, s: string)
    requires forall i | 0 <= i < |a| :: a[i].value == 0
    requires HoursMissed(tt, a, s).Ok?
    ensures HoursMissed(tt, a, s).value == 0
  {
    if a != [] {
      NoHoursMissed(tt, a[1..], s);
    }
  }

  lemma PercentageOfWhole(t: int)
    requires t != 0
    ensures Percentage(t, t) == 100.0
  {
    assert t as real / t as real == 1.0;
  }

  /**
   * With every absence count 0, each subject attends all its hours, at
   * exactly 100 percent, and meets the requirement.
   */
  lemma FullAttendance(tt: Timetable, a: Absences)
    requires forall i | 0 <= i < |a| :: a[i].value == 0
    requires Report(tt, a).Ok?
    ensures forall r | r in Report(tt, a).value ::
              && r.hoursMissed == 0
              && r.HoursAttended() == r.totalHours
              && r.percentage == 100.0
              && r.status == MetRequirement
  {
    var ss := Subjects(tt);
    var rows := Report(tt, a).value;
    RowsShape(tt, a, ss);
    forall r | r in rows
      ensures r.hoursMissed == 0 && r.HoursAttended() == r.totalHours
      ensures r.percentage == 100.0 && r.status == MetRequirement
    {
      var i :| 0 <= i < |rows| && rows[i] == r;
      NoHoursMissed(tt, a, ss[i]);
      PercentageOfWhole(r.totalHours);
    }
  }

  // ---------------------------------------------------------------------
  // More absence never helps

  /** The absences with one day's count raised by `delta`. */
  function Raise(a: Absences, k: nat, delta: int): (a': Absences)
    requires k < |a|
  {
    a[k := Binding(a[k].key, a[k].value + delta)]
  }

  /**
   * Raising one day's count by `delta` adds `delta` times that day's
   * periods of `s` to the hours missed, and fails exactly when the
   * original fails.
   */
  lemma {:induction false} HoursMissedRaise(tt: Timetable, a: Absences, k: nat, delta: int, s: string)
    requires k < |a|
    ensures HoursMissed(tt, Raise(a, k, delta), s).Ok? == HoursMissed(tt, a, s).Ok?
    ensures HoursMissed(tt, a, s).Ok? ==>
              HoursMissed(tt, Raise(a, k, delta), s).value ==
              HoursMissed(tt, a, s).value + delta * Get(ScheduleOf(tt, a[k].key), s, 0)
  {
    var a' := Raise(a, k, delta);
    if k == 0 {
      assert a'[1..] == a[1..];
      if HoursMissed(tt, a, s).Ok? {
        var g := Get(ScheduleOf(tt, a[0].key), s, 0);
        assert (a[0].value + delta) * g == a[0].value * g + delta * g;
      }
    } else {
      assert a'[1..] == Raise(a[1..], k - 1, delta);
      HoursMissedRaise(tt, a[1..], k - 1, delta, s);
    }
  }

  /** With positive period counts, a day's periods of a subject are never negative, and positive when scheduled. */
  lemma DayPeriods(tt: Timetable, day: string, s: string)
    requires PositivePeriods(tt)
    ensures Get(ScheduleOf(tt, day), s, 0) >= 0
    ensures HasKey(ScheduleOf(tt, day), s) ==> Get(ScheduleOf(tt, day), s, 0) > 0
  {
    var schedule := ScheduleOf(tt, day);
    if Lookup(tt, day).Some? {
      var i :| 0 <= i < |tt| && tt[i].key == day && tt[i].value == schedule;
      assert tt[i] in tt;
    }
    if Lookup(schedule, s).Some? {
      var j :| 0 <= j < |schedule| && schedule[j].key == s && schedule[j].value == Get(schedule, s, 0);
      assert schedule[j] in schedule;
    }
  }

  lemma PercentageMonotone(lower: int, higher: int, total: int)
    requires total > 0
    requires lower <= higher
    ensures Percentage(lower, total) <= Percentage(higher, total)
    ensures lower < higher ==> Percentage(lower, total) < Percentage(higher, total)
  {
    PercentageMeaning(lower, total);
    PercentageMeaning(higher, total);
    var p, q := Percentage(lower, total), Percentage(higher, total);
    assert (q - p) * total as real == ((higher - lower) * 100) as real;
  }

  /**
   * The row of one subject after raising one day's count by `delta >= 0`:
   * same subject and hours, hours missed grown by `delta` times its
   * periods that day, attended hours and percentage no higher, and lower
   * when it is scheduled that day and `delta > 0`.
   */
  lemma RowRaise(tt: Timetable, a: Absences, k: nat, delta: int, s: string)
    requires PositivePeriods(tt)
    requires k < |a| && delta >= 0
    requires s in Subjects(tt)
    ensures MakeRow(tt, Raise(a, k, delta), s).Ok? == MakeRow(tt, a, s).Ok?
    ensures MakeRow(tt, a, s).Ok? ==>
              var before, after := MakeRow(tt, a, s).value, MakeRow(tt, Raise(a, k, delta), s).value;
              var schedule := ScheduleOf(tt, a[k].key);
              && after.subject == before.subject
              && after.totalHours == before.totalHours
              && after.hoursMissed == before.hoursMissed + delta * Get(schedule, s, 0)
              && after.HoursAttended() <= before.HoursAttended()
              && after.percentage <= before.percentage
              && (delta > 0 && HasKey(schedule, s) ==>
                    after.HoursAttended() < before.HoursAttended() && after.percentage < before.percentage)
  {
    HoursMissedRaise(tt, a, k, delta, s);
    if MakeRow(tt, a, s).Ok? {
      var before, after := MakeRow(tt, a, s).value, MakeRow(tt, Raise(a, k, delta), s).value;
      PeriodsPositive(tt, s);
      DayPeriods(tt, a[k].key, s);
      DeltaHours(delta, Get(ScheduleOf(tt, a[k].key), s, 0));
      assert after.totalHours == before.totalHours > 0;
      PercentageMonotone(after.HoursAttended(), before.HoursAttended(), before.totalHours);
    }
  }

  lemma DeltaHours(delta: int, g: int)
    requires delta >= 0 && g >= 0
    ensures delta * g >= 0
    ensures delta > 0 && g > 0 ==> delta * g > 0
  {
  }

  /**
   * Raising one day's absence count by `delta >= 0` changes no subject,
   * and no total hours; every subject's hours missed grow by `delta`
   * times its periods that day, so hours attended and the percentage
   * never rise, and fall for every subject scheduled that day when
   * `delta > 0`.
   */
  lemma MoreAbsenceNeverHelps(tt: Timetable, a: Absences, k: nat, delta: int)
    requires PositivePeriods(tt)
    requires k < |a| && delta >= 0
    ensures Report(tt, Raise(a, k, delta)).Ok? == Report(tt, a).Ok?
    ensures Report(tt, a).Ok? ==>
              var before, after := Report(tt, a).value, Report(tt, Raise(a, k, delta)).value;
              var schedule := ScheduleOf(tt, a[k].key);
              && |after| == |before|
              && forall i | 0 <= i < |before| ::
                   && after[i].subject == before[i].subject
                   && after[i].totalHours == before[i].totalHours
                   && after[i].hoursMissed == before[i].hoursMissed + delta * Get(schedule, before[i].subject, 0)
                   && after[i].HoursAttended() <= before[i].HoursAttended()
                   && after[i].percentage <= before[i].percentage
                   && (delta > 0 && HasKey(schedule, before[i].subject) ==>
                         after[i].HoursAttended() < before[i].HoursAttended() &&
                         after[i].percentage < before[i].percentage)
  {
    var a' := Raise(a, k, delta);
    var ss := Subjects(tt);
    RowsShape(tt, a, ss);
    RowsShape(tt, a', ss);
    forall i | 0 <= i < |ss|
      ensures MakeRow(tt, a', ss[i]).Ok? == MakeRow(tt, a, ss[i]).Ok?
    {
      RowRaise(tt, a, k, delta, ss[i]);
    }
    if Report(tt, a).Ok? {
      forall i | 0 <= i < |ss| {
        RowRaise(tt, a, k, delta, ss[i]);
      }
    }
  }
}
