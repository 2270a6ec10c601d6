/**
 * The attendance calculator: from a weekly timetable (day to subject to
 * periods that day) and a count of missed weekdays per day, one report row
 * per subject, in order of first discovery.
 *
 * The functions below are the specification; `CalculateAttendance` is the
 * calculation as the program performs it (accumulate weekly periods into a
 * dictionary, then emit a row per subject) and is proved to equal `Report`.
 */
module Attendance {
  import opened OrderedDict

  /** Weeks in a term: weekly periods are scaled by this to term hours. */
  const TermWeeks: int := 15

  /** The attendance a subject needs, in percent. */
  const RequiredPercentage: int := 75

  /** A day's classes: subject to periods held that day. */
  type Schedule = Dict<int>

  /** Weekday name to that day's schedule. */
  type Timetable = Dict<Schedule>

  /** Weekday name to the number of those weekdays missed in the term. */
  type Absences = Dict<int>

  /** Days are distinct, and so are the subjects within each day. */
  predicate WellFormed(tt: Timetable)
  {
    DistinctKeys(tt) && forall d | d in tt :: DistinctKeys(d.value)
  }

  /** Every scheduled period count is positive. */
  predicate PositivePeriods(tt: Timetable)
  {
    forall d, b | d in tt && b in d.value :: b.value > 0
  }

  datatype Status = MetRequirement | BelowRequirement

  /** Why a report cannot be produced. */
  datatype Fault =
    | UnknownDay(day: string)            // `timetable[day]` raises KeyError
    | NoScheduledHours(subject: string)  // division by zero total hours

  datatype Result<+T> = Ok(value: T) | Err(fault: Fault)

  /**
   * One report row. `hoursMissed` is the column the program labels
   * "Days Absent"; `percentage` is the exact value the program formats
   * with two decimals.
   */
  datatype Row = Row(subject: string, periodsPerWeek: int, totalHours: int,
                     hoursMissed: int, percentage: real, status: Status)
  {
    function HoursAttended(): int { totalHours - hoursMissed }
  }

  // ---------------------------------------------------------------------
  // Aggregation of the timetable

  /** Every (subject, periods) binding of the timetable, days in order. */
  function Occurrences(tt: Timetable): seq<Binding<int>>
  {
    if tt == [] then [] else Occurrences(tt[..|tt| - 1]) + tt[|tt| - 1].value
  }

  /**
   * The subjects of `occ` in order of first discovery: a subject is added
   * when it is first met and never moved by a later binding.
   */
  function Discovered(occ: seq<Binding<int>>): seq<string>
  {
    if occ == [] then []
    else
      var prefix := Discovered(occ[..|occ| - 1]);
      if occ[|occ| - 1].key in prefix then prefix else prefix + [occ[|occ| - 1].key]
  }

  /** Sum of the periods bound to `s` in `occ`. */
  function Total(occ: seq<Binding<int>>, s: string): int
  {
    if occ == [] then 0
    else Total(occ[..|occ| - 1], s) + (if occ[|occ| - 1].key == s then occ[|occ| - 1].value else 0)
  }

  /** The report's subjects, in the order the calculation meets them. */
  function Subjects(tt: Timetable): seq<string>
  {
    Discovered(Occurrences(tt))
  }

  /** What the accumulation loop stores for `s`: its periods summed over every binding. */
  function PeriodsPerWeek(tt: Timetable, s: string): int
  {
    Total(Occurrences(tt), s)
  }

  /** The schedule of `day`, or the empty schedule when it is not a timetable day. */
  function ScheduleOf(tt: Timetable, day: string): Schedule
  {
    Get(tt, day, [])
  }

  /**
   * Hours of `s` missed: the sum, over the days of `a` in their order, of
   * the count for that day times the periods of `s` that day (0 when not
   * scheduled). The first day of `a` that is not a timetable day fails.
   */
  function HoursMissed(tt: Timetable, a: Absences, s: string): (r: Result<int>)
    ensures r.Ok? <==> forall i | 0 <= i < |a| :: HasKey(tt, a[i].key)
    ensures r.Err? ==> r.fault.UnknownDay? && !HasKey(tt, r.fault.day) &&
                       exists i | 0 <= i < |a| :: a[i].key == r.fault.day &&
                                                  forall j | 0 <= j < i :: HasKey(tt, a[j].key)
  {
    if a == [] then Ok(0)
    else match Lookup(tt, a[0].key)
      case None => Err(UnknownDay(a[0].key))
      case Some(schedule) =>
        match HoursMissed(tt, a[1..], s)
        case Err(f) =>
          var i :| 0 <= i < |a[1..]| && a[1..][i].key == f.day &&
                   forall j | 0 <= j < i :: HasKey(tt, a[1..][j].key);
          assert a[i + 1].key == f.day && forall j | 0 <= j < i + 1 :: HasKey(tt, a[j].key);
          Err(f)
        case Ok(rest) => Ok(a[0].value * Get(schedule, s, 0) + rest)
  }

  /** `hours_attended / total_hours * 100`, exactly. */
  function Percentage(attended: int, total: int): real
    requires total != 0
  {
    (attended as real / total as real) * 100.0
  }

  /**
   * The percentage is the real number that, multiplied by the total,
   * gives a hundred times the attended hours; for a positive total it
   * reaches the requirement exactly when the integer comparison does.
   */
  lemma PercentageMeaning(attended: int, total: int)
    requires total != 0
    ensures Percentage(attended, total) * total as real == (attended * 100) as real
    ensures total > 0 ==>
              (Percentage(attended, total) >= RequiredPercentage as real <==>
               attended * 100 >= RequiredPercentage * total)
  {
    var p := Percentage(attended, total);
    assert p * total as real == attended as real * 100.0;
  }

  function StatusOf(percentage: real): Status
  {
    if percentage >= RequiredPercentage as real then MetRequirement else BelowRequirement
  }

  /** The row of subject `s`. */
  function MakeRow(tt: Timetable, a: Absences, s: string): (r: Result<Row>)
    ensures r.Ok? <==> HoursMissed(tt, a, s).Ok? && PeriodsPerWeek(tt, s) != 0
    ensures r.Ok? ==>
              && r.value.subject == s
              && r.value.periodsPerWeek == PeriodsPerWeek(tt, s)
              && r.value.totalHours == r.value.periodsPerWeek * TermWeeks
              && r.value.hoursMissed == HoursMissed(tt, a, s).value
              && r.value.percentage == Percentage(r.value.HoursAttended(), r.value.totalHours)
              && (r.value.totalHours > 0 ==>
                    (r.value.status == MetRequirement <==>
                     r.value.HoursAttended() * 100 >= RequiredPercentage * r.value.totalHours))
  {
    var periods := PeriodsPerWeek(tt, s);
    var total := periods * TermWeeks;
    match HoursMissed(tt, a, s)
    case Err(f) => Err(f)
    case Ok(missed) =>
      if total == 0 then Err(NoScheduledHours(s))
      else
        var pct := Percentage(total - missed, total);
        PercentageMeaning(total - missed, total);
        Ok(Row(s, periods, total, missed, pct, StatusOf(pct)))
  }

  /** The rows of `ss` in order; the first subject whose row fails fails the whole. */
  function Rows(tt: Timetable, a: Absences, ss: seq<string>): Result<seq<Row>>
  {
    if ss == [] then Ok([])
    else match Rows(tt, a, ss[..|ss| - 1])
      case Err(f) => Err(f)
      case Ok(rows) =>
        match MakeRow(tt, a, ss[|ss| - 1])
        case Err(f) => Err(f)
        case Ok(row) => Ok(rows + [row])
  }

  /** The attendance report: one row per subject, in order of first discovery. */
  function Report(tt: Timetable, a: Absences): Result<seq<Row>>
  {
    Rows(tt, a, Subjects(tt))
  }

  lemma OccurrencesSnoc(tt: Timetable, i: nat)
    requires i < |tt|
    ensures Occurrences(tt[..i + 1]) == Occurrences(tt[..i]) + tt[i].value
  {
    assert tt[..i + 1][..i] == tt[..i];
  }

  lemma DiscoveredSnoc(occ: seq<Binding<int>>, b: Binding<int>)
    ensures Discovered(occ + [b]) ==
            if b.key in Discovered(occ) then Discovered(occ) else Discovered(occ) + [b.key]
  {
    assert (occ + [b])[..|occ|] == occ;
  }

  lemma TotalSnoc(occ: seq<Binding<int>>, b: Binding<int>)
    ensures forall s :: Total(occ + [b], s) == Total(occ, s) + (if b.key == s then b.value else 0)
  {
    assert (occ + [b])[..|occ|] == occ;
  }

  /** A subject is discovered exactly when some binding names it. */
  lemma {:induction false} DiscoveredMembers(occ: seq<Binding<int>>, s: string)
    ensures s in Discovered(occ) <==> exists i | 0 <= i < |occ| :: occ[i].key == s
  {
    if occ != [] {
      var p := occ[..|occ| - 1];
      DiscoveredMembers(p, s);
      assert forall i | 0 <= i < |p| :: p[i] == occ[i];
      if s in Discovered(p) {
        var i :| 0 <= i < |p| && p[i].key == s;
        assert occ[i].key == s;
      }
    }
  }

  /** A subject no binding names has total 0. */
  lemma {:induction false} TotalUndiscovered(occ: seq<Binding<int>>, s: string)
    requires s !in Discovered(occ)
    ensures Total(occ, s) == 0
  {
    if occ != [] {
      TotalUndiscovered(occ[..|occ| - 1], s);
    }
  }

  /**
   * The rows of `ss` exist exactly when every subject's row does, and are
   * then those rows, one per subject, in the order of `ss`.
   */
  lemma {:induction false} RowsShape(tt: Timetable, a: Absences, ss: seq<string>)
    ensures Rows(tt, a, ss).Ok? <==> forall i | 0 <= i < |ss| :: MakeRow(tt, a, ss[i]).Ok?
    ensures Rows(tt, a, ss).Ok? ==>
              && |Rows(tt, a, ss).value| == |ss|
              && forall i | 0 <= i < |ss| :: MakeRow(tt, a, ss[i]) == Ok(Rows(tt, a, ss).value[i])
  {
    if ss != [] {
      var p := ss[..|ss| - 1];
      RowsShape(tt, a, p);
      assert forall i | 0 <= i < |p| :: p[i] == ss[i];
    }
  }

  lemma {:induction false} RowsErrExtends(tt: Timetable, a: Absences, ss: seq<string>, more: seq<string>)
    requires Rows(tt, a, ss).Err?
    ensures Rows(tt, a, ss + more) == Rows(tt, a, ss)
    decreases |more|
  {
    if more == [] {
      assert ss + more == ss;
    } else {
      var m := more[..|more| - 1];
      assert (ss + more)[..|ss + more| - 1] == ss + m;
      RowsErrExtends(tt, a, ss, m);
    }
  }

  /**
   * A report, when there is one, has one row per subject in order of
   * discovery, each carrying the subject's weekly periods, its term hours
   * and the hours missed.
   */
  lemma ReportRows(tt: Timetable, a: Absences)
    ensures Report(tt, a).Ok? ==>
              && |Report(tt, a).value| == |Subjects(tt)|
              && forall i | 0 <= i < |Subjects(tt)| ::
                   && Report(tt, a).value[i].subject == Subjects(tt)[i]
                   && Report(tt, a).value[i].periodsPerWeek == PeriodsPerWeek(tt, Subjects(tt)[i])
                   && Report(tt, a).value[i].totalHours == PeriodsPerWeek(tt, Subjects(tt)[i]) * TermWeeks
                   && Report(tt, a).value[i].hoursMissed == HoursMissed(tt, a, Subjects(tt)[i]).value
  {
    RowsShape(tt, a, Subjects(tt));
  }

  // ---------------------------------------------------------------------
  // The calculation as performed

  /**
   * Order and totals agree with the bindings `seen` so far: `order` is
   * their first-discovery order, the dictionary's keys are exactly its
   * subjects and each holds the subject's summed periods.
   */
  ghost predicate Tallied(order: seq<string>, subjects: map<string, int>, seen: seq<Binding<int>>)
  {
    && order == Discovered(seen)
    && (forall s :: s in subjects <==> s in order)
    && (forall s :: s in subjects ==> subjects[s] == Total(seen, s))
  }

  /**
   * The inner loop of the first pass: the subjects of one day, in order;
   * a subject not yet in the dictionary is inserted with 0 (and so goes
   * to the end of the insertion order), then its periods are added.
   */
  method TallyDay(order: seq<string>, subjects: map<string, int>, subjectsInDay: Schedule,
                  ghost seen: seq<Binding<int>>)
    returns (order': seq<string>, subjects': map<string, int>)
    requires Tallied(order, subjects, seen)
    ensures Tallied(order', subjects', seen + subjectsInDay)
  {
    order', subjects' := order, subjects;
    assert seen + subjectsInDay[..0] == seen;
    for j := 0 to |subjectsInDay|
      invariant Tallied(order', subjects', seen + subjectsInDay[..j])
    {
      var subject, periodsPerDay := subjectsInDay[j].key, subjectsInDay[j].value;
      ghost var prefix := seen + subjectsInDay[..j];
      assert seen + subjectsInDay[..j + 1] == prefix + [subjectsInDay[j]];
      DiscoveredSnoc(prefix, subjectsInDay[j]);
      TotalSnoc(prefix, subjectsInDay[j]);
      if subject !in subjects' {
        TotalUndiscovered(prefix, subject);
        subjects' := subjects'[subject := 0];
        order' := order' + [subject];
      }
      subjects' := subjects'[subject := subjects'[subject] + periodsPerDay];
    }
    assert subjectsInDay[..|subjectsInDay|] == subjectsInDay;
  }

  /**
   * The first pass of the calculation: the days in order, each through
   * `TallyDay`. `order` is the dictionary's insertion order.
   */
  method AccumulatePeriods(tt: Timetable) returns (order: seq<string>, subjects: map<string, int>)
    ensures order == Subjects(tt)
    ensures forall s :: s in subjects <==> s in order
    ensures forall s :: s in subjects ==> subjects[s] == PeriodsPerWeek(tt, s)
  {
    order, subjects := [], map[];
    for i := 0 to |tt|
      invariant Tallied(order, subjects, Occurrences(tt[..i]))
    {
      order, subjects := TallyDay(order, subjects, tt[i].value, Occurrences(tt[..i]));
      OccurrencesSnoc(tt, i);
    }
    assert tt[..|tt|] == tt;
  }

  /**
   * The body of the row loop for one subject, given its accumulated weekly
   * periods: term hours, hours missed, hours attended, percentage and
   * status. The hours-missed lookup and the division are where the
   * calculation can fail.
   */
  method SubjectRow(tt: Timetable, absentDays: Absences, subject: string, totalPeriods: int)
    returns (row: Result<Row>)
    requires totalPeriods == PeriodsPerWeek(tt, subject)
    ensures row == MakeRow(tt, absentDays, subject)
  {
    var totalHours := totalPeriods * TermWeeks;
    var daysAbsent := HoursMissed(tt, absentDays, subject);
    if daysAbsent.Err? {
      return Err(daysAbsent.fault);
    }
    if totalHours == 0 {
      return Err(NoScheduledHours(subject));
    }
    var hoursAttended := totalHours - daysAbsent.value;
    var attendancePercentage := Percentage(hoursAttended, totalHours);
    var status := StatusOf(attendancePercentage);
    row := Ok(Row(subject, totalPeriods, totalHours, daysAbsent.value, attendancePercentage, status));
  }

  /**
   * The calculation: the weekly totals of `AccumulatePeriods`, then one
   * row per subject in insertion order, each with its term hours, hours
   * missed, percentage and status.
   */
  method CalculateAttendance(tt: Timetable, absentDays: Absences) returns (report: Result<seq<Row>>)
    ensures report == Report(tt, absentDays)
  {
    var order, subjects := AccumulatePeriods(tt);
    var rows: seq<Row> := [];
    for k := 0 to |order|
      invariant Rows(tt, absentDays, order[..k]) == Ok(rows)
    {
      var subject := order[k];
      var row := SubjectRow(tt, absentDays, subject, subjects[subject]);
      assert order[..k + 1][..k] == order[..k];
      if row.Err? {
        report := Err(row.fault);
        RowsErrExtends(tt, absentDays, order[..k + 1], order[k + 1..]);
        assert order[..k + 1] + order[k + 1..] == order;
        return;
      }
      rows := rows + [row.value];
    }
    assert order[..|order|] == order;
    report := Ok(rows);
  }
}
