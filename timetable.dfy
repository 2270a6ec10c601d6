/**
 * The program's own weekly timetable and the absence input its form
 * collects (one count per weekday, Monday to Friday), with facts about
 * the report computed from them.
 */
module Att10Timetable {
  import opened OrderedDict
  import opened Attendance
  import opened ReportProperties

  const Monday: Schedule := [
    Binding("OOAD", 1), Binding("QM", 1), Binding("AI", 1), Binding("APTI", 1),
    Binding("TOC", 1), Binding("DCN", 1), Binding("MN", 1)]

  const Tuesday: Schedule := [
    Binding("NW LAB", 4), Binding("TECH", 1), Binding("LIB", 1), Binding("QM", 1)]

  const Wednesday: Schedule := [
    Binding("MN", 1), Binding("OOAD", 1), Binding("QM", 1), Binding("APTI", 1),
    Binding("TOC", 1), Binding("DCN", 1), Binding("AI", 1)]

  const Thursday: Schedule := [
    Binding("TOC", 1), Binding("DCN", 1), Binding("MN", 1), Binding("AI", 1), Binding("CT LAB", 3)]

  const Friday: Schedule := [
    Binding("AI", 1), Binding("APTI", 1), Binding("OOAD", 1), Binding("TOC", 1),
    Binding("TECH", 2), Binding("SWAYAM", 1)]

  /** The timetable the program is shipped with. */
  const Att10: Timetable := [
    Binding("Monday", Monday), Binding("Tuesday", Tuesday), Binding("Wednesday", Wednesday),
    Binding("Thursday", Thursday), Binding("Friday", Friday)]

  /** The absence input as the form builds it: every weekday, in order, with its count. */
  function FormAbsences(mon: nat, tue: nat, wed: nat, thu: nat, fri: nat): Absences
  {
    [Binding("Monday", mon), Binding("Tuesday", tue), Binding("Wednesday", wed),
     Binding("Thursday", thu), Binding("Friday", fri)]
  }

  lemma Att10PositivePeriods()
    ensures PositivePeriods(Att10)
  {
  }

  lemma Att10WellFormed()
    ensures WellFormed(Att10)
  {
    MondayDistinct();
    TuesdayDistinct();
    WednesdayDistinct();
    ThursdayDistinct();
    FridayDistinct();
    assert DistinctKeys(Att10);
  }

  lemma MondayDistinct() ensures DistinctKeys(Monday) {}
  lemma TuesdayDistinct() ensures DistinctKeys(Tuesday) {}
  lemma WednesdayDistinct() ensures DistinctKeys(Wednesday) {}
  lemma ThursdayDistinct() ensures DistinctKeys(Thursday) {}
  lemma FridayDistinct() ensures DistinctKeys(Friday) {}

  /** Every day the form asks about is a timetable day. */
  lemma FormDaysKnown(mon: nat, tue: nat, wed: nat, thu: nat, fri: nat)
    ensures forall i | 0 <= i < 5 :: HasKey(Att10, FormAbsences(mon, tue, wed, thu, fri)[i].key)
  {
    var a := FormAbsences(mon, tue, wed, thu, fri);
    forall i | 0 <= i < 5 ensures HasKey(Att10, a[i].key) {
      assert Att10[i].key == a[i].key;
    }
  }

  /**
   * For every input the form can produce, the shipped timetable yields a
   * report: no unknown day, no subject without hours.
   */
  lemma FormReportDefined(mon: nat, tue: nat, wed: nat, thu: nat, fri: nat)
    ensures Report(Att10, FormAbsences(mon, tue, wed, thu, fri)).Ok?
  {
    Att10PositivePeriods();
    FormDaysKnown(mon, tue, wed, thu, fri);
    ReportDefinedForPositivePeriods(Att10, FormAbsences(mon, tue, wed, thu, fri));
  }

  /** OOAD is held once on Monday, Wednesday and Friday: 3 periods a week, 45 hours a term. */
  lemma OoadPeriods()
    ensures WeeklyPeriods(Att10, "OOAD") == 3
    ensures PeriodsPerWeek(Att10, "OOAD") == 3
  {
    Att10WellFormed();
    PeriodsPerWeekIsWeekly(Att10, "OOAD");
    OoadWeekly();
  }

  lemma OoadWeekly()
    ensures Get(Monday, "OOAD", 0) == 1 && Get(Tuesday, "OOAD", 0) == 0 && Get(Wednesday, "OOAD", 0) == 1
    ensures Get(Thursday, "OOAD", 0) == 0 && Get(Friday, "OOAD", 0) == 1
    ensures WeeklyPeriods(Att10, "OOAD") == 3
  {
    OoadMonday();
    OoadTuesday();
    OoadWednesday();
    OoadThursday();
    OoadFriday();
    WeeklyOfFiveDays(Att10, "OOAD");
  }

  /** A subject's weekly periods in a five-day week, day by day. */
  lemma WeeklyOfFiveDays(tt: Timetable, s: string)
    requires |tt| == 5
    ensures WeeklyPeriods(tt, s) == Get(tt[0].value, s, 0) + Get(tt[1].value, s, 0)
              + Get(tt[2].value, s, 0) + Get(tt[3].value, s, 0) + Get(tt[4].value, s, 0)
  {
    assert tt[..0] == [];
    WeeklyPeriodsPrefix(tt, 0, s);
    WeeklyPeriodsPrefix(tt, 1, s);
    WeeklyPeriodsPrefix(tt, 2, s);
    WeeklyPeriodsPrefix(tt, 3, s);
    WeeklyPeriodsPrefix(tt, 4, s);
    assert tt[..5] == tt;
  }

  lemma OoadMonday()
    ensures Get(Monday, "OOAD", 0) == 1
  {
    MondayDistinct();
    assert Monday[0].key == "OOAD";
  }

  lemma OoadTuesday()
    ensures Get(Tuesday, "OOAD", 0) == 0
  {
    assert !HasKey(Tuesday, "OOAD");
  }

  lemma OoadWednesday()
    ensures Get(Wednesday, "OOAD", 0) == 1
  {
    WednesdayDistinct();
    assert Wednesday[1].key == "OOAD";
  }

  lemma OoadThursday()
    ensures Get(Thursday, "OOAD", 0) == 0
  {
    assert !HasKey(Thursday, "OOAD");
  }

  lemma OoadFriday()
    ensures Get(Friday, "OOAD", 0) == 1
  {
    FridayDistinct();
    assert Friday[2].key == "OOAD";
  }

  /** OOAD, the first subject met on Monday, is the report's first row. */
  lemma OoadFirst()
    ensures |Subjects(Att10)| > 0 && Subjects(Att10)[0] == "OOAD"
  {
    OccurrencesStart(Att10);
    var occ := Occurrences(Att10);
    assert occ == [occ[0]] + occ[1..];
    assert occ[0] == Binding("OOAD", 1);
    DiscoveredPrefix([occ[0]], occ[1..]);
    assert [occ[0]][..0] == [];
  }

  lemma Att10Days(day: string, schedule: Schedule, k: nat)
    requires k < |Att10| && Att10[k] == Binding(day, schedule)
    ensures Lookup(Att10, day) == Some(schedule)
  {
    Att10WellFormed();
  }

  /**
   * One missed Monday costs OOAD one of its 45 hours: 44 attended,
   * 97.78 percent after rounding, and the requirement is met.
   */
  lemma OoadAfterOneMonday()
    ensures var report := Report(Att10, FormAbsences(1, 0, 0, 0, 0));
            && report.Ok? && |report.value| > 0
            && report.value[0] == Row("OOAD", 3, 45, 1, 4400.0 / 45.0, MetRequirement)
            && 97.775 <= report.value[0].percentage < 97.785
  {
    var a := FormAbsences(1, 0, 0, 0, 0);
    FormReportDefined(1, 0, 0, 0, 0);
    OoadFirst();
    OoadPeriods();
    RowsShape(Att10, a, Subjects(Att10));
    OoadMissedOneHour();
    assert Percentage(44, 45) == 4400.0 / 45.0;
  }

  lemma OoadMissedOneHour()
    ensures HoursMissed(Att10, FormAbsences(1, 0, 0, 0, 0), "OOAD") == Ok(1)
  {
    var a := FormAbsences(1, 0, 0, 0, 0);
    Att10Days("Monday", Monday, 0);
    OoadMonday();
    FormDaysKnown(1, 0, 0, 0, 0);
    OnlyMondayCounted();
    MissedFirstDayOnly(Att10, a, "OOAD", Monday);
  }

  lemma OnlyMondayCounted()
    ensures FormAbsences(1, 0, 0, 0, 0)[0].key == "Monday"
    ensures forall i | 1 <= i < 5 :: FormAbsences(1, 0, 0, 0, 0)[i].value == 0
  {
  }

  /**
   * When only the first day of the input has a count, the hours missed
   * are that count times the subject's periods on that day.
   */
  lemma MissedFirstDayOnly(tt: Timetable, a: Absences, s: string, schedule: Schedule)
    requires a != [] && Lookup(tt, a[0].key) == Some(schedule)
    requires forall i | 0 <= i < |a| :: HasKey(tt, a[i].key)
    requires forall i | 1 <= i < |a| :: a[i].value == 0
    ensures HoursMissed(tt, a, s) == Ok(a[0].value * Get(schedule, s, 0))
  {
    var rest := a[1..];
    assert forall i | 0 <= i < |rest| :: rest[i] == a[i + 1];
    NoHoursMissed(tt, rest, s);
  }
}
