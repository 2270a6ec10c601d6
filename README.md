# Attendance tracker: report calculation and highlighting

This project models the computing part of `att10.py`, a small attendance tracker. The script holds a fixed weekly timetable, an ordered mapping from weekday to an ordered mapping from subject to periods held that day. From the number of each weekday a student missed, it produces one report row per subject:

- weekly periods;
- term hours (weekly periods × 15 weeks);
- hours missed (labelled "Days Absent");
- the attendance percentage;
- a status against a 75 % requirement.

A colouring function then gives each percentage cell one of five background colours.

The project has five modules:

- `OrderedDict` (`ordered_dict.dfy`): insertion-ordered dictionaries with string keys, as the list of their bindings. `Lookup` is `d[k]`, with `None` where Python raises `KeyError`. `Get` is `d.get(k, default)`.
- `Attendance` (`attendance.dfy`): the calculation.
  - It is specified by pure functions:
    - `Subjects`: the dictionary's insertion order;
    - `PeriodsPerWeek`: the accumulated totals;
    - `HoursMissed`: the generator sum;
    - `Percentage`: `hours_attended / total_hours * 100` (att10.py:61), as an exact real; `PercentageMeaning` states what it is;
    - `StatusOf`: the 75 % test (att10.py:62-63), used by both `MakeRow` and `SubjectRow`;
    - `MakeRow` and `Report`: the rows.
  - It is also performed as the program does it:
    - `AccumulatePeriods` and `TallyDay` are the nested loops that fill a dictionary. The dictionary is a `map`, and its insertion order is a `seq`.
    - `CalculateAttendance` is the row loop, which appends rows.
    - `CalculateAttendance` is proved equal to `Report`.
  - Failures are values of `Result`:
    - `UnknownDay` is the `KeyError` of `timetable[day]`.
    - `NoScheduledHours` is the division by zero total hours.
- `Highlight` (`highlight.dfy`): the colour bands.
- `ReportProperties` (`report_properties.dfy`): what the report contains, in which order, when it exists, and how it responds to more absence.
- `Att10Timetable` (`timetable.dfy`): the shipped timetable as a constant, the absence input its form builds, and concrete facts about the OOAD subject.

The calculation takes the timetable as a parameter. The program reads it from a global.

## Model

| member | source | states |
|---|---|---|
| OrderedDict.Lookup | att10.py:59 | `timetable[day]` fails exactly when no binding has the key; otherwise the result is a value bound to it, and the one value bound to it when keys are distinct |
| Attendance.HoursMissed | att10.py:59 | the sum over the absence days succeeds exactly when every absence day is a timetable day; otherwise it fails on the first day of the input, in input order, that is not a timetable day |
| Attendance.PercentageMeaning | att10.py:61-63 | the percentage times the total hours is 100 × hours attended; for a positive total, the 75 % test holds exactly when attended × 100 ≥ 75 × total |
| Attendance.MakeRow | att10.py:58-64 | a row exists exactly when the hours-missed sum succeeds and the weekly periods are non-zero; it then carries the subject, its weekly periods, term hours = periods × 15, the hours missed, the exact percentage of hours attended, and, for positive total hours, "Met" exactly when attended × 100 ≥ 75 × total |
| Attendance.DiscoveredMembers | att10.py:51-54 | a subject enters the dictionary exactly when some binding of some day names it |
| Attendance.TotalUndiscovered | att10.py:53-55 | a subject no binding names has accumulated nothing |
| Attendance.RowsShape | att10.py:57-64 | the row loop succeeds exactly when every subject's row exists, and then emits one row per subject, in dictionary order |
| Attendance.RowsErrExtends | att10.py:57-61 | once a subject's row fails, the later subjects do not change the outcome (the exception ends the loop) |
| Attendance.ReportRows | att10.py:57-65 | a report has one row per discovered subject, in discovery order, each with that subject's weekly periods, term hours and hours missed |
| Attendance.TallyDay | att10.py:52-55 | after one day's subjects, the insertion order is the first-discovery order of all bindings seen, the keys are exactly those subjects, and each value is that subject's summed periods |
| Attendance.AccumulatePeriods | att10.py:51-55 | the dictionary's insertion order is the subjects in first-discovery order, its keys are exactly those subjects, and each holds the subject's weekly periods |
| Attendance.SubjectRow | att10.py:58-64 | one iteration of the row loop yields exactly the specified row, or the specified failure |
| Attendance.CalculateAttendance | att10.py:46-70 | the calculation produces exactly the specified report, or its first failure |
| Highlight.Classify | att10.py:75-84 | every real percentage gets exactly one band: dark green on [90, 100], medium sea green on [80, 90), yellow green on [70, 80), light coral on [50, 70), dark red below 50 or above 100 (each band as an if-and-only-if) |
| Highlight.HighlightAttendance | att10.py:72-84 | the cell receives `background-color: darkgreen` exactly on [90, 100], `mediumseagreen` exactly on [80, 90), `yellowgreen` exactly on [70, 80), `lightcoral` exactly on [50, 70) and `darkred` exactly below 50 or above 100 |
| Highlight.ClassifyMonotone | att10.py:75-84 | within [0, 100], a higher percentage never gets a worse band |
| ReportProperties.DiscoveredDistinct | att10.py:53-54 | no subject is inserted twice |
| ReportProperties.OccurrencesKeys | att10.py:51-52 | the nested loops visit a binding of subject s exactly when some day schedules s |
| ReportProperties.SubjectsAreScheduled | att10.py:51-57 | the report's subjects are exactly the subjects some day schedules, without duplicates |
| ReportProperties.OccurrencesStart | att10.py:51-52 | the first day's bindings are visited first |
| ReportProperties.DiscoveredPrefix | att10.py:53-54 | a discovered subject keeps its position whatever bindings follow |
| ReportProperties.DiscoveryOrder | att10.py:51-57 | of two reported subjects, the earlier is met at a binding before which (inclusive) the later has not been met |
| ReportProperties.TotalOfDay | att10.py:52-55 | visiting one day adds that day's periods of the subject (0 when not scheduled) to its total |
| ReportProperties.PeriodsPerWeekIsWeekly | att10.py:51-55 | the accumulated weekly periods equal the sum over the days of the subject's periods that day (0 where not scheduled), independent of the absences |
| ReportProperties.PeriodsPositive | att10.py:58-61 | with positive period counts, every reported subject has positive weekly periods and positive term hours, so the division is defined |
| ReportProperties.ReportedPeriodsAddUp | att10.py:51-57 | the weekly periods of all reported subjects add up to the sum of every period count in the timetable |
| ReportProperties.ReportDefined | att10.py:57-61 | a report is produced exactly when (there are no subjects or every absence day is a timetable day) and no subject's weekly periods are 0 |
| ReportProperties.ReportDefinedForPositivePeriods | att10.py:57-61 | with positive period counts and only timetable days in the absences, a report is always produced |
| ReportProperties.NoHoursMissed | att10.py:59 | with all absence counts 0, nothing is missed |
| ReportProperties.PercentageOfWhole | att10.py:61 | attending all hours is exactly 100 % |
| ReportProperties.FullAttendance | att10.py:59-63 | with all absence counts 0, every row has 0 hours missed, attended = total, 100 % and "Met Requirement" |
| ReportProperties.HoursMissedRaise | att10.py:59 | raising one day's count by δ adds δ × that day's periods of the subject to hours missed, and fails exactly when the original fails |
| ReportProperties.DayPeriods | att10.py:59 | with positive period counts, a day's periods of a subject are ≥ 0, and > 0 when it is scheduled that day |
| ReportProperties.PercentageMonotone | att10.py:61 | for a fixed positive total, more hours attended never lowers the percentage, and strictly more raises it |
| ReportProperties.RowRaise | att10.py:58-63 | raising one day's count by δ ≥ 0 keeps a subject's row and term hours, never raises its hours attended or percentage, and strictly lowers both when δ > 0 and the subject is scheduled that day |
| ReportProperties.MoreAbsenceNeverHelps | att10.py:57-64 | the same for the whole report: same subjects and totals, hours missed grown by δ × periods that day, attended hours and percentages never higher, and lower for every subject scheduled that day |
| Att10Timetable.Att10PositivePeriods | att10.py:4-44 | every period count of the shipped timetable is positive |
| Att10Timetable.Att10WellFormed | att10.py:4-44 | the shipped timetable's days, and each day's subjects, are distinct |
| Att10Timetable.FormDaysKnown | att10.py:89-94 | every day the form asks about is a timetable day |
| Att10Timetable.FormReportDefined | att10.py:89-99 | for every absence input the form can produce, the shipped timetable yields a report |
| Att10Timetable.OoadWeekly | att10.py:5-43 | OOAD has 1 period on Monday, Wednesday and Friday and 0 on Tuesday and Thursday, so the per-day sum is 3 periods a week |
| Att10Timetable.OoadPeriods | att10.py:5-43 | the accumulated weekly periods of OOAD are 3 |
| Att10Timetable.OoadFirst | att10.py:5-6 | OOAD, the first subject of Monday, is the report's first subject |
| Att10Timetable.MissedFirstDayOnly | att10.py:59 | when only the first absence day has a count, hours missed are that count times the subject's periods that day |
| Att10Timetable.OoadMissedOneHour | att10.py:59 | one missed Monday costs OOAD exactly one hour |
| Att10Timetable.OoadAfterOneMonday | att10.py:46-65 | after one missed Monday, the first row is OOAD with 3 periods, 45 hours, 1 missed, 4400/45 % (shown as 97.78 %) and "Met Requirement" |

## Left out

- The user interface, `attendance_app` (att10.py:86-109), is left out: Streamlit widgets, the sidebar input, the button and the download. Only the shape of the absence dictionary it builds is modelled, as `Att10Timetable.FormAbsences` (one non-negative count per weekday, Monday to Friday, in that order).
- `plot_attendance` (att10.py:111-124) is chart rendering and is left out.
- `convert_df` (att10.py:126-127) is CSV serialisation and is left out.
- The `pandas.DataFrame` built at att10.py:67-68 is left out; the report is the sequence of rows it would be built from.
- Floating point is not modelled. The percentage is the exact real `hours_attended / total_hours × 100`. Formatting it with two decimals (att10.py:65) and parsing the text back (att10.py:73, 113) are left out.
- Highlight.Classify: is stated on the exact percentage. The program classifies the two-decimal string, so a value just below a band boundary that rounds up to it (89.996 shown as "90.00%") gets the higher band there, and a value just above 100 that rounds down to it (100.004 shown as "100.00%") is dark green there but dark red in the model. The form's non-negative counts cannot produce a percentage above 100; `Report` can, given negative counts.
- Attendance.MakeRow: the status is decided on the exact percentage rather than on a float. At the 75 % boundary both agree: there `hours_attended / total_hours` is exactly 0.75, and 0.75 × 100 is exactly 75.0 in binary floating point. Away from the boundary the float test agrees with the exact one only while total hours stay far below 2^50, a bound the model does not state. The `Met` status is also promised only for positive total hours; with negative period counts the percentage and the integer test can disagree (−100 of −100 hours is 100 %).
- Attendance.HoursMissed: takes each absence day's count from its own binding (`a[i].value`). This equals `absent_days.get(day, 0)` because dictionary keys are distinct; an absence list with a repeated day, which no dictionary can hold, is not given dictionary meaning.
- Bindings with repeated keys are not dictionaries. `Lookup` returns the last such binding, as a dictionary literal with a repeated key keeps its last value. The results that need distinct keys say so (`WellFormed`, `DistinctKeys`).
- Python's unbounded integers match Dafny's `int`, so no wrap-around is modelled.
