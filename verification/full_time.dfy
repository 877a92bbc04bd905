/**
 A full-time position: the base record plus a salary and weekly hours. The
 salary setter is guarded by the base record's `joined` flag; the weekly
 hours setter is not.
 */
module FullTimeHire {
  import opened Wrappers
  import opened Hire

  datatype FullTimeStaffHire = FullTimeStaffHire(
    base: StaffHire,
    salary: real,
    weeklyFractionalHours: Int32)

  const SalaryLabel: string := "Salary"
  const WeeklyHoursLabel: string := "Weekly Fractional Hours"

  /** The constructor: the base fields as given, then salary and weekly hours as given. */
  function NewFullTime(
    vacancyNumber: Int32, designation: string, jobType: string, staffName: string,
    joiningDate: string, qualification: string, appointedBy: string, joined: bool,
    salary: real, weeklyFractionalHours: Int32): (f: FullTimeStaffHire)
    ensures f.base == NewStaffHire(vacancyNumber, designation, jobType, staffName, joiningDate,
                                   qualification, appointedBy, joined)
    ensures f.salary == salary
    ensures f.weeklyFractionalHours == weeklyFractionalHours
  {
    FullTimeStaffHire(
      NewStaffHire(vacancyNumber, designation, jobType, staffName, joiningDate, qualification, appointedBy, joined),
      salary, weeklyFractionalHours)
  }

  /**
   The guarded salary setter: it stores the new salary when the staff has
   joined and otherwise refuses, leaving the record as it was. Either way
   nothing but the salary can change.
   */
  function SetSalary(f: FullTimeStaffHire, salary: real): (u: Update<FullTimeStaffHire>)
    ensures f.base.joined ==> u.outcome == Applied && u.record.salary == salary
    ensures !f.base.joined ==> u.outcome == Refused(SalaryNotJoined) && u.record == f
    ensures u.record.base == f.base
    ensures u.record.weeklyFractionalHours == f.weeklyFractionalHours
  {
    if f.base.joined then
      Update(f.(salary := salary), Applied)
    else
      Update(f, Refused(SalaryNotJoined))
  }

  /** The unguarded weekly hours setter: it always stores its argument and changes nothing else. */
  function SetWeeklyFractionalHours(f: FullTimeStaffHire, hours: Int32): (r: FullTimeStaffHire)
    ensures r.weeklyFractionalHours == hours
    ensures r.base == f.base && r.salary == f.salary
  {
    f.(weeklyFractionalHours := hours)
  }

  /** The display: the base display, then the salary, then the weekly hours. */
  function Display(f: FullTimeStaffHire): (lines: seq<Line>)
    ensures |lines| == |FieldOrder| + 2
    ensures lines[..|FieldOrder|] == Hire.Display(f.base)
    ensures lines[|FieldOrder|] == Line(SalaryLabel, RealValue(f.salary))
    ensures lines[|FieldOrder| + 1] == Line(WeeklyHoursLabel, IntValue(f.weeklyFractionalHours))
  {
    Hire.Display(f.base) + [Line(SalaryLabel, RealValue(f.salary)),
                            Line(WeeklyHoursLabel, IntValue(f.weeklyFractionalHours))]
  }

  /** Reads a full-time record back from its display; the inverse of `Display`. */
  function Parse(lines: seq<Line>): (r: Option<FullTimeStaffHire>)
    ensures r.Some? ==> Display(r.value) == lines
  {
    var n := |FieldOrder|;
    if |lines| == n + 2 && Hire.Parse(lines[..n]).Some?
       && lines[n].name == SalaryLabel && lines[n].value.RealValue?
       && lines[n + 1].name == WeeklyHoursLabel && IsInt32Value(lines[n + 1].value)
    then
      var f := FullTimeStaffHire(Hire.Parse(lines[..n]).value, lines[n].value.r, lines[n + 1].value.i);
      assert lines == lines[..n] + [lines[n], lines[n + 1]];
      Some(f)
    else
      None
  }

  /** Display loses nothing: a display parses back to exactly the record shown, and only to it. */
  lemma DisplayParses(f: FullTimeStaffHire, lines: seq<Line>)
    ensures Parse(lines) == Some(f) <==> Display(f) == lines
  {
  }

  /**
   A record created unjoined with salary 0 refuses a salary of 5000; once
   `joined` is set through the inherited setter, the same update takes effect.
   */
  lemma SalaryExample()
    ensures var f := NewFullTime(101, "Lecturer", "Full-time", "Asha", "2024-01-01", "MSc", "Dean", false, 0.0, 40);
            var u := SetSalary(f, 5000.0);
            && u.outcome == Refused(SalaryNotJoined) && u.record.salary == 0.0
            && SetSalary(f.(base := SetJoined(f.base, true)), 5000.0).record.salary == 5000.0
  {
  }

  /** Setting `joined` through the inherited setter is what lets a refused salary update through. */
  lemma JoinThenSetSalary(f: FullTimeStaffHire, salary: real)
    ensures var g := f.(base := SetJoined(f.base, true));
            SetSalary(g, salary).outcome == Applied && SetSalary(g, salary).record.salary == salary
  {
  }
}
