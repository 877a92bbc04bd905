/**
 A part-time position: the base record plus daily working hours, an hourly
 wage, a shift and a termination flag. The shift setter is guarded by
 `joined`; termination is a two-state machine (active, terminated) that
 clears the personal fields on its one real transition.
 */
module PartTimeHire {
  import opened Wrappers
  import opened Hire

  datatype PartTimeStaffHire = PartTimeStaffHire(
    base: StaffHire,
    workingHour: Int32,
    wagesPerHour: real,
    shifts: string,
    terminated: bool)

  const WorkingHourLabel: string := "Working Hour"
  const WagesLabel: string := "Wages Per Hour"
  const ShiftsLabel: string := "Shifts"
  const TerminatedLabel: string := "Terminated"
  const IncomeLabel: string := "Income Per Day"

  /** The constructor: the base fields, hours, wage and shift as given; never terminated. */
  function NewPartTime(
    vacancyNumber: Int32, designation: string, jobType: string, staffName: string,
    joiningDate: string, qualification: string, appointedBy: string, joined: bool,
    workingHour: Int32, wagesPerHour: real, shifts: string): (p: PartTimeStaffHire)
    ensures p.base == NewStaffHire(vacancyNumber, designation, jobType, staffName, joiningDate,
                                   qualification, appointedBy, joined)
    ensures p.workingHour == workingHour && p.wagesPerHour == wagesPerHour && p.shifts == shifts
    ensures !p.terminated
  {
    PartTimeStaffHire(
      NewStaffHire(vacancyNumber, designation, jobType, staffName, joiningDate, qualification, appointedBy, joined),
      workingHour, wagesPerHour, shifts, false)
  }

  /** The unguarded working-hour setter. */
  function SetWorkingHour(p: PartTimeStaffHire, workingHour: Int32): (r: PartTimeStaffHire)
    ensures r.workingHour == workingHour
    ensures r.base == p.base && r.wagesPerHour == p.wagesPerHour
    ensures r.shifts == p.shifts && r.terminated == p.terminated
  {
    p.(workingHour := workingHour)
  }

  /** The unguarded wage setter. */
  function SetWagesPerHour(p: PartTimeStaffHire, wagesPerHour: real): (r: PartTimeStaffHire)
    ensures r.wagesPerHour == wagesPerHour
    ensures r.base == p.base && r.workingHour == p.workingHour
    ensures r.shifts == p.shifts && r.terminated == p.terminated
  {
    p.(wagesPerHour := wagesPerHour)
  }

  /**
   The guarded shift setter: it stores the new shift when the staff has
   joined; otherwise it refuses and the record is left exactly as it was.
   */
  function SetShifts(p: PartTimeStaffHire, shifts: string): (u: Update<PartTimeStaffHire>)
    ensures p.base.joined ==> u.outcome == Applied && u.record.shifts == shifts
    ensures !p.base.joined ==> u.outcome == Refused(ShiftsNotJoined) && u.record == p
    ensures u.record.base == p.base && u.record.workingHour == p.workingHour
    ensures u.record.wagesPerHour == p.wagesPerHour && u.record.terminated == p.terminated
  {
    if p.base.joined then
      Update(p.(shifts := shifts), Applied)
    else
      Update(p, Refused(ShiftsNotJoined))
  }

  /**
   The unguarded termination-flag setter. It is public in the source, so a
   terminated record can be made active again through it.
   */
  function SetTerminated(p: PartTimeStaffHire, terminated: bool): (r: PartTimeStaffHire)
    ensures r.terminated == terminated
    ensures r.base == p.base && r.workingHour == p.workingHour
    ensures r.wagesPerHour == p.wagesPerHour && r.shifts == p.shifts
  {
    p.(terminated := terminated)
  }

  /**
   Termination. From the active state it clears staff name, joining date,
   qualification and appointed-by, unsets `joined` and sets `terminated`;
   from the terminated state it refuses and changes nothing. Vacancy
   number, designation, job type, hours, wage and shift always survive.
   */
  function Terminate(p: PartTimeStaffHire): (u: Update<PartTimeStaffHire>)
    ensures p.terminated ==> u == Update(p, Refused(AlreadyTerminated))
    ensures !p.terminated ==>
      && u.outcome == Applied
      && u.record.base.staffName == "" && u.record.base.joiningDate == ""
      && u.record.base.qualification == "" && u.record.base.appointedBy == ""
      && !u.record.base.joined
      && u.record.terminated
    ensures u.record.base.vacancyNumber == p.base.vacancyNumber
    ensures u.record.base.designation == p.base.designation
    ensures u.record.base.jobType == p.base.jobType
    ensures u.record.workingHour == p.workingHour && u.record.wagesPerHour == p.wagesPerHour
    ensures u.record.shifts == p.shifts
  {
    if p.terminated then
      Update(p, Refused(AlreadyTerminated))
    else
      var cleared := SetJoined(SetAppointedBy(SetQualification(SetJoiningDate(
                       SetStaffName(p.base, ""), ""), ""), ""), false);
      Update(p.(base := cleared, terminated := true), Applied)
  }

  /**
   Daily income, derived from the current hours and wage and never stored:
   no hours or no wage earns nothing, and positive hours at a positive wage
   earn a positive amount. The product itself is stated after every setter
   by `IncomeFollowsFields`.
   */
  function IncomePerDay(p: PartTimeStaffHire): (income: real)
    ensures p.workingHour == 0 || p.wagesPerHour == 0.0 ==> income == 0.0
    ensures p.workingHour > 0 && p.wagesPerHour > 0.0 ==> income > 0.0
    ensures p.workingHour >= 0 && p.wagesPerHour >= 0.0 ==> income >= 0.0
  {
    p.workingHour as real * p.wagesPerHour
  }

  /** The display: the base display, then hours, wage, shift, termination flag and daily income. */
  function Display(p: PartTimeStaffHire): (lines: seq<Line>)
    ensures |lines| == |FieldOrder| + 5
    ensures lines[..|FieldOrder|] == Hire.Display(p.base)
    ensures lines[|FieldOrder|..] ==
      [ Line(WorkingHourLabel, IntValue(p.workingHour)),
        Line(WagesLabel, RealValue(p.wagesPerHour)),
        Line(ShiftsLabel, TextValue(p.shifts)),
        Line(TerminatedLabel, BoolValue(p.terminated)),
        Line(IncomeLabel, RealValue(IncomePerDay(p))) ]
  {
    Hire.Display(p.base) +
    [ Line(WorkingHourLabel, IntValue(p.workingHour)),
      Line(WagesLabel, RealValue(p.wagesPerHour)),
      Line(ShiftsLabel, TextValue(p.shifts)),
      Line(TerminatedLabel, BoolValue(p.terminated)),
      Line(IncomeLabel, RealValue(IncomePerDay(p))) ]
  }

  /**
   Reads a part-time record back from its display; the inverse of `Display`.
   The displayed income must agree with the displayed hours and wage.
   */
  function Parse(lines: seq<Line>): (r: Option<PartTimeStaffHire>)
    ensures r.Some? ==> Display(r.value) == lines
  {
    var n := |FieldOrder|;
    if && |lines| == n + 5 && Hire.Parse(lines[..n]).Some?
       && lines[n].name == WorkingHourLabel && IsInt32Value(lines[n].value)
       && lines[n + 1].name == WagesLabel && lines[n + 1].value.RealValue?
       && lines[n + 2].name == ShiftsLabel && lines[n + 2].value.TextValue?
       && lines[n + 3].name == TerminatedLabel && lines[n + 3].value.BoolValue?
       && lines[n + 4].name == IncomeLabel
    then
      var p := PartTimeStaffHire(Hire.Parse(lines[..n]).value, lines[n].value.i, lines[n + 1].value.r,
                                 lines[n + 2].value.s, lines[n + 3].value.b);
      if lines[n + 4].value == RealValue(IncomePerDay(p)) then
        assert lines == lines[..n] + lines[n..];
        Some(p)
      else
        None
    else
      None
  }

  /** Display loses nothing: a display parses back to exactly the record shown, and only to it. */
  lemma DisplayParses(p: PartTimeStaffHire, lines: seq<Line>)
    ensures Parse(lines) == Some(p) <==> Display(p) == lines
  {
  }

  /** Terminating twice is the same as terminating once; the second call only refuses. */
  lemma TerminateIdempotent(p: PartTimeStaffHire)
    ensures Terminate(Terminate(p).record).record == Terminate(p).record
    ensures Terminate(Terminate(p).record).outcome == Refused(AlreadyTerminated)
  {
  }

  /**
   After a termination that acted, `joined` is false, so every shift update
   is refused. A record marked terminated through the flag setter alone may
   still be joined, so the precondition is needed.
   */
  lemma ShiftsRefusedAfterTerminate(p: PartTimeStaffHire, shifts: string)
    requires !p.terminated
    ensures var t := Terminate(p).record;
            SetShifts(t, shifts) == Update(t, Refused(ShiftsNotJoined))
  {
  }

  /** Termination is one-way through `Terminate`, but the public flag setter undoes it. */
  lemma SetTerminatedReopens(p: PartTimeStaffHire)
    requires !p.terminated
    ensures var t := Terminate(p).record;
            Terminate(SetTerminated(t, false)).outcome == Applied
  {
  }

  /** Daily income follows the hours and wage as they are now, whatever else happened. */
  lemma IncomeFollowsFields(p: PartTimeStaffHire, hours: Int32, wage: real, shifts: string)
    ensures IncomePerDay(SetWorkingHour(p, hours)) == hours as real * p.wagesPerHour
    ensures IncomePerDay(SetWagesPerHour(p, wage)) == p.workingHour as real * wage
    ensures IncomePerDay(SetShifts(p, shifts).record) == IncomePerDay(p)
    ensures IncomePerDay(Terminate(p).record) == IncomePerDay(p)
  {
  }

  /** Six hours at 15.5 an hour is 93.0 a day; termination then clears the record, and a second call refuses. */
  lemma PartTimeExample()
    ensures var p := NewPartTime(202, "Assistant", "Part-time", "Ravi", "2024-02-01", "BSc", "Head", true, 6, 15.5, "Morning");
            && IncomePerDay(p) == 93.0
            && var t := Terminate(p);
            && t.outcome == Applied && !t.record.base.joined && t.record.terminated && t.record.base.staffName == ""
            && Terminate(t.record) == Update(t.record, Refused(AlreadyTerminated))
  {
  }
}
