/**
 The base staff-hire record shared by full-time and part-time positions:
 eight mutable fields, a getter and an unchecked setter for each, and a
 display that lists the fields, labelled, in a fixed order.

 Records are values here: a setter returns the updated record instead of
 changing an object in place.
 */
module Hire {
  import opened Wrappers

  /** The range of Java's 32-bit `int`. */
  predicate InInt32Range(x: int) {
    -0x8000_0000 <= x < 0x8000_0000
  }

  /** Java's 32-bit `int`: the vacancy number and the variants' integer fields. */
  type Int32 = x: int | InInt32Range(x)

  /** A displayed value, kept structured; turning it into text is left to the caller. */
  datatype Value = IntValue(i: int) | RealValue(r: real) | TextValue(s: string) | BoolValue(b: bool)

  /** One `Label: value` line of a display. */
  datatype Line = Line(name: string, value: Value)

  /** Why a guarded operation refused to act. */
  datatype Refusal = SalaryNotJoined | ShiftsNotJoined | AlreadyTerminated {
    /** The text the record prints when it refuses. */
    function Message(): (text: string) {
      match this
      case SalaryNotJoined => "Cannot set salary for unappointed staff."
      case ShiftsNotJoined => "Cannot set shifts for unappointed staff."
      case AlreadyTerminated => "Staff is already terminated."
    }
  }

  /** Whether a guarded operation acted or refused. */
  datatype Outcome = Applied | Refused(reason: Refusal)

  /** The record after a guarded operation, and whether the operation acted. */
  datatype Update<T> = Update(record: T, outcome: Outcome)

  /** The eight fields of the base record, named so that one getter covers all of them. */
  datatype Field =
    | VacancyNumber | Designation | JobType | StaffName
    | JoiningDate | Qualification | AppointedBy | Joined

  datatype StaffHire = StaffHire(
    vacancyNumber: Int32,
    designation: string,
    jobType: string,
    staffName: string,
    joiningDate: string,
    qualification: string,
    appointedBy: string,
    joined: bool)

  /** The order in which display lists the base fields. */
  const FieldOrder: seq<Field> :=
    [VacancyNumber, Designation, JobType, StaffName, JoiningDate, Qualification, AppointedBy, Joined]

  function Label(f: Field): (text: string) {
    match f
    case VacancyNumber => "Vacancy Number"
    case Designation => "Designation"
    case JobType => "Job Type"
    case StaffName => "Staff Name"
    case JoiningDate => "Joining Date"
    case Qualification => "Qualification"
    case AppointedBy => "Appointed By"
    case Joined => "Joined"
  }

  /**
   The getter of field `f`. Its value has the field's declared type: an
   `int` for the vacancy number, a `boolean` for joined, text otherwise.
   */
  function Get(h: StaffHire, f: Field): (v: Value)
    ensures v.IntValue? <==> f == VacancyNumber
    ensures v.BoolValue? <==> f == Joined
    ensures v.TextValue? <==> f != VacancyNumber && f != Joined
    ensures v.IntValue? ==> InInt32Range(v.i)
  {
    match f
    case VacancyNumber => IntValue(h.vacancyNumber)
    case Designation => TextValue(h.designation)
    case JobType => TextValue(h.jobType)
    case StaffName => TextValue(h.staffName)
    case JoiningDate => TextValue(h.joiningDate)
    case Qualification => TextValue(h.qualification)
    case AppointedBy => TextValue(h.appointedBy)
    case Joined => BoolValue(h.joined)
  }

  /** Every getter other than the one for `f` reads the same in `a` and `b`. */
  predicate AgreeExcept(a: StaffHire, b: StaffHire, f: Field) {
    forall g: Field :: g != f ==> Get(a, g) == Get(b, g)
  }

  /** The constructor: stores its eight arguments as given and validates none of them. */
  function NewStaffHire(
    vacancyNumber: Int32, designation: string, jobType: string, staffName: string,
    joiningDate: string, qualification: string, appointedBy: string, joined: bool): (h: StaffHire)
    ensures Get(h, VacancyNumber) == IntValue(vacancyNumber)
    ensures Get(h, Designation) == TextValue(designation)
    ensures Get(h, JobType) == TextValue(jobType)
    ensures Get(h, StaffName) == TextValue(staffName)
    ensures Get(h, JoiningDate) == TextValue(joiningDate)
    ensures Get(h, Qualification) == TextValue(qualification)
    ensures Get(h, AppointedBy) == TextValue(appointedBy)
    ensures Get(h, Joined) == BoolValue(joined)
  {
    StaffHire(vacancyNumber, designation, jobType, staffName, joiningDate, qualification, appointedBy, joined)
  }

  // The eight setters. Each one stores its argument and leaves the other seven fields alone.

  function SetVacancyNumber(h: StaffHire, vacancyNumber: Int32): (r: StaffHire)
    ensures Get(r, VacancyNumber) == IntValue(vacancyNumber)
    ensures AgreeExcept(h, r, VacancyNumber)
  {
    h.(vacancyNumber := vacancyNumber)
  }

  function SetDesignation(h: StaffHire, designation: string): (r: StaffHire)
    ensures Get(r, Designation) == TextValue(designation)
    ensures AgreeExcept(h, r, Designation)
  {
    h.(designation := designation)
  }

  function SetJobType(h: StaffHire, jobType: string): (r: StaffHire)
    ensures Get(r, JobType) == TextValue(jobType)
    ensures AgreeExcept(h, r, JobType)
  {
    h.(jobType := jobType)
  }

  function SetStaffName(h: StaffHire, staffName: string): (r: StaffHire)
    ensures Get(r, StaffName) == TextValue(staffName)
    ensures AgreeExcept(h, r, StaffName)
  {
    h.(staffName := staffName)
  }

  function SetJoiningDate(h: StaffHire, joiningDate: string): (r: StaffHire)
    ensures Get(r, JoiningDate) == TextValue(joiningDate)
    ensures AgreeExcept(h, r, JoiningDate)
  {
    h.(joiningDate := joiningDate)
  }

  function SetQualification(h: StaffHire, qualification: string): (r: StaffHire)
    ensures Get(r, Qualification) == TextValue(qualification)
    ensures AgreeExcept(h, r, Qualification)
  {
    h.(qualification := qualification)
  }

  function SetAppointedBy(h: StaffHire, appointedBy: string): (r: StaffHire)
    ensures Get(r, AppointedBy) == TextValue(appointedBy)
    ensures AgreeExcept(h, r, AppointedBy)
  {
    h.(appointedBy := appointedBy)
  }

  function SetJoined(h: StaffHire, joined: bool): (r: StaffHire)
    ensures Get(r, Joined) == BoolValue(joined)
    ensures AgreeExcept(h, r, Joined)
  {
    h.(joined := joined)
  }

  /** Two records that agree on every getter are the same record. */
  lemma {:induction false} GettersDetermineRecord(a: StaffHire, b: StaffHire)
    requires forall f: Field :: Get(a, f) == Get(b, f)
    ensures a == b
  {
    assert Get(a, VacancyNumber) == Get(b, VacancyNumber);
    assert Get(a, Designation) == Get(b, Designation);
    assert Get(a, JobType) == Get(b, JobType);
    assert Get(a, StaffName) == Get(b, StaffName);
    assert Get(a, JoiningDate) == Get(b, JoiningDate);
    assert Get(a, Qualification) == Get(b, Qualification);
    assert Get(a, AppointedBy) == Get(b, AppointedBy);
    assert Get(a, Joined) == Get(b, Joined);
  }

  /** The display: one labelled line per base field, in `FieldOrder`. */
  function Display(h: StaffHire): (lines: seq<Line>)
    ensures |lines| == |FieldOrder|
    ensures forall i :: 0 <= i < |FieldOrder| ==> lines[i] == Line(Label(FieldOrder[i]), Get(h, FieldOrder[i]))
  {
    [ Line(Label(VacancyNumber), IntValue(h.vacancyNumber)),
      Line(Label(Designation), TextValue(h.designation)),
      Line(Label(JobType), TextValue(h.jobType)),
      Line(Label(StaffName), TextValue(h.staffName)),
      Line(Label(JoiningDate), TextValue(h.joiningDate)),
      Line(Label(Qualification), TextValue(h.qualification)),
      Line(Label(AppointedBy), TextValue(h.appointedBy)),
      Line(Label(Joined), BoolValue(h.joined)) ]
  }

  predicate IsInt32Value(v: Value) {
    v.IntValue? && InInt32Range(v.i)
  }

  /**
   Reads a record back from a display. This is the inverse of `Display`:
   it accepts exactly the displays of records.
   */
  function Parse(lines: seq<Line>): (r: Option<StaffHire>)
    ensures r.Some? ==> Display(r.value) == lines
  {
    if && |lines| == |FieldOrder|
       && (forall i :: 0 <= i < |FieldOrder| ==> lines[i].name == Label(FieldOrder[i]))
       && IsInt32Value(lines[0].value)
       && lines[1].value.TextValue? && lines[2].value.TextValue? && lines[3].value.TextValue?
       && lines[4].value.TextValue? && lines[5].value.TextValue? && lines[6].value.TextValue?
       && lines[7].value.BoolValue?
    then
      var h := StaffHire(lines[0].value.i, lines[1].value.s, lines[2].value.s, lines[3].value.s,
                         lines[4].value.s, lines[5].value.s, lines[6].value.s, lines[7].value.b);
      assert forall i :: 0 <= i < |FieldOrder| ==> Display(h)[i] == lines[i];
      Some(h)
    else
      None
  }

  /** Display loses nothing: a display parses back to exactly the record shown, and only to it. */
  lemma DisplayParses(h: StaffHire, lines: seq<Line>)
    ensures Parse(lines) == Some(h) <==> Display(h) == lines
  {
  }
}
