/**
 The staff list kept by the recruitment form and the list rules behind its
 buttons. The list is insertion-ordered and append-only. Set-salary,
 set-shifts and terminate each find the FIRST entry of the right variant
 with the given vacancy number and apply the record's guarded operation to
 that entry alone; search finds the first entry of either variant; display
 all lists every entry in order.
 */
module Recruitment {
  import opened Wrappers
  import opened Hire
  import FullTimeHire
  import PartTimeHire

  /** One list entry: a full-time or a part-time record. */
  datatype Staff =
    | Full(full: FullTimeHire.FullTimeStaffHire)
    | Part(part: PartTimeHire.PartTimeStaffHire)
  {
    /** The base-record part, shared by both variants. */
    function Base(): (b: StaffHire) {
      match this
      case Full(f) => f.base
      case Part(p) => p.base
    }
  }

  /** Which entries a scan accepts: either variant, or only one of them. */
  datatype Variant = AnyVariant | FullTimeOnly | PartTimeOnly

  predicate Matches(s: Staff, variant: Variant, vacancy: int) {
    && s.Base().vacancyNumber == vacancy
    && match variant
       case AnyVariant => true
       case FullTimeOnly => s.Full?
       case PartTimeOnly => s.Part?
  }

  predicate NoMatch(staff: seq<Staff>, variant: Variant, vacancy: int) {
    forall j :: 0 <= j < |staff| ==> !Matches(staff[j], variant, vacancy)
  }

  /** `i` is the position of the first entry that the scan accepts. */
  predicate IsFirstMatch(staff: seq<Staff>, variant: Variant, vacancy: int, i: int) {
    && 0 <= i < |staff|
    && Matches(staff[i], variant, vacancy)
    && forall j :: 0 <= j < i ==> !Matches(staff[j], variant, vacancy)
  }

  /** First-match search in insertion order. */
  function FindFirst(staff: seq<Staff>, variant: Variant, vacancy: int): (r: Option<nat>)
    ensures r.Some? ==> IsFirstMatch(staff, variant, vacancy, r.value)
    ensures r.None? ==> NoMatch(staff, variant, vacancy)
    decreases |staff|
  {
    if |staff| == 0 then
      None
    else if Matches(staff[0], variant, vacancy) then
      Some(0)
    else
      match FindFirst(staff[1..], variant, vacancy)
      case None => None
      case Some(k) => Some(k + 1)
  }

  /**
   The scan as the form writes it: walk the list from the front and stop at
   the first entry that matches.
   */
  method ScanFirst(staff: seq<Staff>, variant: Variant, vacancy: int) returns (r: Option<nat>)
    ensures r.Some? ==> IsFirstMatch(staff, variant, vacancy, r.value)
    ensures r.None? ==> NoMatch(staff, variant, vacancy)
    ensures r == FindFirst(staff, variant, vacancy)
  {
    var i := 0;
    while i < |staff|
      invariant 0 <= i <= |staff|
      invariant forall j :: 0 <= j < i ==> !Matches(staff[j], variant, vacancy)
    {
      if Matches(staff[i], variant, vacancy) {
        return Some(i);
      }
      i := i + 1;
    }
    return None;
  }

  /** `b` is `a` with at most the entry at `i` replaced. */
  predicate OnlyChangedAt(a: seq<Staff>, b: seq<Staff>, i: int) {
    && |a| == |b|
    && forall j :: 0 <= j < |a| && j != i ==> a[j] == b[j]
  }

  /** What a scan-and-update reports: which entry it acted on, which one refused, or none found. */
  datatype Report =
    | Updated(index: nat)
    | FoundButRefused(index: nat, reason: Refusal)
    | NotFound

  /** The list after a scan-and-update, and the report. */
  datatype Effect = Effect(staff: seq<Staff>, report: Report)

  /** Puts the record a guarded operation returned back at `i` and reports its outcome. */
  function Commit(staff: seq<Staff>, i: nat, record: Staff, outcome: Outcome): (e: Effect)
    requires i < |staff|
    ensures OnlyChangedAt(staff, e.staff, i) && e.staff[i] == record
    ensures outcome == Applied ==> e.report == Updated(i)
    ensures outcome.Refused? ==> e.report == FoundButRefused(i, outcome.reason)
  {
    Effect(staff[i := record],
           match outcome
           case Applied => Updated(i)
           case Refused(reason) => FoundButRefused(i, reason))
  }

  /** Add full-time or add part-time: the new entry goes at the end. */
  function Add(staff: seq<Staff>, s: Staff): (r: seq<Staff>)
    ensures |r| == |staff| + 1
    ensures r[..|staff|] == staff
    ensures r[|staff|] == s
  {
    staff + [s]
  }

  /**
   Set salary: the first full-time entry with the vacancy number gets the
   guarded salary update. Part-time entries with that number, later
   duplicates and every other entry are left alone; with no such full-time
   entry the list is unchanged and the report is `NotFound`.
   */
  function SetSalary(staff: seq<Staff>, vacancy: Int32, salary: real): (e: Effect)
    ensures e.report.NotFound? <==> NoMatch(staff, FullTimeOnly, vacancy)
    ensures e.report.NotFound? ==> e.staff == staff
    ensures !e.report.NotFound? ==>
      var i := e.report.index;
      && IsFirstMatch(staff, FullTimeOnly, vacancy, i)
      && OnlyChangedAt(staff, e.staff, i)
      && (e.report.Updated? <==> staff[i].Base().joined)
      && (e.report.Updated? ==> e.staff[i] == Full(staff[i].full.(salary := salary)))
      && (e.report.FoundButRefused? ==> e.report.reason == SalaryNotJoined && e.staff == staff)
  {
    match FindFirst(staff, FullTimeOnly, vacancy)
    case None => Effect(staff, NotFound)
    case Some(i) =>
      var u := FullTimeHire.SetSalary(staff[i].full, salary);
      Commit(staff, i, Full(u.record), u.outcome)
  }

  /**
   Set shifts: the first part-time entry with the vacancy number gets the
   guarded shift update; everything else as for set salary.
   */
  function SetShifts(staff: seq<Staff>, vacancy: Int32, shifts: string): (e: Effect)
    ensures e.report.NotFound? <==> NoMatch(staff, PartTimeOnly, vacancy)
    ensures e.report.NotFound? ==> e.staff == staff
    ensures !e.report.NotFound? ==>
      var i := e.report.index;
      && IsFirstMatch(staff, PartTimeOnly, vacancy, i)
      && OnlyChangedAt(staff, e.staff, i)
      && (e.report.Updated? <==> staff[i].Base().joined)
      && (e.report.Updated? ==> e.staff[i] == Part(staff[i].part.(shifts := shifts)))
      && (e.report.FoundButRefused? ==> e.report.reason == ShiftsNotJoined && e.staff == staff)
  {
    match FindFirst(staff, PartTimeOnly, vacancy)
    case None => Effect(staff, NotFound)
    case Some(i) =>
      var u := PartTimeHire.SetShifts(staff[i].part, shifts);
      Commit(staff, i, Part(u.record), u.outcome)
  }

  /**
   Terminate: the first part-time entry with the vacancy number is
   terminated, or refuses if it already is; everything else as for set salary.
   */
  function Terminate(staff: seq<Staff>, vacancy: Int32): (e: Effect)
    ensures e.report.NotFound? <==> NoMatch(staff, PartTimeOnly, vacancy)
    ensures e.report.NotFound? ==> e.staff == staff
    ensures !e.report.NotFound? ==>
      var i := e.report.index;
      && IsFirstMatch(staff, PartTimeOnly, vacancy, i)
      && OnlyChangedAt(staff, e.staff, i)
      && (e.report.Updated? <==> !staff[i].part.terminated)
      && e.staff[i] == Part(PartTimeHire.Terminate(staff[i].part).record)
      && (e.report.FoundButRefused? ==> e.report.reason == AlreadyTerminated && e.staff == staff)
  {
    match FindFirst(staff, PartTimeOnly, vacancy)
    case None => Effect(staff, NotFound)
    case Some(i) =>
      var u := PartTimeHire.Terminate(staff[i].part);
      Commit(staff, i, Part(u.record), u.outcome)
  }

  /** Search: the first entry of either variant with the vacancy number, if any. */
  function Search(staff: seq<Staff>, vacancy: Int32): (r: Option<Staff>)
    ensures r.None? <==> NoMatch(staff, AnyVariant, vacancy)
    ensures r.Some? ==> exists i :: IsFirstMatch(staff, AnyVariant, vacancy, i) && r.value == staff[i]
  {
    match FindFirst(staff, AnyVariant, vacancy)
    case None => None
    case Some(i) => Some(staff[i])
  }

  /**
   The display of one entry: the display of its own variant, as the
   overriding `display` is chosen at run time. It always starts with the
   base fields.
   */
  function Display(s: Staff): (lines: seq<Line>)
    ensures s.Full? ==> lines == FullTimeHire.Display(s.full)
    ensures s.Part? ==> lines == PartTimeHire.Display(s.part)
    ensures |lines| > |FieldOrder|
    ensures lines[..|FieldOrder|] == Hire.Display(s.Base())
  {
    match s
    case Full(f) => FullTimeHire.Display(f)
    case Part(p) => PartTimeHire.Display(p)
  }

  /** Display all: the display of every entry, in insertion order. */
  function DisplayAll(staff: seq<Staff>): (pages: seq<seq<Line>>)
    ensures |pages| == |staff|
    ensures forall i :: 0 <= i < |staff| ==> pages[i] == Display(staff[i])
    decreases |staff|
  {
    if |staff| == 0 then [] else [Display(staff[0])] + DisplayAll(staff[1..])
  }

  /**
   The buttons of the form, with their already-parsed inputs. The add
   buttons carry the constructor's arguments; `fields` holds the eight base
   fields exactly as typed, since the base constructor validates none of them.
   */
  datatype Command =
    | AddFullTime(fields: StaffHire, salary: real, weeklyFractionalHours: Int32)
    | AddPartTime(fields: StaffHire, workingHour: Int32, wagesPerHour: real, shifts: string)
    | SetSalaryCmd(vacancy: Int32, salary: real)
    | SetShiftsCmd(vacancy: Int32, shifts: string)
    | TerminateCmd(vacancy: Int32)
    | SearchCmd(vacancy: Int32)
    | DisplayAllCmd

  datatype Reply =
    | Added
    | Scanned(report: Report)
    | Shown(found: Option<seq<Line>>)
    | Listed(pages: seq<seq<Line>>)

  datatype Handled = Handled(staff: seq<Staff>, reply: Reply)

  /** An entry keeps its variant, vacancy number, designation and job type. */
  predicate SameSlot(a: Staff, b: Staff) {
    && a.Full? == b.Full?
    && a.Base().vacancyNumber == b.Base().vacancyNumber
    && a.Base().designation == b.Base().designation
    && a.Base().jobType == b.Base().jobType
  }

  /** A terminated part-time entry has its personal fields cleared and is not joined. */
  predicate TerminationCleared(s: Staff) {
    s.Part? && s.part.terminated ==>
      var b := s.part.base;
      b.staffName == "" && b.joiningDate == "" && b.qualification == "" && b.appointedBy == "" && !b.joined
  }

  predicate AllTerminationCleared(staff: seq<Staff>) {
    forall i :: 0 <= i < |staff| ==> TerminationCleared(staff[i])
  }

  /**
   The entry the add full-time button appends: built by the full-time
   constructor, it carries the typed base fields, salary and weekly hours.
   */
  function NewFullTimeEntry(fields: StaffHire, salary: real, weeklyFractionalHours: Int32): (s: Staff)
    ensures s.Full? && s.full.base == fields
    ensures s.full.salary == salary && s.full.weeklyFractionalHours == weeklyFractionalHours
  {
    Full(FullTimeHire.NewFullTime(
      fields.vacancyNumber, fields.designation, fields.jobType, fields.staffName, fields.joiningDate,
      fields.qualification, fields.appointedBy, fields.joined, salary, weeklyFractionalHours))
  }

  /**
   The entry the add part-time button appends: built by the part-time
   constructor, it carries the typed base fields, hours, wage and shift and
   is not terminated.
   */
  function NewPartTimeEntry(fields: StaffHire, workingHour: Int32, wagesPerHour: real, shifts: string): (s: Staff)
    ensures s.Part? && s.part.base == fields && !s.part.terminated
    ensures s.part.workingHour == workingHour && s.part.wagesPerHour == wagesPerHour && s.part.shifts == shifts
  {
    Part(PartTimeHire.NewPartTime(
      fields.vacancyNumber, fields.designation, fields.jobType, fields.staffName, fields.joiningDate,
      fields.qualification, fields.appointedBy, fields.joined, workingHour, wagesPerHour, shifts))
  }

  function AddCount(cmds: seq<Command>): (n: nat) {
    if |cmds| == 0 then 0
    else (if cmds[0].AddFullTime? || cmds[0].AddPartTime? then 1 else 0) + AddCount(cmds[1..])
  }

  /**
   One button press. Only the add buttons lengthen the list, and no button
   removes an entry or changes what slot an entry occupies; search and
   display all leave the list as it is.
   */
  function Perform(staff: seq<Staff>, cmd: Command): (h: Handled)
    ensures |h.staff| == |staff| + AddCount([cmd])
    ensures forall i :: 0 <= i < |staff| ==> SameSlot(staff[i], h.staff[i])
    ensures cmd.SearchCmd? || cmd.DisplayAllCmd? ==> h.staff == staff
    ensures cmd.AddFullTime? ==>
      h.staff == Add(staff, NewFullTimeEntry(cmd.fields, cmd.salary, cmd.weeklyFractionalHours))
    ensures cmd.AddPartTime? ==>
      h.staff == Add(staff, NewPartTimeEntry(cmd.fields, cmd.workingHour, cmd.wagesPerHour, cmd.shifts))
    ensures cmd.AddFullTime? ==> h.staff[|staff|].Full?
    ensures cmd.AddPartTime? ==> h.staff[|staff|].Part? && !h.staff[|staff|].part.terminated
    ensures AllTerminationCleared(staff) ==> AllTerminationCleared(h.staff)
    ensures cmd.AddFullTime? || cmd.AddPartTime? ==> h.reply == Added
    ensures cmd.SetSalaryCmd? ==>
      var e := SetSalary(staff, cmd.vacancy, cmd.salary); h == Handled(e.staff, Scanned(e.report))
    ensures cmd.SetShiftsCmd? ==>
      var e := SetShifts(staff, cmd.vacancy, cmd.shifts); h == Handled(e.staff, Scanned(e.report))
    ensures cmd.TerminateCmd? ==>
      var e := Terminate(staff, cmd.vacancy); h == Handled(e.staff, Scanned(e.report))
    ensures cmd.SearchCmd? ==>
      var found := Search(staff, cmd.vacancy);
      h.reply == Shown(if found.Some? then Some(Display(found.value)) else None)
    ensures cmd.DisplayAllCmd? ==> h.reply == Listed(DisplayAll(staff))
  {
    match cmd
    case AddFullTime(b, x, w) => Handled(Add(staff, NewFullTimeEntry(b, x, w)), Added)
    case AddPartTime(b, hours, wage, shifts) => Handled(Add(staff, NewPartTimeEntry(b, hours, wage, shifts)), Added)
    case SetSalaryCmd(v, x) =>
      var e := SetSalary(staff, v, x);
      Handled(e.staff, Scanned(e.report))
    case SetShiftsCmd(v, s) =>
      var e := SetShifts(staff, v, s);
      Handled(e.staff, Scanned(e.report))
    case TerminateCmd(v) =>
      var e := Terminate(staff, v);
      Handled(e.staff, Scanned(e.report))
    case SearchCmd(v) =>
      Handled(staff, Shown(match Search(staff, v) case None => None case Some(s) => Some(Display(s))))
    case DisplayAllCmd =>
      Handled(staff, Listed(DisplayAll(staff)))
  }

  /** The list after a run of button presses. */
  function Run(staff: seq<Staff>, cmds: seq<Command>): (final: seq<Staff>)
    decreases |cmds|
  {
    if |cmds| == 0 then staff else Run(Perform(staff, cmds[0]).staff, cmds[1..])
  }

  /**
   Over any run the list never shrinks, grows by exactly one per add, and
   every entry present at the start keeps its slot.
   */
  lemma {:induction false} RunKeepsSlots(staff: seq<Staff>, cmds: seq<Command>)
    ensures |Run(staff, cmds)| == |staff| + AddCount(cmds)
    ensures forall i :: 0 <= i < |staff| ==> SameSlot(staff[i], Run(staff, cmds)[i])
    decreases |cmds|
  {
    if |cmds| > 0 {
      var next := Perform(staff, cmds[0]).staff;
      RunKeepsSlots(next, cmds[1..]);
      assert AddCount(cmds) == AddCount([cmds[0]]) + AddCount(cmds[1..]);
    }
  }

  /**
   Starting from an empty list, or any list in which terminated entries are
   cleared, every terminated part-time entry stays cleared and unjoined:
   the add buttons only create active records and no button sets the flag
   directly.
   */
  lemma {:induction false} RunKeepsTerminationCleared(staff: seq<Staff>, cmds: seq<Command>)
    requires AllTerminationCleared(staff)
    ensures AllTerminationCleared(Run(staff, cmds))
    decreases |cmds|
  {
    if |cmds| > 0 {
      RunKeepsTerminationCleared(Perform(staff, cmds[0]).staff, cmds[1..]);
    }
  }

  /** Adding an entry shows up last in display all; the earlier displays are unchanged. */
  lemma DisplayAllAfterAdd(staff: seq<Staff>, s: Staff)
    ensures DisplayAll(Add(staff, s)) == DisplayAll(staff) + [Display(s)]
  {
  }

  /**
   Search after add finds the earlier entry if there is one with that
   number; only otherwise does it find the entry just added.
   */
  lemma SearchAfterAdd(staff: seq<Staff>, s: Staff, vacancy: Int32)
    ensures Search(Add(staff, s), vacancy) ==
      if Search(staff, vacancy).Some? then Search(staff, vacancy)
      else if s.Base().vacancyNumber == vacancy then Some(s)
      else None
  {
  }

  /** Set salary never touches a part-time entry, even one with the same vacancy number. */
  lemma SalarySkipsPartTime(staff: seq<Staff>, vacancy: Int32, salary: real, j: int)
    requires 0 <= j < |staff| && staff[j].Part?
    ensures SetSalary(staff, vacancy, salary).staff[j] == staff[j]
  {
  }

  /** Set shifts and terminate never touch a full-time entry. */
  lemma PartTimeScansSkipFullTime(staff: seq<Staff>, vacancy: Int32, shifts: string, j: int)
    requires 0 <= j < |staff| && staff[j].Full?
    ensures SetShifts(staff, vacancy, shifts).staff[j] == staff[j]
    ensures Terminate(staff, vacancy).staff[j] == staff[j]
  {
  }

  // The messages the form shows after a scan-and-update button.

  datatype ScanKind = SalaryScan | ShiftsScan | TerminateScan

  function SuccessText(k: ScanKind): (text: string) {
    match k
    case SalaryScan => "Salary updated for Full-time staff."
    case ShiftsScan => "Shifts updated for Part-time staff."
    case TerminateScan => "Part-time staff terminated."
  }

  function NotFoundText(k: ScanKind): (text: string) {
    match k
    case SalaryScan => "Full-time staff not found."
    case ShiftsScan | TerminateScan => "Part-time staff not found."
  }

  /**
   The message as the form writes it: success whenever an entry was found,
   whether or not the record accepted the update.
   */
  function MessageAsWritten(k: ScanKind, report: Report): (text: string)
    ensures text == NotFoundText(k) <==> report.NotFound?
    ensures !report.NotFound? ==> text == SuccessText(k)
  {
    if report.NotFound? then NotFoundText(k) else SuccessText(k)
  }

  /** A refused salary update on the only full-time entry is reported as a success. */
  lemma SalaryRefusalReportedAsUpdate()
    ensures var f := FullTimeHire.NewFullTime(101, "Lecturer", "Full-time", "Asha", "2024-01-01",
                                              "MSc", "Dean", false, 0.0, 40);
            var e := SetSalary([Full(f)], 101, 5000.0);
            && e.staff == [Full(f)]
            && e.report == FoundButRefused(0, SalaryNotJoined)
            && MessageAsWritten(SalaryScan, e.report) == SuccessText(SalaryScan)
  {
  }

  /** The message with the refusal passed through: it names the record's own refusal text. */
  function Message(k: ScanKind, report: Report): (text: string)
    ensures text == SuccessText(k) <==> report.Updated?
    ensures report.FoundButRefused? ==> text == report.reason.Message()
    ensures report.NotFound? ==> text == NotFoundText(k)
  {
    match report
    case Updated(_) => SuccessText(k)
    case FoundButRefused(_, reason) => reason.Message()
    case NotFound => NotFoundText(k)
  }
}
