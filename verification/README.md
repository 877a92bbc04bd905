# Staff hiring records: a Dafny model

This project models the record layer of a small recruitment application. It
covers the `StaffHire` base record and its two variants, `FullTimeStaffHire`
and `PartTimeStaffHire`. It also covers the list rules that the form's buttons
apply to the staff list.

- `wrappers.dfy`, module `Wrappers`: the `Option` type used by lookups.
- `hire.dfy`, module `Hire`: the base record.
  - Its eight fields, a single getter `Get` indexed by a `Field` name, and the
    eight unchecked setters.
  - The labelled display of the record.
  - The shared `Outcome` type: a guarded operation either acts (`Applied`) or
    refuses (`Refused`) with the text the record prints.
- `full_time.dfy`, module `FullTimeHire`: salary and weekly hours. The salary
  setter only acts when the staff has joined.
- `part_time.dfy`, module `PartTimeHire`: working hours, hourly wage, shift and
  termination flag.
  - The shift setter only acts when the staff has joined.
  - Termination clears the personal fields; how the flag can be reset is
    described below.
  - Daily income is derived as hours × wage.
- `recruitment.dfy`, module `Recruitment`: the staff list as a `seq<Staff>`.
  - `Staff` is either `Full` or `Part`.
  - `FindFirst` and `ScanFirst` do the first-match search.
  - Also modelled: add, set salary, set shifts, terminate, search, display all,
    and a `Perform`/`Run` model of button presses over the list.

Records are immutable values. A setter returns the new record, and a
scan-and-update returns the new list together with a `Report`. The report
tells apart three cases: the first matching entry was updated, it refused, or
no entry matched. A `display` that prints to standard output is modelled as a
function that returns a sequence of `Line(name, value)` pairs in the printed
order. Each display has a `Parse` inverse, and a lemma proves that the display
loses nothing.

Java `int` fields are the subset type `Hire.Int32`. Java `double` fields
(salary, wage, income) are Dafny `real`.

Behaviour of the program that the model makes explicit:

- Termination through `terminateStaff` is one-way. However, the public
  `setTerminated(boolean)` (PartTimeStaffHire.java:101-103) can undo it, and
  the record can then be terminated again (`PartTimeHire.SetTerminatedReopens`).
  No button of the form calls `setTerminated`. So in every list the form can
  reach, a terminated entry has its personal fields cleared and is not joined
  (`Recruitment.RunKeepsTerminationCleared`).
- Search after an add finds the added entry only when no earlier entry has
  that number (`Recruitment.SearchAfterAdd`).
- A refused salary or shift update only prints a console line from the record.
  The form reports success anyway (see Findings).
- Set shifts is refused after a termination that acted. A record marked
  terminated by `setTerminated(true)` alone keeps its `joined` flag
  (`PartTimeHire.ShiftsRefusedAfterTerminate` requires an active record).

## Model

| member | source | states |
|---|---|---|
| `Hire.NewStaffHire` | StaffHire.java:29-39 | every getter returns its constructor argument; there is no precondition, so a negative vacancy number or empty strings are accepted |
| `Hire.Get` | StaffHire.java:46-97 | the eight getters: each returns the value of its own field, with the field's declared type (an `int` in 32-bit range for the vacancy number, a `boolean` for joined, text for the other six) |
| `Hire.SetVacancyNumber` | StaffHire.java:104-106 | the vacancy-number getter returns the new value; the other seven getters are unchanged |
| `Hire.SetDesignation` | StaffHire.java:111-113 | the designation getter returns the new value; the other seven getters are unchanged |
| `Hire.SetJobType` | StaffHire.java:118-120 | the job-type getter returns the new value; the other seven getters are unchanged |
| `Hire.SetStaffName` | StaffHire.java:125-127 | the staff-name getter returns the new value; the other seven getters are unchanged |
| `Hire.SetJoiningDate` | StaffHire.java:132-134 | the joining-date getter returns the new value; the other seven getters are unchanged |
| `Hire.SetQualification` | StaffHire.java:139-141 | the qualification getter returns the new value; the other seven getters are unchanged |
| `Hire.SetAppointedBy` | StaffHire.java:146-148 | the appointed-by getter returns the new value; the other seven getters are unchanged |
| `Hire.SetJoined` | StaffHire.java:153-155 | `isJoined` after `setJoined(b)` yields `b`; the other seven getters are unchanged |
| `Hire.GettersDetermineRecord` | StaffHire.java:46-97 | the eight getters together determine the record, so a setter's "own field set, others unchanged" fixes its result completely |
| `Hire.Display` | StaffHire.java:161-170 | eight lines in the order vacancy number, designation, job type, staff name, joining date, qualification, appointed by, joined; each line carries that field's label and its getter's value |
| `Hire.Parse` | StaffHire.java:161-170 | any sequence of lines it reads back as a record is exactly that record's display |
| `Hire.DisplayParses` | StaffHire.java:161-170 | the base display is lossless: lines parse to a record if and only if they are that record's display |
| `FullTimeHire.NewFullTime` | FullTimeStaffHire.java:25-34 | the base fields are stored as the base constructor stores them, and salary and weekly hours are stored as given |
| `FullTimeHire.SetSalary` | FullTimeStaffHire.java:49-56 | when joined, the salary becomes the argument; when not joined, the record is unchanged and the refusal is reported; `joined`, the weekly hours and every base field never change |
| `FullTimeHire.SalaryExample` | FullTimeStaffHire.java:49-56 | an unjoined record with salary 0 refuses 5000 and keeps 0; after `setJoined(true)` the same call sets 5000 |
| `FullTimeHire.JoinThenSetSalary` | FullTimeStaffHire.java:51-52 | once `joined` is set, every salary update takes effect |
| `FullTimeHire.SetWeeklyFractionalHours` | FullTimeStaffHire.java:68-70 | unguarded: always stores its argument; base and salary unchanged |
| `FullTimeHire.Display` | FullTimeStaffHire.java:77-83 | the base display, then Salary, then Weekly Fractional Hours |
| `FullTimeHire.Parse` | FullTimeStaffHire.java:77-83 | any lines it reads back as a full-time record are exactly that record's display |
| `FullTimeHire.DisplayParses` | FullTimeStaffHire.java:77-83 | the full-time display is lossless: lines parse to a record if and only if they are its display |
| `PartTimeHire.NewPartTime` | PartTimeStaffHire.java:28-39 | a new record is not terminated; its base fields, hours, wage and shift are as given |
| `PartTimeHire.SetWorkingHour` | PartTimeStaffHire.java:51-53 | unguarded: stores the hours; every other field unchanged |
| `PartTimeHire.SetWagesPerHour` | PartTimeStaffHire.java:65-67 | unguarded: stores the wage; every other field unchanged |
| `PartTimeHire.SetShifts` | PartTimeStaffHire.java:82-89 | when joined, the shift becomes the argument; when not joined, the whole record is unchanged and the refusal is reported; no other field ever changes |
| `PartTimeHire.SetTerminated` | PartTimeStaffHire.java:101-103 | unguarded: stores the flag, in either direction; every other field unchanged |
| `PartTimeHire.Terminate` | PartTimeStaffHire.java:109-122 | an active record gets empty staff name, joining date, qualification and appointed-by, `joined` false and `terminated` true; a terminated record is unchanged and "already terminated" is reported; vacancy number, designation, job type, hours, wage and shift never change |
| `PartTimeHire.TerminateIdempotent` | PartTimeStaffHire.java:109-122 | terminating twice gives the same record as terminating once, and the second call refuses |
| `PartTimeHire.ShiftsRefusedAfterTerminate` | PartTimeStaffHire.java:82-122 | after a termination that acted, every shift update is refused and changes nothing, because `joined` is now false |
| `PartTimeHire.SetTerminatedReopens` | PartTimeStaffHire.java:101-122 | resetting the flag with the public setter makes a terminated record terminable again |
| `PartTimeHire.IncomePerDay` | PartTimeStaffHire.java:129-131 | daily income is derived, not stored: zero hours or a zero wage earn nothing, and positive hours at a positive wage earn a positive amount |
| `PartTimeHire.IncomeFollowsFields` | PartTimeStaffHire.java:129-131 | daily income is hours × wage as they stand now: it follows the hour and wage setters and survives shift updates and termination |
| `PartTimeHire.PartTimeExample` | PartTimeStaffHire.java:109-131 | 6 hours at 15.5 gives 93.0 a day; termination clears the name and `joined` and sets `terminated`; a second termination refuses and changes nothing |
| `PartTimeHire.Display` | PartTimeStaffHire.java:137-147 | the base display, then Working Hour, Wages Per Hour, Shifts, Terminated and Income Per Day, the last being the derived income |
| `PartTimeHire.Parse` | PartTimeStaffHire.java:137-147 | any lines it reads back as a part-time record are exactly that record's display, so the displayed income agrees with the displayed hours and wage |
| `PartTimeHire.DisplayParses` | PartTimeStaffHire.java:137-147 | the part-time display is lossless: lines parse to a record if and only if they are its display |
| `Recruitment.FindFirst` | RecruitmentSystemGUI.java:204-210 | returns the position of the first entry with the right variant and vacancy number, or nothing when no entry has them |
| `Recruitment.ScanFirst` | RecruitmentSystemGUI.java:204-213 | the front-to-back loop that stops at the first match finds the first match, or reports none, and agrees with `FindFirst` |
| `Recruitment.Add` | RecruitmentSystemGUI.java:171-194 | both adds (the full-time one at line 171, the part-time one at line 194) append the new entry at the end; earlier entries are unchanged and the length grows by one |
| `Recruitment.SetSalary` | RecruitmentSystemGUI.java:198-213 | only the first full-time entry with the number gets the guarded salary update; part-time entries with that number, later duplicates and all other entries are unchanged; the report says updated, refused (not joined) or not found, and is "not found" exactly when no full-time entry has the number, in which case the list is unchanged |
| `Recruitment.SetShifts` | RecruitmentSystemGUI.java:216-231 | only the first part-time entry with the number gets the guarded shift update; everything else is unchanged; the report says updated, refused or not found |
| `Recruitment.Terminate` | RecruitmentSystemGUI.java:234-248 | only the first part-time entry with the number is terminated; everything else is unchanged; the report says terminated, already terminated or not found |
| `Recruitment.Search` | RecruitmentSystemGUI.java:251-276 | returns the first entry of either variant with the number, and returns nothing exactly when no entry has it |
| `Recruitment.SearchAfterAdd` | RecruitmentSystemGUI.java:257-276 | after an add, search still finds an earlier entry with the number if one exists; only otherwise does it find the added entry |
| `Recruitment.SalarySkipsPartTime` | RecruitmentSystemGUI.java:205 | set salary never changes a part-time entry, even one with the same vacancy number |
| `Recruitment.PartTimeScansSkipFullTime` | RecruitmentSystemGUI.java:222-245 | set shifts and terminate never change a full-time entry |
| `Recruitment.Display` | RecruitmentSystemGUI.java:266 | an entry's display is its own variant's display (the overriding `display` chosen at run time), so it always starts with the base display |
| `Recruitment.DisplayAll` | RecruitmentSystemGUI.java:279-297 | one display per entry, in insertion order |
| `Recruitment.DisplayAllAfterAdd` | RecruitmentSystemGUI.java:283-297 | after an add, display all lists the earlier displays unchanged, followed by the new entry's display |
| `Recruitment.NewFullTimeEntry` | RecruitmentSystemGUI.java:167-168 | the entry built by the full-time constructor carries the typed base fields, salary and weekly hours unchanged |
| `Recruitment.NewPartTimeEntry` | RecruitmentSystemGUI.java:190-191 | the entry built by the part-time constructor carries the typed base fields, hours, wage and shift unchanged and is not terminated |
| `Recruitment.Perform` | RecruitmentSystemGUI.java:150-298 | a button press never removes an entry; only the add buttons lengthen the list, by one; every existing entry keeps its variant, vacancy number, designation and job type; set salary, set shifts and terminate give exactly their scan's new list and report; search replies with the display of the first entry with the number, or nothing; display all replies with every entry's display; search and display all leave the list as it is; an add replies `Added`, leaves the earlier entries as they were and appends the record its constructor builds from the typed fields, so a new part-time entry is never terminated; a press keeps every terminated entry cleared and unjoined |
| `Recruitment.RunKeepsSlots` | RecruitmentSystemGUI.java:150-298 | over any sequence of presses the list grows by exactly the number of adds and never shrinks, and every original entry keeps its slot |
| `Recruitment.RunKeepsTerminationCleared` | PartTimeStaffHire.java:109-122 | over any sequence of presses from a list where terminated entries are cleared (the empty list, for one), every terminated part-time entry stays cleared and unjoined |
| `Recruitment.MessageAsWritten` | RecruitmentSystemGUI.java:204-213 | the form's text is "not found" exactly when no entry matched; any match, refused or not, gets the success text |
| `Recruitment.SalaryRefusalReportedAsUpdate` | RecruitmentSystemGUI.java:207-208 | with one unjoined full-time entry, set salary leaves the list unchanged and records a refusal, yet the form's text says the salary was updated |
| `Recruitment.Message` | RecruitmentSystemGUI.java:204-213 | the corrected text claims success exactly when the record accepted the update; on a refusal it carries the record's refusal text; with no match it is the form's own "not found" text, as before |

## Left out

- The Swing frame, panels, buttons and text area (RecruitmentSystemGUI.java:28-141) are user interface.
- Parsing of field text with `Integer.parseInt` and `Double.parseDouble` is not modelled, and neither is the catch-all handler that turns a parse failure into an "Error: " line. Commands carry already-parsed values.
- Redirecting `System.out` to capture `display` output, and clearing the text area before search and display all, are not modelled. Displays are returned as structured lines.
- The turning of values into text (`Double.toString`, `Boolean.toString`) and the trailing newlines of the form's messages are not modelled.
- The form's fixed texts for add, search and display all are not modelled as text. The add-success messages (RecruitmentSystemGUI.java:172, 195) are only the `Added` reply, search's "Staff not found." (RecruitmentSystemGUI.java:276) is only `Shown(None)`, and display all's blank separator line (RecruitmentSystemGUI.java:296) is only the boundary between `Listed` pages.
- IEEE-754 `double` semantics for salary, wage and income are not modelled; they are Dafny `real`. In particular `workingHour * wagesPerHour` is exact, so rounding, infinities and NaN are left out.
- The inherited base setters called on a full-time or part-time record are not separate members. They are the `Hire` setters applied to the record's `base`.
- `main` and application start-up are not modelled.
- PartTimeHire.IncomePerDay: its contract states only that income is zero or positive as hours and wage are; the product itself is its definition, and `PartTimeHire.IncomeFollowsFields` and `PartTimeHire.PartTimeExample` state the product after each setter and on concrete values.
- `Hire.Parse`, `FullTimeHire.Parse` and `PartTimeHire.Parse` have no counterpart in the source. They are the inverse used to state that each display is complete.

## Findings

| source | as written | input that shows it | evidently intended | confidence | as-written member | corrected member |
|---|---|---|---|---|---|---|
| RecruitmentSystemGUI.java:207-208 | after calling `setSalary` on the first matching full-time entry, the form always shows "Salary updated for Full-time staff.", even when the record refused | a list holding one unjoined full-time entry with vacancy number 101; set salary to 5000 for vacancy 101 | say that the update was refused, as the record's own "Cannot set salary for unappointed staff." does | medium, not executed | `Recruitment.MessageAsWritten`, `Recruitment.SalaryRefusalReportedAsUpdate` | `Recruitment.Message` |

Set shifts (RecruitmentSystemGUI.java:225-226) and terminate (RecruitmentSystemGUI.java:242-243) follow the same pattern. `Recruitment.MessageAsWritten` and `Recruitment.Message` cover all three buttons. The model's `Report` keeps the distinction between an update and a refusal.
