# Student attendance: a verified model of the core logic

This project models the pure logic of a student-attendance web application (TypeScript/React, with Supabase and `localStorage` behind it) in Dafny and proves properties about it. It covers:

- **roll numbers:** expanding roll-number ranges into student records (`generateStudentsFromRollNumbers` with its helpers `incrementRollNumber` and `isLessOrEqual`), the default classes built from it, and start-up initialisation;
- **class creation:** the range-string parser and field checks of the class-creation form;
- **attendance pages:**
  - the present/absent split and rounded percentage of the attendance page;
  - the WhatsApp report text and class-name lookups of the records page;
  - the dashboard figures;
  - the student lookup and the student profile's colour thresholds;
- **lists:** the case-insensitive search boxes, update-by-id in the edit page, the delete cascade of the classes page (over abstract tables), the stable `sortByProperty`, `isEmptyString`, avatar initials, the attendance marker toggle and the progress-bar clamp;
- **sign-in:** the demo sign-in provider, as a state machine.

Every operation is a pure function over immutable datatypes (`model.dfy`: `Student`, `ClassRoom`, `AttendanceRecord`). Storage, remote tables, the current date, ids made from the clock and the results of helpers whose source is not part of this model are parameters.

## Modules

One module per source file or component:

| module | models |
|---|---|
| `RollNumbers` | `incrementRollNumber`, `isLessOrEqual` and the range loop of `src/utils/data.ts` |
| `AppData` | range generation, the defaults and `initializeAppData` |
| `ClassForm` | `CreateClassForm.tsx` |
| `Utils` | `src/utils/utils.ts` |
| `Attendance` | `src/utils/attendance.ts` |
| `ViewAttendance` | the attendance page |
| `AttendanceRecords` | the records page |
| `Dashboard` | the dashboard |
| `Search` | the search filters |
| `Classes` | the classes page |
| `ClassDetails` | the class page |
| `AttendanceList` | the attendance list |
| `EditClass` | the edit page |
| `StudentDetails` | the student page |
| `Initials` | avatar initials |
| `Profile` | the student profile |
| `Marker` | the attendance marker |
| `Progress` | the progress bar |
| `Auth` | `AuthProvider.tsx` |

Shared helpers:

| module | provides |
|---|---|
| `Wrappers` | `Option` |
| `Seqs` | filter, subsequence, first match |
| `Text` | ASCII case mapping, JavaScript `trim`, one-character `split`/`join`, `includes`, a code-point order on strings |
| `Digits` | `parseInt`, `toString`, `padStart` on decimal digits |

The range loop at `src/utils/data.ts:96` does not terminate for every input, so it is modelled with a fuel bound. Its outcome is `Generated`, `Threw` (a missing `end`, which the original reads as `undefined` and fails on) or `Diverged` (fuel exhausted). The exact output is proved in two cases:

- **digit ranges:** start and end share a prefix that does not end in a digit;
- **letter ranges:** start and end end in letters of the same case.

`RollNumbers.MixedCaseRangeNeverEnds` proves that the range `"A"`–`"b"` never stops, whatever the fuel.

## Model

| member | source | states |
|---|---|---|
| `RollNumbers.IncrementLetterSpec` | src/utils/data.ts:39-43 | a roll ending in an ASCII letter keeps everything but its last character, which becomes the next character code, with no wrap-around |
| `RollNumbers.IncrementPastZ` | src/utils/data.ts:39-43 | `"Z"` becomes `"["` |
| `RollNumbers.IncrementNumberSpec` | src/utils/data.ts:46-50 | otherwise the text before the trailing digit run is kept, and the run becomes its value plus one, zero-padded to the run's width: exactly the run's width, or the new numeral's when that is longer |
| `RollNumbers.IncrementAllNines` | src/utils/data.ts:46-50 | `"99"` becomes `"100"` |
| `RollNumbers.IncrementCarry` | src/utils/data.ts:46-50 | `"4709"` becomes `"4710"` |
| `RollNumbers.IncrementAppendsOne` | src/utils/data.ts:47-49 | a roll ending in neither a letter nor a digit gets `"1"` appended |
| `RollNumbers.IncrementBracket` | src/utils/data.ts:47-49 | `"["` becomes `"[1"` |
| `RollNumbers.IsLessOrEqualReflexive` | src/utils/data.ts:54-89 | every roll is at most itself |
| `RollNumbers.IsLessOrEqualTotal` | src/utils/data.ts:54-89 | any two rolls compare one way or the other |
| `RollNumbers.IsLessOrEqualExamples` | src/utils/data.ts:60-75 | digit suffixes compare as numbers (`"A9" <= "A10"`, though not lexically); mixed endings fall back to text comparison |
| `RollNumbers.RollAtOrder` | src/utils/data.ts:65-75 | with a shared prefix that does not end in a digit, rolls compare exactly as their values |
| `RollNumbers.RollAtIncrement` | src/utils/data.ts:46-50 | incrementing a zero-padded roll gives the next value at the same width |
| `RollNumbers.RollAtInjective` | src/utils/data.ts:92-110 | different values give different rolls |
| `RollNumbers.RunLoop` | src/utils/data.ts:96-109 | a completed loop emits its start first, stops at the first value not at most `end`, and emits no more values than the fuel |
| `RollNumbers.RunLoopIsStepChain` | src/utils/data.ts:96-109 | every emitted roll is at most `end`, and each is the increment of the one before |
| `RollNumbers.RunLoopYields` | src/utils/data.ts:96-109 | conversely, any such chain that ends where the test fails is exactly the loop's output |
| `RollNumbers.RunLoopFuelMonotone` | src/utils/data.ts:96-109 | more fuel does not change a loop that has finished |
| `RollNumbers.RunLoopDiverges` | src/utils/data.ts:96-109 | a loop whose every step stays at most `end` never finishes |
| `RollNumbers.ExpandDigitRange` | src/utils/data.ts:92-110 | a digit range with a shared prefix yields the `max(0, e-s+1)` rolls with values `s..e` in order, at the start's width |
| `RollNumbers.RollsFromAscending` | src/utils/data.ts:92-110 | those rolls ascend strictly, so there are no duplicates |
| `RollNumbers.ExpandLetterRange` | src/utils/data.ts:92-110 | a same-case letter range yields `prefix + a` up to `prefix + b`, in order |
| `RollNumbers.MixedCaseRangeNeverEnds` | src/utils/data.ts:96 | the range `"A"`–`"b"` never stops: `"Z"`, `"["`, `"[1"`, `"[2"`, … all compare at most `"b"` |
| `AppData.GenerateWithShape` | src/utils/data.ts:92-112 | generation completes exactly when every range has an end and stops; the students are then the records of the per-range rolls, concatenated in range order |
| `AppData.GenerateStudentsShape` | src/utils/data.ts:92-112 | the same with the range loop as the expander |
| `AppData.GeneratedStudentFields` | src/utils/data.ts:97-104 | each generated student has id `student-` + roll, name `Student ` + roll, the given section and batch, and avatar `/placeholder.svg` |
| `AppData.ToStudents` | src/utils/data.ts:97-104 | one record per roll, in order |
| `AppData.RollsWithAppend` | src/utils/data.ts:92-110 | the rolls of two range lists are the first list's rolls followed by the second's |
| `AppData.AllRollsAppend` | src/utils/data.ts:92-110 | the same with the range loop as the expander |
| `AppData.MissingEndThrows` | src/utils/data.ts:92-96 | a range without an end, after ranges that all finish, makes the call throw |
| `AppData.ClassOneFirstRange` | src/utils/data.ts:168 | `23BQ1A4755`–`23BQ1A4799` expands to the 45 values 4755…4799 |
| `AppData.ClassOneSecondRange` | src/utils/data.ts:169 | `23BQ1A47A0`–`23BQ1A47A7` expands to the 8 rolls `23BQ1A47A0`…`23BQ1A47A7` |
| `AppData.ClassTwoRange` | src/utils/data.ts:182 | `24BQ5A4708`–`24BQ5A4714` expands to the 7 values 4708…4714 |
| `AppData.DefaultClassesRolls` | src/utils/data.ts:159-191 | there are two classes, `class-1` and `class-2`; both generations complete; class 1 gets those 45 rolls then those 8 (53 students), and class 2 gets those 7 |
| `AppData.InitializeAppDataIdempotent` | src/utils/data.ts:194-201 | a non-empty store is kept, an empty one gets the defaults, and applying start-up twice equals applying it once |
| `ClassForm.ParseRangesCount` | src/components/classes/CreateClassForm.tsx:27-30 | there is one range per comma plus one, so never none |
| `ClassForm.ParseRanges` | src/components/classes/CreateClassForm.tsx:27-30 | each range is the parse of the corresponding comma-separated piece |
| `ClassForm.ParsePiece` | src/components/classes/CreateClassForm.tsx:28-29 | start and end contain no `'-'`, and the end is missing exactly when the trimmed piece has no `'-'` |
| `ClassForm.ParsePieceOneDash` | src/components/classes/CreateClassForm.tsx:28 | with exactly one `'-'`, start, `"-"` and end put back together give the trimmed piece |
| `ClassForm.ParsePieceInnerSpaces` | src/components/classes/CreateClassForm.tsx:28 | only the ends are trimmed: `" A - B "` gives start `"A "` and end `" B"` |
| `ClassForm.HandleSubmitRejected` | src/components/classes/CreateClassForm.tsx:33-37 | the form is rejected exactly when the name, section or batch is empty; the range-count test never fires |
| `ClassForm.HandleSubmitSaved` | src/components/classes/CreateClassForm.tsx:40-50 | a save happens exactly when the fields are filled and every range expands; existing classes are kept in order, and the new class with the generated students is appended |
| `ClassForm.HandleSubmitMissingDash` | src/components/classes/CreateClassForm.tsx:46-62 | a piece without `'-'`, after pieces that expand, makes the submission fail without saving |
| `Utils.SortByPropertySorts` | src/utils/utils.ts:21-30 | the result is a permutation of the input, with keys non-decreasing when ascending and non-increasing otherwise |
| `Utils.SortByPropertyStable` | src/utils/utils.ts:21-30 | elements with equal keys keep their input order, in both directions |
| `Utils.DescendingIsNotReversed` | src/utils/utils.ts:21-30 | because of ties, descending is not the reverse of ascending (`"a1"`, `"a2"` keep their order either way) |
| `Utils.IsEmptyStringAllWhitespace` | src/utils/utils.ts:33-35 | a string is empty after trimming exactly when every character is whitespace, the empty string included |
| `Attendance.GetAttendanceRecord` | src/utils/attendance.ts:8 | a returned record has the given class and date and no earlier record matches; nothing is returned exactly when no record matches |
| `Attendance.GetAttendanceRecordShadowing` | src/utils/attendance.ts:8 | a match in front of the list shadows any later one, and an unmatched front defers to the rest |
| `ViewAttendance.PresentStudents` | src/pages/ViewAttendance.tsx:159-161 | the roster students whose roll is in the record, and only those |
| `ViewAttendance.AbsentStudents` | src/pages/ViewAttendance.tsx:163-165 | the roster students whose roll is not in the record, and only those |
| `ViewAttendance.PresentAbsentPartition` | src/pages/ViewAttendance.tsx:159-165 | both keep roster order, and together they hold the roster exactly once (as a multiset, so the sizes add up) |
| `ViewAttendance.ExtraRollsIgnored` | src/pages/ViewAttendance.tsx:159-165 | rolls in the record that are not on the roster change neither list |
| `ViewAttendance.RoundedPercent` | src/pages/ViewAttendance.tsx:167 | `100p/n` rounded half up, 0 for an empty roster, at most 100 when `p <= n` |
| `ViewAttendance.AttendancePercentage` | src/pages/ViewAttendance.tsx:167 | the page's percentage lies in 0..100 |
| `ViewAttendance.AllPresentIsHundred` | src/pages/ViewAttendance.tsx:167 | everybody present gives 100 |
| `ViewAttendance.NonePresentIsZero` | src/pages/ViewAttendance.tsx:167 | nobody present gives 0 |
| `ViewAttendance.ProgressBarColorThresholds` | src/pages/ViewAttendance.tsx:217-221 | success exactly from 75, destructive exactly below 50, and a higher percentage never gives a worse colour |
| `ViewAttendance.ReportToShare` | src/pages/ViewAttendance.tsx:86-111 | copy and share build a report exactly when the record and the class are present and the roster is non-empty |
| `AttendanceRecords.ClassesMap` | src/pages/AttendanceRecords.tsx:57-61 | the map's keys are exactly the class ids, each mapped to a class with that id |
| `AttendanceRecords.ClassesMapLastWins` | src/pages/AttendanceRecords.tsx:59-61 | for a repeated id the last class wins |
| `AttendanceRecords.GetClassName` | src/pages/AttendanceRecords.tsx:105-107 | the mapped class's name, or `Unknown Class` for an unknown id or an empty name |
| `AttendanceRecords.GetClassDetails` | src/pages/AttendanceRecords.tsx:109-113 | `Unknown` exactly for an unknown id |
| `AttendanceRecords.GetClassDetailsKnown` | src/pages/AttendanceRecords.tsx:112 | for a known id, the name, `Section` and the section, `Batch` and the batch, separated by vertical bars; when no field contains a vertical bar, splitting the text at the bars gives back the name, the section and the batch with their markers |
| `AttendanceRecords.ClassNameOfLastClass` | src/pages/AttendanceRecords.tsx:59-107 | end to end over the class list: the name shown for an id is that of the last class carrying it, or `Unknown Class` when that name is empty |
| `AttendanceRecords.ClassNameOfUnknownId` | src/pages/AttendanceRecords.tsx:59-107 | end to end over the class list: an id no class carries shows `Unknown Class` |
| `AttendanceRecords.BlockLines` | src/pages/AttendanceRecords.tsx:166-174 | a block is its header, then one `i. roll - name` line per student, numbered from 1 in order |
| `AttendanceRecords.ReportLayout` | src/pages/AttendanceRecords.tsx:152-174 | the report lists title, date, class, section and batch; then the present block headed `(p/n)`; a blank line; then the absent block headed `(a/n)` |
| `AttendanceRecords.ReportLength` | src/pages/AttendanceRecords.tsx:158-177 | the blocks list every roster student once, so the report has `14 + n` lines |
| `AttendanceRecords.ReportTail` | src/pages/AttendanceRecords.tsx:176-177 | the report closes with the percentage line and the footer |
| `AttendanceRecords.ReportEnds` | src/pages/AttendanceRecords.tsx:152-177 | the message starts with `*Attendance Report*` and ends with `Generated by HighClass Attendance App` |
| `AttendanceRecords.PercentTextCases` | src/pages/AttendanceRecords.tsx:176 | the printed percentage is the half-up rounded value for a non-empty roster, and `NaN` for an empty one |
| `Dashboard.TotalStudentsAppend` | src/components/dashboard/Dashboard.tsx:26-29 | the total is additive over the class list |
| `Dashboard.TotalStudentsSingle` | src/components/dashboard/Dashboard.tsx:26-29 | one class contributes its roster size |
| `Dashboard.TodayRecords` | src/components/dashboard/Dashboard.tsx:32 | exactly the records dated today |
| `Dashboard.TodayRecordsMultiplicity` | src/components/dashboard/Dashboard.tsx:32 | every copy of a record dated today is kept and no other record is, so duplicates count as often as they occur |
| `Dashboard.TodayRecordsOrdered` | src/components/dashboard/Dashboard.tsx:32 | today's records keep input order |
| `Dashboard.ClassesWithAttendanceToday` | src/components/dashboard/Dashboard.tsx:33 | an id is listed exactly when some record today has it |
| `Dashboard.RecentClasses` | src/components/dashboard/Dashboard.tsx:36-38 | at most three classes |
| `Dashboard.RecentClassesSpec` | src/components/dashboard/Dashboard.tsx:36-38 | the first classes, in order, without a record today; all of them when fewer than three are pending, and exactly three otherwise |
| `Dashboard.TodayCountsRecords` | src/components/dashboard/Dashboard.tsx:95 | the Today figure counts records: two records for one class count 2 |
| `Search.FilterClasses` | src/pages/Classes.tsx:113-117 | a class is kept exactly when the lower-cased query occurs in its lower-cased name, section or batch |
| `Search.FilterClassesSpec` | src/components/classes/ClassList.tsx:17-21 | the result is an order-preserving subsequence, the empty query keeps every class, and a longer query keeps no more |
| `Search.FilterClassesMultiplicity` | src/components/classes/ClassList.tsx:17-21 | every copy of a matching class is kept, and no copy of any other |
| `Search.FilterStudents` | src/components/attendance/AttendanceList.tsx:20-23 | a student is kept exactly when the lower-cased query occurs in the lower-cased name or roll number |
| `Search.FilterStudentsSpec` | src/pages/ClassDetails.tsx:23-26 | the result is an order-preserving subsequence, the empty query keeps the roster, and a longer query keeps no more |
| `Search.FilterStudentsMultiplicity` | src/pages/ClassDetails.tsx:23-26 | every copy of a matching student is kept, and no copy of any other |
| `Search.LongerQueryMatchesLess` | src/components/classes/ClassList.tsx:17-21 | a field matching a query matches every query the first contains |
| `Search.EmptyQueryMatches` | src/components/classes/ClassList.tsx:17-21 | every field matches the empty query |
| `Classes.DeleteClass` | src/pages/Classes.tsx:69-110 | the class counts as deleted exactly when no step failed; otherwise the local list is unchanged |
| `Classes.DeleteClassSuccess` | src/pages/Classes.tsx:72-96 | after full success no student row, record or class has the id; other rows are untouched; the local list loses exactly the classes with that id, in order |
| `Classes.DeleteClassSuccessMultiplicity` | src/pages/Classes.tsx:72-96 | after a full success every copy of a row of another class survives, in each table and in the page's list, and no row of the class does |
| `Classes.DeleteClassFailure` | src/pages/Classes.tsx:77-109 | a failure skips every later step |
| `ClassDetails.FindClass` | src/pages/ClassDetails.tsx:18 | the class with the route id, none exactly when no class has it |
| `ClassDetails.ClassStudents` | src/pages/ClassDetails.tsx:23-27 | an unknown class gives the empty list; a found class gives its roster searched with the query |
| `ClassDetails.ClassStudentsSpec` | src/pages/ClassDetails.tsx:23-27 | for a found class: its searched roster, in order |
| `AttendanceList.Rows` | src/components/attendance/AttendanceList.tsx:39-55 | one row per matching student, in order; Present exactly when its roll is marked; the toggle receives its own roll |
| `AttendanceList.ShowsNoMatchIff` | src/components/attendance/AttendanceList.tsx:73 | the no-match message shows exactly when no student matches |
| `EditClass.ValidateAccepts` | src/pages/EditClass.tsx:22-32 | accepted exactly when the name has at least two characters and section and batch are non-empty; one message per broken rule |
| `EditClass.Prefill` | src/pages/EditClass.tsx:42-46 | the fields stay empty when no class has the id |
| `EditClass.PrefillFound` | src/pages/EditClass.tsx:54-62 | the first class with the id pre-fills its name, section and batch |
| `EditClass.UpdateClassSpec` | src/pages/EditClass.tsx:81-85 | matching classes take the new fields and keep id and students; others are unchanged; length and order are kept; with no match the list is unchanged |
| `EditClass.UpdateWithPrefillIsIdentity` | src/pages/EditClass.tsx:49-86 | saving the pre-filled values changes nothing |
| `StudentDetails.FindStudent` | src/pages/StudentDetails.tsx:21-30 | the class is the first in list order containing the roll; the student is its first roster entry with that roll; none exactly when no class contains it |
| `StudentDetails.LaterClassesIgnored` | src/pages/StudentDetails.tsx:26 | classes after the first match are never consulted |
| `Initials.Initials` | src/components/attendance/StudentCard.tsx:12-16 | at most two characters, none lower-case |
| `Initials.FirstCharsAreWordStarts` | src/components/students/StudentProfile.tsx:39-41 | the first characters of the space-separated pieces are exactly the characters that start a word; empty pieces contribute nothing |
| `Initials.InitialsAreWordStarts` | src/components/attendance/AttendanceMarker.tsx:18-22 | the initials are the first two word starts, upper-cased |
| `Initials.InitialsCases` | src/components/attendance/StudentCard.tsx:12-16 | the empty name gives none; a name starting with a non-space starts with that character upper-cased; leading spaces change nothing |
| `Profile.ProfileThresholds` | src/components/students/StudentProfile.tsx:32-36 | success exactly from 85, warning exactly from 75 below 85; the indicator uses the same thresholds; the warning shows exactly when the colour is destructive |
| `Profile.StatusColorMonotone` | src/components/students/StudentProfile.tsx:124-133 | a higher percentage never gives a worse colour |
| `Marker.Label` | src/components/attendance/AttendanceMarker.tsx:43-53 | the label is `Present` exactly when marked present |
| `Marker.Click` | src/components/attendance/AttendanceMarker.tsx:41 | the change carries the marker's own roll and the flipped status |
| `Marker.ClickTwiceRestores` | src/components/attendance/AttendanceMarker.tsx:41 | two toggles restore the original status |
| `Progress.Clamp` | src/components/ui/custom-progress.tsx:19 | the clamped value lies in `[0, max]`, and a value already there passes through |
| `Progress.Percentage` | src/components/ui/custom-progress.tsx:20 | undefined (`NaN`) exactly for `max = 0` |
| `Progress.PercentageBounds` | src/components/ui/custom-progress.tsx:19-20 | for a positive `max`: in `[0, 100]`, 100 from `max` up, 0 from 0 down |
| `Progress.PercentageOfDefaultMax` | src/components/ui/custom-progress.tsx:14-20 | with the default `max` of 100 the percentage is the clamped value |
| `Auth.Mount` | src/components/auth/AuthProvider.tsx:33-40 | the stored user is restored when there is one; loading is false afterwards |
| `Auth.SignInSpec` | src/components/auth/AuthProvider.tsx:42-51 | succeeds exactly for `demo@example.com` / `demo123`, signing in and storing the demo user; otherwise returns `Invalid email or password` and changes nothing |
| `Auth.SignOut` | src/components/auth/AuthProvider.tsx:53-56 | nobody is signed in and the stored entry is removed |
| `Auth.SignOutIdempotent` | src/components/auth/AuthProvider.tsx:53-56 | signing out twice is signing out once |
| `Auth.InSyncPreserved` | src/components/auth/AuthProvider.tsx:33-56 | after mounting, the signed-in user and the stored entry agree, and sign-in and sign-out keep them in agreement |

## Left out

- Supabase queries and auth calls are network I/O. Remote results are parameters. `deleteClass` works over abstract tables, and a failed step is a flag.
- `localStorage` load and save, and JSON, are persistence. The stored class list and the stored user are plain values.
- The clipboard, `window.open` and the `wa.me` URL encoding are browser APIs. The report is modelled up to the message text.
- Date formatting (`toLocaleDateString`, month bounds, `formatDisplayDate`) depends on locale and clock. Dates are opaque strings.
- `generateId` and the `class-${Date.now()}` id depend on the clock and randomness. The new class id is a parameter of `ClassForm.HandleSubmit`.
- `calculateStudentAttendanceStats`, `getStudentAttendanceRecords`, `getCurrentDate` and `formatMinimalisticAttendanceReport` are not part of this model. Their results (the percentage, the current date, the report text) are parameters.
- `RollNumbers.RunLoop`: the range loop takes a fuel bound. A run that exhausts it reads as `Diverged`, which is also what a genuinely endless range gives. Termination and exact output are proved only for well-formed ranges.
- `ViewAttendance.RoundedPercent`: exact half-up rounding on rationals. JavaScript computes `Math.round(p / n * 100)` in floating point, which can differ where `p / n * 100` is not exact at a half.
- `Digits.ParseNat`: digit runs are unbounded naturals. `parseInt` loses precision above 2^53.
- `Text.Lower`, `Text.Upper`: case mapping is ASCII only. `Text.Trim` uses JavaScript's whitespace set, with no Unicode normalisation.
- `EditClass.ValidateAccepts`: zod's `min` counts UTF-16 code units, and the model counts characters.
- `Initials.Initials`: `n[0]` takes the first UTF-16 code unit of a word, and the model takes its first character; they differ for a word starting with an astral character.
- `RollNumbers.IncrementNumberSpec`: digit runs are unbounded, so a run past 2^53 increments exactly where `parseInt` would lose precision.
- `Utils.SortByProperty`: keys are strings only. The original's `keyof T` may also name a numeric property, compared as numbers; numeric keys are not modelled.
- `Text.LexLe`: strings compare by code point. JavaScript's `<` compares UTF-16 code units, which orders characters from U+E000 to U+FFFF after astral characters; the two orders agree on text below U+D800. This applies to `Utils.SortByProperty` and to the text fallback of `RollNumbers.IsLessOrEqual`.
- `Profile.ProfileThresholds`: the percentage is a finite number. A `NaN` percentage would get the destructive colour and no warning, because every comparison with `NaN` is false.
- `AttendanceRecords.GetClassDetails`, `AttendanceRecords.GetClassName`, `AttendanceRecords.ClassNameOfUnknownId`: the class map is a finite map holding only its own keys. The original's map is a plain object, so an id naming an `Object.prototype` member resolves through the prototype chain: `getClassDetails("toString")` formats `"toString | Section undefined | Batch undefined"`, and `getClassName("constructor")` gives `"Object"`. An id `"__proto__"` re-points the prototype instead of adding a key. Such ids are not modelled.
- `Progress.PercentageOfDefaultMax`: `Progress` computes on exact reals. In double arithmetic `(value / max) * 100` can miss the clamped value in the last place, for example `(7 / 100) * 100` is `7.000000000000001`, so with the default max the equality holds only up to rounding.
- `Progress.Clamp`: the value and the maximum are finite numbers. With a `NaN` value `Math.max(0, Math.min(value, max))` is `NaN`, outside `[0, max]`.
- `AttendanceRecords.PercentTextCases`: for an empty roster the record page prints `Math.round(0 / 0 * 100)`, which is `NaN`. The model prints `NaN` rather than requiring a non-empty roster.
- `TakeAttendance.tsx`: the toggle of the take-attendance page is not modelled; its find-by-id is `ClassDetails.FindClass`.
- UI rendering, routing, toasts and loading flags other than the provider's are not modelled.
