# Automatic timetable generator: a Dafny model of its timetable logic

This project models the deterministic core of a school timetable web app. The app is a React front end.

- **School data context** (`src/context/SchoolDataContext.tsx`). It holds the slot templates and the active timetable version, and offers these operations:
  - `generateEntries` builds a draft from the weekday and Saturday slot templates. It drops break slots and rotates the subjects with a counter that restarts every day. Each entry gets the first qualified teacher and a room derived from the period number.
  - `regenerateTimetable` wraps that draft in a fresh version.
  - `assignSubstitute` hands one lesson to another teacher.
  - `lockTimetable` and `unlockTimetable` set the version's status.
  - `getTeacherWeeklyPeriods` counts a teacher's lessons, grouped by class and subject.
- **Slot-template editor** (`src/pages/TimeSlotConfig.tsx`): add a period, add a break, remove a slot, and edit a slot's times or label, on the weekday or the Saturday list.
- **School settings page** (`src/pages/SchoolSettingsPage.tsx`): add or remove the last division letter of a grade, and save the edited school fields.
- **Seed data** (`src/data/mockData.ts`): the day lists, the subject colour table, and the fixed 45-entry seed timetable.
- **Timetable page** (`src/pages/TimetableView.tsx`): the teaching slots of a day, entry lookup, name and absence lookups, the lock button, the CSV export and the grid cells.
- **Substitution panel** (`src/pages/SubstitutionPanel.tsx`): its assign button.

## How the model is shaped

- **Imperative code stays imperative.** The generators push entries in nested loops. They become methods (`Rotation.PushDay`, `Rotation.PushWeek`, `SchoolData.GenerateEntries`, `MockData.GenerateSeedEntries`). Each is proved equal to a specification function, and the properties are lemmas about that function.
- **`getTeacherWeeklyPeriods`** fills a `Map` and raises counts. It is a method with a `map` keyed by the (class, subject) pair. The loop invariant ties the map to the functional breakdown.
- **`updateSlot`** copies the list into a fresh array and writes one element.
- **The rest becomes functions.** React state updates of the form `prev => next` become functions from the old value to the new one.
- **Nondeterminism becomes parameters.** `Math.random()`, `Date.now()` and `new Date()` become parameters.

Generation is plain round robin. The score is `88 + Math.floor(Math.random() * 10)`. The substitute suggestions are a fixed list.

## Model

| member | source | states |
|---|---|---|
| Basics.Find | src/context/SchoolDataContext.tsx:61 | Array.prototype.find: the position returned satisfies the test and no earlier one does; None exactly when no element satisfies it |
| Basics.Filter | src/context/SchoolDataContext.tsx:52 | Array.prototype.filter: every kept element passes, and the result is no longer than the input |
| Basics.FilterMembership | src/context/SchoolDataContext.tsx:52 | an element is kept exactly when it is in the input and passes the test |
| Basics.SplitJoin | src/pages/TimetableView.tsx:53 | splitting at a separator undoes join when no field contains the separator |
| Basics.IntToStringInjective | src/context/SchoolDataContext.tsx:64 | String(n) is injective on integers, since it reads back to n (Basics.ParseIntToString) |
| Basics.ParseIntToString | src/context/SchoolDataContext.tsx:64 | String(n) is a sign and digits that parse back to n |
| Basics.CeilThird | src/context/SchoolDataContext.tsx:72 | Math.ceil(p / 3) is the r with 3(r - 1) < p <= 3r, for negative p too |
| SchoolTypes.InTeachingPeriods | src/context/SchoolDataContext.tsx:52-53 | a number is a teaching period exactly when some non-break slot of the template carries it |
| SchoolTypes.TeachingPeriodsAppend | src/context/SchoolDataContext.tsx:52 | appending a slot appends its number to the teaching periods exactly when it is not a break |
| SchoolTypes.TeachingPeriodsAgree | src/context/SchoolDataContext.tsx:52-53 | templates that agree slot by slot on number and kind have the same teaching periods |
| SchoolTypes.TeachingSlotsInOrder | src/context/SchoolDataContext.tsx:52-53 | a template whose teaching slots are numbered increasingly in slot order has strictly increasing teaching periods |
| Rotation.PushDay | src/context/SchoolDataContext.tsx:58-78 | the inner forEach pushes, for the k-th teaching period, the entry for subject k mod n, with the counter starting at 0 |
| Rotation.PushWeek | src/context/SchoolDataContext.tsx:57-79 | the outer forEach pushes the days one after another, restarting the rotation each day |
| Rotation.WeekEntriesLength | src/context/SchoolDataContext.tsx:57-79 | the week block has days × periods entries |
| Rotation.WeekEntriesAt | src/context/SchoolDataContext.tsx:57-79 | day d, period k sits at d·n + k and carries subject k mod |subjects| |
| Rotation.WeekEntriesCoordinate | src/context/SchoolDataContext.tsx:57-79 | conversely, position j of the week block is day j / n at period j mod n |
| MockData.WeekdaysAreDaysBeforeSaturday | src/data/mockData.ts:3-4 | WEEKDAYS is DAYS without its last day Saturday; the days are distinct |
| MockData.SeedTemplatesIncreasing | src/data/mockData.ts:6-26 | both seed slot templates have strictly increasing teaching periods |
| MockData.SubjectColor | src/data/mockData.ts:54-64 | getSubjectColor gives the mapped class string for the seven names and the default for any other name that is not an `Object.prototype` member |
| MockData.SeedSubjectColorsDistinct | src/data/mockData.ts:54-62 | the seven seed subjects get seven different non-default colours |
| MockData.EntryIdInjective | src/data/mockData.ts:78 | `tt_<day>_<period>` determines day and period |
| MockData.RoomName | src/data/mockData.ts:86 | the non-lab room is "Room " followed by the ceiling of period / 3 |
| MockData.RoomNameIsNotLab | src/data/mockData.ts:86 | a numbered room is never called "Lab 1" |
| MockData.QualifiedTeacherId | src/data/mockData.ts:76 | the teacher is the first in list order whose id the subject lists as qualified, or '' when none is |
| MockData.GenerateSeedEntries | src/data/mockData.ts:67-115 | the seed loops build exactly the seed list: Monday to Friday over periods 1..8, then Saturday over 1..5 |
| MockData.SeedTeacherOfSubject | src/data/mockData.ts:44-52 | the k-th seed subject's first qualified teacher is the k-th seed teacher |
| MockData.SeedLabSubject | src/data/mockData.ts:44-52 | Computer Science, the seventh subject, is the only lab |
| MockData.SeedLength | src/data/mockData.ts:69-112 | the seed has 5 × 8 + 5 = 45 entries |
| MockData.SeedWeekdayTeacher | src/data/mockData.ts:75-76 | a weekday's k-th seed period is taught by teacher k mod 7 |
| MockData.SeedWeekdayRoom | src/data/mockData.ts:86 | a weekday seed room is Lab 1 exactly at period 7, where the lab subject falls, else Room ⌈p/3⌉ |
| MockData.SeedWeekdayEntryFields | src/data/mockData.ts:74-90 | weekday period k + 1 gets subject k mod 7, its teacher, the room above, approved status and score 92 |
| MockData.SeedWeekdayAt | src/data/mockData.ts:72-93 | weekday d, period k + 1 is entry 8d + k of the seed |
| MockData.SeedSaturdayEntryFields | src/data/mockData.ts:96-111 | Saturday period i + 1 gets subject i, its teacher, Room 1 and no score |
| MockData.SeedSaturdayAt | src/data/mockData.ts:96-112 | Saturday period i + 1 is entry 40 + i of the seed |
| MockData.SeedIdOf | src/data/mockData.ts:78 | every seed entry's id is `tt_<day>_<period>` of its own day and period |
| MockData.WeekdaysDistinct | src/data/mockData.ts:3-4 | the five weekdays are pairwise distinct and none is Saturday |
| MockData.SeedCoordinatesDiffer | src/data/mockData.ts:72-112 | two seed positions hold different (day, period) coordinates |
| MockData.SeedCoordinate | src/data/mockData.ts:72-112 | every seed position j names its day and period: weekday j / 8 period j mod 8 + 1, or Saturday period j − 39 |
| MockData.SeedIdsUnique | src/data/mockData.ts:78 | no two seed entries share a timetableId |
| SchoolData.GenerateEntries | src/context/SchoolDataContext.tsx:50-101 | the nested loops build exactly the generated draft: five weekday blocks over the weekday teaching periods, then Saturday over its own |
| SchoolData.GeneratedLength | src/context/SchoolDataContext.tsx:57-98 | the draft has 5 × (weekday teaching periods) + (Saturday teaching periods) entries |
| SchoolData.GeneratedWeekdayAt | src/context/SchoolDataContext.tsx:57-79 | weekday d's k-th teaching period gets subject k mod |subjects|, the first qualified teacher or '', Lab 1 exactly for a lab subject and Room ⌈p/3⌉ otherwise, draft status, class c1, score 0 |
| SchoolData.GeneratedSaturdayAt | src/context/SchoolDataContext.tsx:81-98 | Saturday's i-th teaching period gets subject i mod |subjects|, its teacher, Room 1, draft status and no score |
| SchoolData.GeneratedLabRoom | src/context/SchoolDataContext.tsx:72 | a generated weekday lesson is in Lab 1 exactly when its subject is a lab |
| SchoolData.GeneratedWeekdayIs | src/context/SchoolDataContext.tsx:57-79 | position d·n + k holds the entry built for weekday d, the k-th teaching period and subject k mod |subjects| |
| SchoolData.GeneratedSaturdayIs | src/context/SchoolDataContext.tsx:81-98 | position 5n + i holds the entry built for Saturday's i-th teaching period and subject i mod |subjects| |
| SchoolData.WeekdayCoordinateAt | src/context/SchoolDataContext.tsx:57-79 | position d·n + k of the draft is weekday d at teaching period k, class c1, draft status |
| SchoolData.WeekdayCoordinate | src/context/SchoolDataContext.tsx:57-79 | every position j of the weekday block is weekday j / n at teaching period j mod n, class c1, draft status |
| SchoolData.SaturdayCoordinate | src/context/SchoolDataContext.tsx:81-98 | every position after the weekday block is a Saturday entry of class c1 with draft status |
| SchoolData.GeneratedIdOf | src/context/SchoolDataContext.tsx:64 | every generated entry's id is `tt_<day>_<period>` of its own day and period |
| SchoolData.WeekdayIdOf | src/context/SchoolDataContext.tsx:64 | so is the id of each weekday entry |
| SchoolData.SaturdayIdOf | src/context/SchoolDataContext.tsx:86 | and of each Saturday entry, `tt_Saturday_<period>` |
| SchoolData.CoordinatesDiffer | src/context/SchoolDataContext.tsx:57-98 | two positions of the draft hold different (day, period) coordinates when no template repeats a period |
| SchoolData.GeneratedIdsUnique | src/context/SchoolDataContext.tsx:64 | under that condition the generated timetableIds are pairwise distinct |
| SchoolData.RegenerateTimetable | src/context/SchoolDataContext.tsx:103-118 | the new version holds the generated draft, the score 88 + roll (roll standing for `Math.floor(Math.random() * 10)`), hence in 88..97, id "v" + Date.now(), draft status, active, school s1 and class c1 |
| SchoolData.AssignSubstitute | src/context/SchoolDataContext.tsx:120-129 | only the teacherId of entries of the absent teacher at that day and period changes, to the substitute; length, order, other entries and the rest of the version are kept |
| SchoolData.AssignSubstituteIdempotent | src/context/SchoolDataContext.tsx:120-129 | assigning the same substitute twice changes nothing more |
| SchoolData.AssignSubstituteUndo | src/context/SchoolDataContext.tsx:120-129 | handing the lesson back restores the version when the substitute had no lesson at that slot |
| SchoolData.AssignSubstituteClearsAbsent | src/context/SchoolDataContext.tsx:124-125 | when the substitute is another teacher, afterwards no entry has the absent teacher at that day and period |
| SchoolData.LockTimetable | src/context/SchoolDataContext.tsx:131-133 | the status becomes locked and nothing else changes |
| SchoolData.UnlockTimetable | src/context/SchoolDataContext.tsx:135-137 | the status becomes draft and nothing else changes |
| SchoolData.UnlockAfterLock | src/context/SchoolDataContext.tsx:131-137 | unlock after lock gives the draft of the original version |
| SchoolData.LockIdempotent | src/context/SchoolDataContext.tsx:131-137 | locking twice, or locking after unlocking, equals locking once |
| SchoolData.TeacherEntriesCount | src/context/SchoolDataContext.tsx:140 | the filtered list has as many entries as name the teacher |
| SchoolData.ClassLabel | src/context/SchoolDataContext.tsx:144-152 | the label is grade-section of the first class with the id, or Unknown |
| SchoolData.SubjectLabel | src/context/SchoolDataContext.tsx:145-153 | the label is the first matching subject's name, or Unknown when there is none or its name is empty |
| SchoolData.Keys | src/context/SchoolDataContext.tsx:141-157 | the map's keys, each listed once |
| SchoolData.KeysMembership | src/context/SchoolDataContext.tsx:146-151 | a key is in the map exactly when some entry has it |
| SchoolData.OccurrencesPositive | src/context/SchoolDataContext.tsx:146-151 | a key occurs among the entries exactly when it is in the map |
| SchoolData.KeysFirstAppearance | src/context/SchoolDataContext.tsx:161 | records come in the order in which their keys first appear, as Map iteration does |
| SchoolData.RowForAppend | src/context/SchoolDataContext.tsx:147-155 | one more entry raises its key's count by one, or opens a record labelled from it with count 1 |
| SchoolData.RowForCount | src/context/SchoolDataContext.tsx:149-154 | a record's count is the number of entries with its key |
| SchoolData.BreakdownCountsSum | src/context/SchoolDataContext.tsx:159-161 | the breakdown counts add up to the number of entries grouped |
| SchoolData.BreakdownRowsPositive | src/context/SchoolDataContext.tsx:151-155 | one record per distinct key, each with count at least 1 |
| SchoolData.PairBreakdownLabels | src/context/SchoolDataContext.tsx:144-155 | record i is labelled from its key's class and subject and counts that key's entries |
| SchoolData.CountSeenStep | src/context/SchoolDataContext.tsx:147-149 | `existing.count++` keeps the map in step with the breakdown of the entries seen |
| SchoolData.CountNewStep | src/context/SchoolDataContext.tsx:150-155 | `breakdownMap.set` for a new key keeps the map in step and appends the key to the order |
| SchoolData.TableBreakdown | src/context/SchoolDataContext.tsx:161 | reading the map's values in insertion order gives the breakdown |
| SchoolData.GetTeacherWeeklyPeriods | src/context/SchoolDataContext.tsx:139-163 | total is the number of the teacher's entries, the breakdown has one record per distinct (class, subject) in first-appearance order, and its counts sum to the total |
| SchoolData.BreakdownKeyCollision | src/context/SchoolDataContext.tsx:146 | the joined string key merges the pairs (a_b, c) and (a, b_c) into one record of count 2 |
| SchoolData.StringKeyInjective | src/context/SchoolDataContext.tsx:146 | the joined key tells pairs apart when class ids contain no underscore |
| SchoolData.KeysJoined | src/context/SchoolDataContext.tsx:146-151 | with underscore-free class ids, the string keys are the joined pair keys in the same first-appearance order |
| SchoolData.BreakdownAgreesWithoutUnderscore | src/context/SchoolDataContext.tsx:139-163 | with underscore-free class ids, the breakdown as written equals the pair-keyed breakdown |
| TimeSlotConfig.Store | src/pages/TimeSlotConfig.tsx:28-29 | an edit writes the list its type selects and leaves the other list as it was |
| TimeSlotConfig.MaxOf | src/pages/TimeSlotConfig.tsx:30 | Math.max(...ps, 0) is at least 0 and every element, and is 0 or one of them |
| TimeSlotConfig.AddSlot | src/pages/TimeSlotConfig.tsx:27-32 | appends one teaching slot with empty times, numbered one past the largest teaching period; the other list is untouched |
| TimeSlotConfig.AddSlotFresh | src/pages/TimeSlotConfig.tsx:30-31 | the new number is at least 1, exceeds every existing teaching period, and becomes the last teaching period |
| TimeSlotConfig.AddSlotKeepsIncreasing | src/pages/TimeSlotConfig.tsx:27-32 | adding a period keeps increasing teaching periods increasing |
| TimeSlotConfig.AddBreak | src/pages/TimeSlotConfig.tsx:34-38 | appends a break numbered 0 and labelled Break; the old list is a prefix; the other list is untouched |
| TimeSlotConfig.AddBreakKeepsPeriods | src/pages/TimeSlotConfig.tsx:37 | a break does not change the teaching periods |
| TimeSlotConfig.DropIndex | src/pages/TimeSlotConfig.tsx:43 | filtering by index removes exactly that position, keeping order; an index out of range leaves the list alone |
| TimeSlotConfig.RemoveSlot | src/pages/TimeSlotConfig.tsx:40-44 | the selected list loses exactly the slot at the index, out of range changes nothing, and the other list is untouched |
| TimeSlotConfig.RemoveSlotKeepsIncreasing | src/pages/TimeSlotConfig.tsx:40-44 | removing a slot keeps increasing teaching periods increasing |
| TimeSlotConfig.IncreasingHasNoDuplicates | src/pages/TimeSlotConfig.tsx:30-31 | strictly increasing teaching periods repeat no number |
| TimeSlotConfig.IncreasingTemplatesGiveUniqueIds | src/context/SchoolDataContext.tsx:52-98 | templates with strictly increasing teaching periods, as the seed and every editor step keep them, generate pairwise distinct entry ids |
| TimeSlotConfig.UpdateSlot | src/pages/TimeSlotConfig.tsx:46-51 | only the named field of the slot at the index changes, length and other slots are kept, the other list is untouched; an index with no slot fails |
| TimeSlotConfig.UpdateSlotKeepsPeriods | src/pages/TimeSlotConfig.tsx:49 | editing a time or label does not change the teaching periods |
| SchoolSettings.AddDivision | src/pages/SchoolSettingsPage.tsx:25-31 | with fewer than 10 divisions, appends the letter with code 65 + n and keeps the rest; with 10 or more, refuses with "Max 10 divisions per grade" |
| SchoolSettings.RemoveDivision | src/pages/SchoolSettingsPage.tsx:33-38 | with more than one division, drops only the last; otherwise refuses with "Must have at least 1 division" |
| SchoolSettings.ApplyEdit | src/pages/SchoolSettingsPage.tsx:29 | updateDivisions stores the new list for that grade only; a refused edit changes nothing |
| SchoolSettings.AddDivisionNextLetter | src/pages/SchoolSettingsPage.tsx:27-29 | a grade with divisions A.. up to some letter gets the next letter |
| SchoolSettings.UnrecordedGrade | src/pages/SchoolSettingsPage.tsx:26 | a grade with no record reads as ["A"]: adding gives A, B and removing is refused |
| SchoolSettings.AddThenRemove | src/pages/SchoolSettingsPage.tsx:29-36 | removing after a successful add restores the grade's list, when that list was not empty |
| SchoolSettings.RemoveThenAdd | src/pages/SchoolSettingsPage.tsx:27-36 | adding after a successful remove restores a list A.. up to some letter |
| SchoolSettings.PressesKeepCountInRange | src/pages/SchoolSettingsPage.tsx:28-35 | any sequence of add and remove presses keeps a count between 1 and 10 in that range |
| SchoolSettings.SaveSchoolInfo | src/pages/SchoolSettingsPage.tsx:21 | handleSave overwrites name, board and year and keeps id, divisions and custom subjects |
| SchoolSettings.SaveSchoolInfoUnchanged | src/pages/SchoolSettingsPage.tsx:21 | saving the unchanged form changes nothing, and saving twice equals saving once |
| TimetableView.SlotsForDay | src/pages/TimetableView.tsx:21-24 | the slots shown for a day are non-break slots |
| TimetableView.SlotsForDayPeriods | src/pages/TimetableView.tsx:21-24 | they are the teaching periods of the Saturday template for Saturday and of the weekday template for every other day |
| TimetableView.GetEntry | src/pages/TimetableView.tsx:26-27 | the first entry of the selected class at (day, period), or none exactly when no entry matches |
| TimetableView.GetEntryOfGenerated | src/pages/TimetableView.tsx:26-27 | on a generated draft of class c1 the lookup at each entry's coordinate finds that entry |
| TimetableView.SubjectName | src/pages/TimetableView.tsx:29 | the first matching subject's name, or '' for an unknown id |
| TimetableView.TeacherName | src/pages/TimetableView.tsx:30 | the first matching teacher's name, or '' for an unknown id |
| TimetableView.IsTeacherAbsent | src/pages/TimetableView.tsx:31 | the first matching teacher's absence flag, or false for an unknown id |
| TimetableView.AbsentMeansListedAbsent | src/pages/TimetableView.tsx:31 | reading as absent means some listed teacher with that id is marked absent |
| TimetableView.ToggleLock | src/pages/TimetableView.tsx:38-46 | the lock button unlocks a locked version and locks any other, changing nothing else |
| TimetableView.ToggleLockTwice | src/pages/TimetableView.tsx:38-46 | two presses restore a locked version but turn an approved one into a draft |
| TimetableView.EntryRow | src/pages/TimetableView.tsx:51 | a CSV row has one field per header column |
| TimetableView.ExportRows | src/pages/TimetableView.tsx:48-52 | the header, then one row per entry of the selected class in entry order; every such entry has its row |
| TimetableView.RowsCoverClass | src/pages/TimetableView.tsx:48-52 | every entry of the selected class has its row among the exported rows |
| TimetableView.CsvRoundTrip | src/pages/TimetableView.tsx:53 | splitting the CSV text at line breaks and commas gives the rows back when no field contains either |
| TimetableView.CsvCommaSplitsField | src/pages/TimetableView.tsx:53 | a field holding a comma reads back as two fields, since nothing is quoted |
| TimetableView.GridCell | src/pages/TimetableView.tsx:145-170 | a cell is the placeholder exactly for a Saturday period with no slot; otherwise it shows the entry found, or is empty when there is none |
| TimetableView.GridRowAsWritten | src/pages/TimetableView.tsx:136-144 | the body row as written: as many cells as Monday has teaching slots |
| TimetableView.GridRow | src/pages/TimetableView.tsx:124-129 | the heading-aligned body row: one cell per Monday teaching slot |
| TimetableView.GridRowsAgreeWhenNumbered | src/pages/TimetableView.tsx:124-144 | both rows agree when the weekday periods are numbered 1..n |
| TimetableView.GridRowShowsEntry | src/pages/TimetableView.tsx:124-170 | in the heading-aligned row every first weekday entry at a teaching period appears under its period's heading |
| TimetableView.GridColumnMismatch | src/pages/TimetableView.tsx:136-153 | with teaching periods 1, 2, 4 the row as written shows a period-4 lesson nowhere, while the heading-aligned row shows it under P4 |
| SubstitutionPanel.HandleAssign | src/pages/SubstitutionPanel.tsx:14-22 | with no lesson of the absent teacher today, the version is unchanged |
| SubstitutionPanel.HandleAssignFirst | src/pages/SubstitutionPanel.tsx:17-19 | otherwise assignSubstitute runs at the day and period of the first such lesson |
| SubstitutionPanel.HandleAssignCoversFirst | src/pages/SubstitutionPanel.tsx:17-19 | that first lesson goes to the substitute |
| SubstitutionPanel.HandleAssignOnePeriod | src/pages/SubstitutionPanel.tsx:17-19 | lessons in other periods are untouched, so one click covers one period only |
| SubstitutionPanel.HandleAssignOnSunday | src/pages/SubstitutionPanel.tsx:16-17 | on a Sunday no lesson matches and nothing changes |

## Left out

- Persistence is not modelled:
  - `src/hooks/useDataPersistence.ts`: debounced remote calls, delete-then-insert, async loads.
  - `src/hooks/useLocalPersistence.ts`: localStorage and JSON parsing.
  - `src/integrations/supabase/types.ts`: generated declarations.
- Authentication, routing, layout and the static pages are not modelled (`AuthPage`, `AppLayout`, `App`, `Index`, `ClassesPage`, `TeachersPage`). They hold no timetable logic.
- Rendering is not modelled: markup, CSS classes, toasts, and the header's "P<n>" and time text. Only the content of grid cells is modelled.
- The CSV Blob, the object URL, the anchor click and the download file name (TimetableView.tsx:54-61) are not modelled.
- `Math.random()`, `Date.now()` and `new Date()` are parameters. These are `roll`, `millis` and the two timestamps of SchoolData.RegenerateTimetable, `now` of SchoolData.GenerateEntries, and `today` of SubstitutionPanel.HandleAssign. The browser's weekday name is taken as given.
- SchoolData.GenerateEntries requires a non-empty subject list. The context's subjects are fixed to the seed list, which has no setter (SchoolDataContext.tsx:46). With an empty list and at least one teaching period in either template, the source reads a field of `undefined` and throws. With an empty list and no teaching period at all, it returns an empty draft.
- TimeSlotConfig.UpdateSlot does not model aliasing:
  - the source copies the array shallowly and assigns the field on the shared slot object;
  - that object is also in the previous state and, before Save, in the context's saved list;
  - the model writes a copy of the slot.
- TimeSlotConfig.UpdateSlot models only `label`, `startTime` and `endTime`. These are the fields the page's inputs pass. Other keys of the slot type are not modelled.
- The slot editor's `handleSave` (TimeSlotConfig.tsx:20-25) and the `isSaturdayHalfDay` flag are not modelled. They copy the drafts to the context unchanged, and no generator reads the flag.
- The settings page's data sources are taken as plain values. It uses `school`, `setSchool`, `updateDivisions` and `ALL_GRADES`, which the context and seed data do not provide. The model takes the divisions map and the `School` record as values.
- The grade card displays `['A', 'B']` for a grade with no record (SchoolSettingsPage.tsx:93). The add and remove handlers use `['A']` instead. The model follows the handlers; the display default is not modelled.
- MockData.SeedWeekdayRoom states the Lab 1 room per weekday position. It is not stated as one iff over the whole 45-entry list.
- The substitute suggestions (mockData.ts:128-132) and the absent-teacher list of the panel are not modelled. They are a fixed list and a filter with no logic of their own.
- MockData.SubjectColor and SchoolSettings.CurrentDivisions do not model lookups that fall through to inherited `Object.prototype` names. `subjectColors[name] || default` and `divisionsPerGrade[grade] || ['A']` read plain object literals. For a key such as "constructor" or "toString", the source returns the inherited member, which is truthy. The model returns the default. The app never passes such a key: subject names come from the seed list or are empty, and grades come from the fixed grade list.
- The day filter (`daysToShow`) and the class lookup for the page title are not modelled.
- Record fields that no modelled operation reads are omitted from the datatypes.
- Optional fields map as follows:
  - `isBreak` is a bool, with absent read as false;
  - `label` and `score` are Option values.

## Findings

| source | as written | input that shows it | evidently intended | confidence | as-written member | corrected member |
|---|---|---|---|---|---|---|
| src/context/SchoolDataContext.tsx:146 | the breakdown map is keyed by the string `${classId}_${subjectId}` | class "a_b" with subject "c" and class "a" with subject "b_c": both give "a_b_c", so one record counts 2 lessons | one record per distinct (classId, subjectId) pair | not executed; low in practice, since the seed class ids contain no underscore | SchoolData.BreakdownKeyCollision (on SchoolData.BreakdownAsWritten; SchoolData.BreakdownAgreesWithoutUnderscore shows it agrees when no class id has an underscore) | SchoolData.GetTeacherWeeklyPeriods (pair-keyed; SchoolData.PairBreakdownLabels) |
| src/pages/TimetableView.tsx:136-153 | body column i looks up period i + 1, while the heading of column i is the i-th Monday teaching slot's periodNumber | weekday template with teaching periods 1, 2, 4 (period 3 removed) and a Monday lesson in period 4: the column headed P4 looks up period 3 and the lesson appears nowhere | each column shows the period its heading names | not executed | TimetableView.GridColumnMismatch (on TimetableView.GridRowAsWritten) | TimetableView.GridRow (TimetableView.GridRowShowsEntry) |
