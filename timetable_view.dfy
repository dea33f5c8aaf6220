/** The timetable page, src/pages/TimetableView.tsx: its lookups, the lock
    button, the CSV export and the cells of the grid. What the page reads
    from the school-data context is bundled in ViewData. */
module TimetableView {
  import opened Basics
  import opened SchoolTypes
  import opened MockData
  import opened SchoolData

  datatype ViewData = ViewData(
    entries: seq<TimetableEntry>,   // timetableVersion.entries
    subjects: seq<Subject>,
    teachers: seq<Teacher>,
    weekdaySlots: seq<TimeSlot>,
    saturdaySlots: seq<TimeSlot>,
    selectedClass: string)

  // ---- getSlotsForDay (TimetableView.tsx:21-24) ----

  /** The teaching slots of a day: the Saturday template for Saturday only,
      the weekday template otherwise, without its breaks. */
  function SlotsForDay(v: ViewData, day: Day): (r: seq<TimeSlot>)
    ensures forall i :: 0 <= i < |r| ==> !r[i].isBreak
  {
    Teaching(if day == Saturday then v.saturdaySlots else v.weekdaySlots)
  }

  /** The slots of a day carry exactly the teaching periods of its template,
      in template order. */
  lemma SlotsForDayPeriods(v: ViewData, day: Day)
    ensures PeriodNumbers(SlotsForDay(v, day)) ==
      TeachingPeriods(if day == Saturday then v.saturdaySlots else v.weekdaySlots)
    ensures day != Saturday ==> SlotsForDay(v, day) == SlotsForDay(v, Monday)
  {
  }

  // ---- getEntry (TimetableView.tsx:26-27) ----

  predicate At(e: TimetableEntry, day: Day, period: int, classId: string) {
    e.day == day && e.period == period && e.classId == classId
  }

  function AtCoordinate(day: Day, period: int, classId: string): TimetableEntry -> bool {
    (e: TimetableEntry) => At(e, day, period, classId)
  }

  /** The first entry of the selected class at (day, period), if any. */
  function GetEntry(v: ViewData, day: Day, period: int): (r: Option<TimetableEntry>)
    ensures r.None? <==> forall j :: 0 <= j < |v.entries| ==> !At(v.entries[j], day, period, v.selectedClass)
    ensures forall i :: 0 <= i < |v.entries| ==>
      (At(v.entries[i], day, period, v.selectedClass) &&
       (forall j :: 0 <= j < i ==> !At(v.entries[j], day, period, v.selectedClass))) ==>
      r == Some(v.entries[i])
  {
    match Find(v.entries, AtCoordinate(day, period, v.selectedClass))
    case Some(i) => Some(v.entries[i])
    case None => None
  }

  /** On a freshly generated timetable of class c1 the page finds, at every
      coordinate, the entry the generator put there, provided neither
      template repeats a teaching period. */
  lemma GetEntryOfGenerated(v: ViewData, sSubjects: seq<Subject>, sTeachers: seq<Teacher>, now: string, j: nat)
    requires |sSubjects| > 0
    requires NoDuplicates(TeachingPeriods(v.weekdaySlots)) && NoDuplicates(TeachingPeriods(v.saturdaySlots))
    requires v.entries == GeneratedEntries(v.weekdaySlots, v.saturdaySlots, sSubjects, sTeachers, now)
    requires v.selectedClass == "c1"
    requires j < |v.entries|
    ensures GetEntry(v, v.entries[j].day, v.entries[j].period) == Some(v.entries[j])
  {
    var es := v.entries;
    var n := |TeachingPeriods(v.weekdaySlots)|;
    if j < 5 * n {
      WeekdayCoordinate(v.weekdaySlots, v.saturdaySlots, sSubjects, sTeachers, now, j);
    } else {
      SaturdayCoordinate(v.weekdaySlots, v.saturdaySlots, sSubjects, sTeachers, now, j);
    }
    forall i | 0 <= i < j
      ensures !At(es[i], es[j].day, es[j].period, "c1")
    {
      CoordinatesDiffer(v.weekdaySlots, v.saturdaySlots, sSubjects, sTeachers, now, i, j);
    }
  }

  // ---- name and absence lookups (TimetableView.tsx:29-31) ----

  function TeacherMatches(teacherId: string): Teacher -> bool {
    (t: Teacher) => t.teacherId == teacherId
  }

  /** `subjects.find(...)?.subjectName || ''`: the name of the first subject
      with the id, and '' for an unknown id. */
  function SubjectName(v: ViewData, subjectId: string): (r: string)
    ensures (forall j :: 0 <= j < |v.subjects| ==> v.subjects[j].subjectId != subjectId) ==> r == ""
    ensures forall i :: 0 <= i < |v.subjects| ==>
      (v.subjects[i].subjectId == subjectId && (forall j :: 0 <= j < i ==> v.subjects[j].subjectId != subjectId)) ==>
      r == v.subjects[i].subjectName
  {
    match Find(v.subjects, SubjectMatches(subjectId))
    case Some(i) => v.subjects[i].subjectName
    case None => ""
  }

  /** `teachers.find(...)?.name || ''` */
  function TeacherName(v: ViewData, teacherId: string): (r: string)
    ensures (forall j :: 0 <= j < |v.teachers| ==> v.teachers[j].teacherId != teacherId) ==> r == ""
    ensures forall i :: 0 <= i < |v.teachers| ==>
      (v.teachers[i].teacherId == teacherId && (forall j :: 0 <= j < i ==> v.teachers[j].teacherId != teacherId)) ==>
      r == v.teachers[i].name
  {
    match Find(v.teachers, TeacherMatches(teacherId))
    case Some(i) => v.teachers[i].name
    case None => ""
  }

  /** `teachers.find(...)?.isAbsent || false`: an unknown teacher is present. */
  function IsTeacherAbsent(v: ViewData, teacherId: string): (r: bool)
    ensures (forall j :: 0 <= j < |v.teachers| ==> v.teachers[j].teacherId != teacherId) ==> !r
    ensures forall i :: 0 <= i < |v.teachers| ==>
      (v.teachers[i].teacherId == teacherId && (forall j :: 0 <= j < i ==> v.teachers[j].teacherId != teacherId)) ==>
      r == v.teachers[i].isAbsent
  {
    match Find(v.teachers, TeacherMatches(teacherId))
    case Some(i) => v.teachers[i].isAbsent
    case None => false
  }

  /** Only a teacher on the list who is marked absent reads as absent. */
  lemma AbsentMeansListedAbsent(v: ViewData, teacherId: string)
    requires IsTeacherAbsent(v, teacherId)
    ensures exists i :: 0 <= i < |v.teachers| && v.teachers[i].teacherId == teacherId && v.teachers[i].isAbsent
  {
    var k := Find(v.teachers, TeacherMatches(teacherId));
    assert k.Some?;
    assert v.teachers[k.value].teacherId == teacherId;
  }

  // ---- handleLock (TimetableView.tsx:38-46) ----

  /** The lock button: unlocks a locked version and locks any other. */
  function ToggleLock(version: TimetableVersion): (r: TimetableVersion)
    ensures r.status == (if version.status == Locked then Draft else Locked)
    ensures r.(status := version.status) == version
  {
    if version.status == Locked then UnlockTimetable(version) else LockTimetable(version)
  }

  /** Pressing the button twice brings a locked version back to locked and
      any other version to draft: an approved version does not come back
      as approved. */
  lemma ToggleLockTwice(version: TimetableVersion)
    ensures ToggleLock(ToggleLock(version)) ==
      version.(status := if version.status == Locked then Locked else Draft)
  {
  }

  // ---- handleExport (TimetableView.tsx:48-53) ----

  const CsvHeader: seq<string> := ["Day", "Period", "Time", "Subject", "Teacher", "Room"]

  function InClass(classId: string): TimetableEntry -> bool {
    (e: TimetableEntry) => e.classId == classId
  }

  /** The entries of the selected class, in entry order. */
  function ClassEntries(v: ViewData): seq<TimetableEntry> {
    Filter(v.entries, InClass(v.selectedClass))
  }

  /** One CSV row: day, String(period), time text, subject and teacher
      names, room. */
  function EntryRow(v: ViewData, e: TimetableEntry): (r: seq<string>)
    ensures |r| == |CsvHeader|
  {
    [DayName(e.day), IntToString(e.period), e.timeSlot,
     SubjectName(v, e.subjectId), TeacherName(v, e.teacherId), e.room]
  }

  /** The forEach of handleExport: the header row, then one row per entry
      of the selected class, in entry order. */
  method ExportRows(v: ViewData) returns (rows: seq<seq<string>>)
    ensures var cls := ClassEntries(v);
      && |rows| == |cls| + 1 && rows[0] == CsvHeader
      && (forall k :: 0 <= k < |cls| ==> rows[k + 1] == EntryRow(v, cls[k]))
    ensures forall i :: 0 <= i < |v.entries| && v.entries[i].classId == v.selectedClass ==>
      EntryRow(v, v.entries[i]) in rows[1..]
  {
    var cls := ClassEntries(v);
    rows := [CsvHeader];
    var i := 0;
    while i < |cls|
      invariant 0 <= i <= |cls|
      invariant |rows| == i + 1 && rows[0] == CsvHeader
      invariant forall k :: 0 <= k < i ==> rows[k + 1] == EntryRow(v, cls[k])
    {
      rows := rows + [EntryRow(v, cls[i])];
      i := i + 1;
    }
    RowsCoverClass(v, rows);
  }

  /** Rows laid out as ExportRows lays them out list every entry of the
      selected class. */
  lemma RowsCoverClass(v: ViewData, rows: seq<seq<string>>)
    requires |rows| == |ClassEntries(v)| + 1
    requires forall k :: 0 <= k < |ClassEntries(v)| ==> rows[k + 1] == EntryRow(v, ClassEntries(v)[k])
    ensures forall i :: 0 <= i < |v.entries| && v.entries[i].classId == v.selectedClass ==>
      EntryRow(v, v.entries[i]) in rows[1..]
  {
    var cls := ClassEntries(v);
    forall j | 0 <= j < |v.entries| && v.entries[j].classId == v.selectedClass
      ensures EntryRow(v, v.entries[j]) in rows[1..]
    {
      assert InClass(v.selectedClass)(v.entries[j]);
      FilterMembership(v.entries, InClass(v.selectedClass), v.entries[j]);
      var k :| 0 <= k < |cls| && cls[k] == v.entries[j];
      assert rows[1..][k] == rows[k + 1];
    }
  }

  /** `rows.map(r => r.join(',')).join('\n')`, without any quoting. */
  function CsvText(rows: seq<seq<string>>): string {
    Join(seq(|rows|, i requires 0 <= i < |rows| => Join(rows[i], ',')), '\n')
  }

  predicate PlainField(f: string) {
    ',' !in f && '\n' !in f
  }

  /** Reading the CSV back: split into lines at '\n', each line at ','. */
  function ReadCsv(text: string): seq<seq<string>> {
    var lines := Split(text, '\n');
    seq(|lines|, i requires 0 <= i < |lines| => Split(lines[i], ','))
  }

  /** When no field holds a comma or a line break, reading the CSV back
      gives the rows. Nothing is quoted, so this is all the export keeps. */
  lemma CsvRoundTrip(rows: seq<seq<string>>)
    requires |rows| >= 1
    requires forall i :: 0 <= i < |rows| ==> |rows[i]| >= 1
    requires forall i, j :: 0 <= i < |rows| && 0 <= j < |rows[i]| ==> PlainField(rows[i][j])
    ensures ReadCsv(CsvText(rows)) == rows
  {
    var lines := seq(|rows|, i requires 0 <= i < |rows| => Join(rows[i], ','));
    forall i | 0 <= i < |rows|
      ensures '\n' !in lines[i] && Split(lines[i], ',') == rows[i]
    {
      JoinAvoids(rows[i], ',', '\n');
      SplitJoin(rows[i], ',');
    }
    SplitJoin(lines, '\n');
  }

  /** A joined line holds a character other than the separator only if
      some field does. */
  lemma {:induction false} JoinAvoids(fields: seq<string>, sep: char, c: char)
    requires c != sep
    requires forall i :: 0 <= i < |fields| ==> c !in fields[i]
    ensures c !in Join(fields, sep)
    decreases |fields|
  {
    if |fields| > 1 {
      JoinAvoids(fields[..|fields| - 1], sep, c);
    }
  }

  /** A field holding a comma comes back as two fields: the export does
      not quote, so a name such as "Art, Craft" shifts the columns of its row. */
  lemma CsvCommaSplitsField(a: string, b: string)
    requires PlainField(a) && PlainField(b)
    ensures ReadCsv(CsvText([[a + [','] + b]])) == [[a, b]]
  {
    var f := a + [','] + b;
    assert '\n' !in f by {
      assert forall i :: 0 <= i < |f| ==> f[i] == ',' || f[i] in a || f[i] in b;
    }
    assert seq(1, i requires 0 <= i < 1 => Join([[f]][i], ',')) == [f];
    assert CsvText([[f]]) == f;
    SplitWhole(f, '\n');
    assert ReadCsv(f) == [Split(f, ',')];
    SplitAfter(a, b, ',');
    SplitWhole(a, ',');
    assert Split(f, ',') == [a, b];
  }

  // ---- the grid (TimetableView.tsx:124-152) ----

  /** What a body cell shows: the dash of a Saturday period without a slot,
      an empty cell, or an entry's subject, teacher, absence mark and colour. */
  datatype Cell = Placeholder | EmptyCell | Filled(subjectName: string, teacherName: string, absent: bool, color: string)

  function FilledFor(v: ViewData, e: TimetableEntry): Cell {
    var name := SubjectName(v, e.subjectId);
    Filled(name, TeacherName(v, e.teacherId), IsTeacherAbsent(v, e.teacherId), SubjectColor(name))
  }

  /** The cell of a day for one period number. */
  function GridCell(v: ViewData, day: Day, period: int): (r: Cell)
    ensures r == Placeholder <==>
      day == Saturday && forall i :: 0 <= i < |SlotsForDay(v, day)| ==> SlotsForDay(v, day)[i].periodNumber != period
    ensures r.Filled? <==> r != Placeholder && GetEntry(v, day, period).Some?
  {
    var slot := Find(SlotsForDay(v, day), HasPeriod(period));
    if slot.None? && day == Saturday then Placeholder
    else match GetEntry(v, day, period)
      case None => EmptyCell
      case Some(e) => FilledFor(v, e)
  }

  /** The column headings: the periods of Monday's teaching slots. */
  function HeaderPeriods(v: ViewData): seq<int> {
    PeriodNumbers(SlotsForDay(v, Monday))
  }

  /** The cells of a day for a list of period numbers, one column each. */
  function CellsFor(v: ViewData, day: Day, periods: seq<int>): (r: seq<Cell>)
    ensures |r| == |periods|
  {
    seq(|periods|, c requires 0 <= c < |periods| => GridCell(v, day, periods[c]))
  }

  /** The numbers 1, 2, ..., n. */
  function Numbered(n: nat): (r: seq<int>)
    ensures |r| == n
  {
    seq(n, i requires 0 <= i < n => i + 1)
  }

  /** A body row as written: as many columns as Monday has teaching slots,
      column i looking up period i + 1 whatever its heading says. */
  function GridRowAsWritten(v: ViewData, day: Day): (r: seq<Cell>)
    ensures |r| == |HeaderPeriods(v)|
  {
    CellsFor(v, day, Numbered(|SlotsForDay(v, Monday)|))
  }

  /** A body row whose columns look up the period of their heading. */
  function GridRow(v: ViewData, day: Day): (r: seq<Cell>)
    ensures |r| == |HeaderPeriods(v)|
  {
    CellsFor(v, day, HeaderPeriods(v))
  }

  /** The two agree when the weekday periods are numbered 1, 2, ..., n, as
      in the seed templates. */
  lemma GridRowsAgreeWhenNumbered(v: ViewData, day: Day)
    requires forall c :: 0 <= c < |HeaderPeriods(v)| ==> HeaderPeriods(v)[c] == c + 1
    ensures GridRowAsWritten(v, day) == GridRow(v, day)
  {
    assert Numbered(|SlotsForDay(v, Monday)|) == HeaderPeriods(v);
  }

  /** With the heading-aligned row, every weekday entry of the selected
      class that is the first at its coordinate and sits in a weekday
      teaching period shows up, under the heading of its period. */
  lemma GridRowShowsEntry(v: ViewData, day: Day, i: nat)
    requires day != Saturday
    requires i < |v.entries| && At(v.entries[i], day, v.entries[i].period, v.selectedClass)
    requires forall j :: 0 <= j < i ==> !At(v.entries[j], day, v.entries[i].period, v.selectedClass)
    requires v.entries[i].period in TeachingPeriods(v.weekdaySlots)
    ensures exists c :: 0 <= c < |GridRow(v, day)| && HeaderPeriods(v)[c] == v.entries[i].period &&
                        GridRow(v, day)[c] == FilledFor(v, v.entries[i])
  {
    SlotsForDayPeriods(v, Monday);
    var header := HeaderPeriods(v);
    var c :| 0 <= c < |header| && header[c] == v.entries[i].period;
    assert SlotsForDay(v, day) == SlotsForDay(v, Monday);
    assert SlotsForDay(v, Monday)[c].periodNumber == header[c];
    assert GridRow(v, day)[c] == GridCell(v, day, header[c]);
  }

  /** A weekday template whose period 3 was removed: teaching periods 1, 2, 4. */
  const GappedWeekday: seq<TimeSlot> := [
    TimeSlot(1, "08:00", "08:45", false, None),
    TimeSlot(2, "08:45", "09:30", false, None),
    TimeSlot(4, "10:30", "11:15", false, None)]

  /** One Monday lesson in period 4 of class c1. */
  const GappedLesson: TimetableEntry :=
    TimetableEntry("tt_Monday_4", "s1", "c1", Monday, 4, "10:30-11:15", "sub1", "t1", "Room 2", Draft, None, "")

  const GappedView: ViewData := ViewData([GappedLesson], [], [], GappedWeekday, [], "c1")

  /** With periods 1, 2, 4 the third column is headed P4 but the row as
      written looks up period 3 there, so the period-4 lesson is shown
      nowhere; the heading-aligned row shows it in that column. */
  lemma GridColumnMismatch()
    ensures HeaderPeriods(GappedView) == [1, 2, 4]
    ensures forall c :: 0 <= c < |GridRowAsWritten(GappedView, Monday)| ==>
      GridRowAsWritten(GappedView, Monday)[c] == EmptyCell
    ensures GridRow(GappedView, Monday)[2] == FilledFor(GappedView, GappedLesson)
  {
    GappedHeader();
    forall c | 0 <= c < 3
      ensures GridRowAsWritten(GappedView, Monday)[c] == EmptyCell
    {
      GappedCellEmpty(c + 1);
    }
    GappedCellFilled();
  }

  lemma GappedHeader()
    ensures HeaderPeriods(GappedView) == [1, 2, 4]
  {
    FilterAll(GappedWeekday, IsTeaching);
  }

  lemma GappedCellEmpty(p: int)
    requires p != 4
    ensures GridCell(GappedView, Monday, p) == EmptyCell
  {
    assert !At(GappedView.entries[0], Monday, p, "c1");
  }

  lemma GappedCellFilled()
    ensures GridCell(GappedView, Monday, 4) == FilledFor(GappedView, GappedLesson)
  {
    assert At(GappedView.entries[0], Monday, 4, "c1");
  }
}
