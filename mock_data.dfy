/** src/data/mockData.ts: the day lists, the seed records, the subject
    colour table, the seed timetable generator, and the entry fields that
    both generators compute the same way. */
module MockData {
  import opened Basics
  import opened SchoolTypes
  import opened Rotation

  const DAYS: seq<Day> := [Monday, Tuesday, Wednesday, Thursday, Friday, Saturday]
  const WEEKDAYS: seq<Day> := [Monday, Tuesday, Wednesday, Thursday, Friday]

  lemma WeekdaysAreDaysBeforeSaturday()
    ensures |WEEKDAYS| == 5 && WEEKDAYS == DAYS[..5] && DAYS[5] == Saturday
    ensures Saturday !in WEEKDAYS && NoDuplicates(DAYS)
  {
  }

  const MockWeekdaySlots: seq<TimeSlot> := [
    TimeSlot(1, "08:00", "08:40", false, None),
    TimeSlot(2, "08:40", "09:20", false, None),
    TimeSlot(3, "09:20", "10:00", false, None),
    TimeSlot(0, "10:00", "10:20", true, Some("Short Break")),
    TimeSlot(4, "10:20", "11:00", false, None),
    TimeSlot(5, "11:00", "11:40", false, None),
    TimeSlot(6, "11:40", "12:20", false, None),
    TimeSlot(0, "12:20", "13:00", true, Some("Lunch Break")),
    TimeSlot(7, "13:00", "13:40", false, None),
    TimeSlot(8, "13:40", "14:20", false, None)
  ]

  const MockSaturdaySlots: seq<TimeSlot> := [
    TimeSlot(1, "08:00", "08:40", false, None),
    TimeSlot(2, "08:40", "09:20", false, None),
    TimeSlot(3, "09:20", "10:00", false, None),
    TimeSlot(0, "10:00", "10:20", true, Some("Short Break")),
    TimeSlot(4, "10:20", "11:00", false, None),
    TimeSlot(5, "11:00", "11:40", false, None)
  ]

  /** The seed templates number their teaching slots in increasing order. */
  lemma SeedTemplatesIncreasing()
    ensures StrictlyIncreasing(TeachingPeriods(MockWeekdaySlots))
    ensures StrictlyIncreasing(TeachingPeriods(MockSaturdaySlots))
  {
    TeachingSlotsInOrder(MockWeekdaySlots);
    TeachingSlotsInOrder(MockSaturdaySlots);
  }

  const MockTeachers: seq<Teacher> := [
    Teacher("t1", "s1", "Mrs. Sharma", ClassTeacher, ["Mathematics"], ["c1"], 6, 30, DAYS, false),
    Teacher("t2", "s1", "Mr. Patel", SubjectTeacher, ["Science", "Physics"], ["c1", "c2"], 6, 28, DAYS, false),
    Teacher("t3", "s1", "Ms. Gupta", SubjectTeacher, ["English", "Literature"], ["c1", "c2", "c3"], 7, 32, DAYS, true),
    Teacher("t4", "s1", "Mr. Kumar", ClassTeacher, ["Hindi", "Sanskrit"], ["c2"], 6, 30, WEEKDAYS, false),
    Teacher("t5", "s1", "Mrs. Reddy", SubjectTeacher, ["Social Science", "History"], ["c1", "c3"], 5, 25, DAYS, false),
    Teacher("t6", "s1", "Mr. Singh", SubjectTeacher, ["Physical Education"], ["c1", "c2", "c3"], 8, 35, DAYS, false),
    Teacher("t7", "s1", "Ms. Iyer", ClassTeacher, ["Computer Science"], ["c3"], 6, 28, DAYS, false)
  ]

  const MockClasses: seq<ClassInfo> := [
    ClassInfo("c1", "s1", "X", "A", "t1"),
    ClassInfo("c2", "s1", "X", "B", "t4"),
    ClassInfo("c3", "s1", "IX", "A", "t7")
  ]

  const MockSubjects: seq<Subject> := [
    Subject("s_math", "c1", "Mathematics", 6, 2, false, false, Core, ["t1"]),
    Subject("s_sci", "c1", "Science", 6, 2, false, true, Core, ["t2"]),
    Subject("s_eng", "c1", "English", 6, 2, false, false, Core, ["t3"]),
    Subject("s_hin", "c1", "Hindi", 5, 1, false, false, Core, ["t4"]),
    Subject("s_sst", "c1", "Social Science", 5, 1, false, false, Core, ["t5"]),
    Subject("s_pe", "c1", "Physical Education", 3, 1, false, false, Activity, ["t6"]),
    Subject("s_cs", "c1", "Computer Science", 3, 1, true, true, Elective, ["t7"])
  ]

  const SubjectColors: map<string, string> := map[
    "Mathematics" := "bg-info/10 text-info border-info/20",
    "Science" := "bg-success/10 text-success border-success/20",
    "English" := "bg-accent/10 text-accent border-accent/20",
    "Hindi" := "bg-warning/10 text-warning border-warning/20",
    "Social Science" := "bg-primary/10 text-primary border-primary/20",
    "Physical Education" := "bg-destructive/10 text-destructive border-destructive/20",
    "Computer Science" := "bg-muted-foreground/10 text-muted-foreground border-muted-foreground/20"
  ]

  const DefaultColor: string := "bg-muted text-muted-foreground border-border"

  /** getSubjectColor: the mapped class string, or the default for any other
      name (no mapped string is empty, so `||` never falls through). */
  function SubjectColor(subjectName: string): (r: string)
    ensures subjectName in SubjectColors ==> r == SubjectColors[subjectName] && r != DefaultColor
    ensures subjectName !in SubjectColors ==> r == DefaultColor
  {
    if subjectName in SubjectColors && SubjectColors[subjectName] != "" then SubjectColors[subjectName]
    else DefaultColor
  }

  /** Each of the seven seed subjects has its own colour. */
  lemma SeedSubjectColorsDistinct(i: nat, j: nat)
    requires i < j < |MockSubjects|
    ensures SubjectColor(MockSubjects[i].subjectName) != SubjectColor(MockSubjects[j].subjectName)
    ensures SubjectColor(MockSubjects[i].subjectName) != DefaultColor
  {
  }

  // ---- entry fields computed identically by both generators ----

  /** `tt_${day}_${period}` */
  function EntryId(day: Day, period: int): string {
    "tt_" + DayName(day) + "_" + IntToString(period)
  }

  /** Ids of entries are unique per (day, period). */
  lemma EntryIdInjective(d1: Day, p1: int, d2: Day, p2: int)
    requires EntryId(d1, p1) == EntryId(d2, p2)
    ensures d1 == d2 && p1 == p2
  {
    IdPartsInjective(DayName(d1), IntToString(p1), DayName(d2), IntToString(p2));
    DayNameInjective(d1, d2);
    IntToStringInjective(p1, p2);
  }

  /** `tt_<a>_<b>` determines a and b when a holds no underscore. */
  lemma IdPartsInjective(a: string, b: string, c: string, d: string)
    requires '_' !in a && '_' !in c
    requires "tt_" + a + "_" + b == "tt_" + c + "_" + d
    ensures a == c && b == d
  {
    var s, t := "tt_" + a + "_" + b, "tt_" + c + "_" + d;
    assert s[3..] == a + "_" + b;
    assert t[3..] == c + "_" + d;
    UnderscoreSplit(a, b, c, d);
  }

  /** `Room ${Math.ceil(period / 3)}` */
  function RoomName(period: int): (r: string)
    ensures |r| > 5 && r[..5] == "Room "
  {
    "Room " + IntToString(CeilThird(period))
  }

  lemma RoomNameIsNotLab(period: int)
    ensures RoomName(period) != "Lab 1"
  {
    assert RoomName(period)[0] == 'R';
  }

  function HasPeriod(period: int): TimeSlot -> bool {
    (s: TimeSlot) => s.periodNumber == period
  }

  /** `${slot?.startTime || ''} - ${slot?.endTime || ''}` for the first slot
      of the template (break or not) numbered `period`. */
  function TimeText(slots: seq<TimeSlot>, period: int): string {
    match Find(slots, HasPeriod(period))
    case Some(i) => slots[i].startTime + " - " + slots[i].endTime
    case None => " - "
  }

  function QualifiedFor(subj: Subject): Teacher -> bool {
    (t: Teacher) => t.teacherId in subj.qualifiedTeacherIds
  }

  /** `teachers.find(t => subj.qualifiedTeacherIds.includes(t.teacherId))?.teacherId || ''`:
      the first teacher, in list order, qualified for the subject, or '' when
      there is none. */
  function QualifiedTeacherId(teachers: seq<Teacher>, subj: Subject): (r: string)
    ensures (forall j :: 0 <= j < |teachers| ==> teachers[j].teacherId !in subj.qualifiedTeacherIds) ==> r == ""
    ensures r != "" ==> r in subj.qualifiedTeacherIds
    ensures forall i :: 0 <= i < |teachers| ==>
      (teachers[i].teacherId in subj.qualifiedTeacherIds &&
       (forall j :: 0 <= j < i ==> teachers[j].teacherId !in subj.qualifiedTeacherIds)) ==>
      r == teachers[i].teacherId
  {
    match Find(teachers, QualifiedFor(subj))
    case Some(i) => teachers[i].teacherId
    case None => ""
  }

  // ---- the seed timetable (generateEntries at mockData.ts:67-115) ----

  const SeedTimestamp: string := "2025-02-20T10:30:00Z"
  const SeedPeriods: seq<int> := seq(8, i => i + 1)  // [1, ..., 8]
  const SeedSaturdayPeriods: seq<int> := seq(5, i => i + 1)  // [1, ..., 5]

  /** The object pushed for a weekday period of the seed. */
  function SeedWeekdayEntry(day: Day, period: int, subj: Subject): TimetableEntry {
    TimetableEntry(
      EntryId(day, period), "s1", "c1", day, period,
      TimeText(MockWeekdaySlots, period),
      subj.subjectId,
      QualifiedTeacherId(MockTeachers, subj),
      if period == 7 && subj.isLab then "Lab 1" else RoomName(period),
      Approved, Some(92), SeedTimestamp)
  }

  /** The object pushed for a Saturday period of the seed: no score, Room 1. */
  function SeedSaturdayEntry(day: Day, period: int, subj: Subject): TimetableEntry {
    TimetableEntry(
      EntryId(Saturday, period), "s1", "c1", Saturday, period,
      TimeText(MockSaturdaySlots, period),
      subj.subjectId,
      QualifiedTeacherId(MockTeachers, subj),
      "Room 1",
      Approved, None, SeedTimestamp)
  }

  /** The seed over its subject rotation (`const subjectRotation = mockSubjects`). */
  function SeedEntries(subjectRotation: seq<Subject>): seq<TimetableEntry>
    requires |subjectRotation| > 0
  {
    WeekEntries(WEEKDAYS, SeedPeriods, subjectRotation, SeedWeekdayEntry) +
    DayEntries(Saturday, SeedSaturdayPeriods, subjectRotation, SeedSaturdayEntry)
  }

  /** generateEntries of the seed: Monday to Friday over periods 1..8 with
      the counter reset each day, then Saturday over periods 1..5. */
  method GenerateSeedEntries() returns (entries: seq<TimetableEntry>)
    ensures entries == SeedEntries(MockSubjects)
  {
    entries := [];
    entries := PushWeek(entries, WEEKDAYS, SeedPeriods, MockSubjects, SeedWeekdayEntry);
    entries := PushDay(entries, Saturday, SeedSaturdayPeriods, MockSubjects, SeedSaturdayEntry);
  }

  const MockTimetableVersion: TimetableVersion :=
    TimetableVersion("v1", "s1", "c1", SeedTimestamp, 92, Approved, true, SeedEntries(MockSubjects))

  /** The k-th seed subject is taught by the k-th seed teacher. */
  lemma SeedTeacherOfSubject(k: nat)
    requires k < |MockSubjects|
    ensures QualifiedTeacherId(MockTeachers, MockSubjects[k]) == MockTeachers[k].teacherId
  {
    var subj := MockSubjects[k];
    assert MockTeachers[k].teacherId in subj.qualifiedTeacherIds;
    forall j | 0 <= j < k
      ensures MockTeachers[j].teacherId !in subj.qualifiedTeacherIds
    {
    }
  }

  lemma SeedLabSubject(i: nat)
    requires i < |MockSubjects|
    ensures MockSubjects[i].isLab <==> i == 6
  {
  }

  /** The seed has 5 x 8 weekday entries and 5 Saturday entries. */
  lemma SeedLength()
    ensures |SeedEntries(MockSubjects)| == 45
  {
    WeekEntriesLength(WEEKDAYS, SeedPeriods, MockSubjects, SeedWeekdayEntry);
  }

  /** The weekday builder takes its teacher from the subject: the k-th seed
      subject goes to the k-th seed teacher. */
  lemma SeedWeekdayTeacher(day: Day, k: nat)
    requires k < 8
    ensures SeedWeekdayEntry(day, k + 1, MockSubjects[k % 7]).teacherId == MockTeachers[k % 7].teacherId
  {
    SeedTeacherOfSubject(k % 7);
  }

  /** Lab 1 only at period 7, where the rotation lands on the lab subject. */
  lemma SeedWeekdayRoom(day: Day, k: nat)
    requires k < 8
    ensures SeedWeekdayEntry(day, k + 1, MockSubjects[k % 7]).room == (if k == 6 then "Lab 1" else RoomName(k + 1))
  {
    SeedLabSubject(k % 7);
    assert (k + 1 == 7 && MockSubjects[k % 7].isLab) <==> k == 6;
  }

  /** What the weekday builder makes of the k-th period: subject k mod 7
      with its first qualified teacher, the room above, score 92. */
  lemma SeedWeekdayEntryFields(day: Day, k: nat)
    requires k < 8
    ensures var e := SeedWeekdayEntry(day, k + 1, MockSubjects[k % 7]);
      && e.day == day && e.period == k + 1
      && e.timetableId == EntryId(day, k + 1)
      && e.subjectId == MockSubjects[k % 7].subjectId
      && e.teacherId == MockTeachers[k % 7].teacherId
      && e.room == (if k == 6 then "Lab 1" else RoomName(k + 1))
      && e.classId == "c1" && e.status == Approved && e.score == Some(92)
  {
    SeedWeekdayTeacher(day, k);
    SeedWeekdayRoom(day, k);
  }

  /** The weekday entry for day d and period k + 1 sits at 8 d + k. */
  lemma SeedWeekdayAt(d: nat, k: nat)
    requires d < 5 && k < 8
    ensures |SeedEntries(MockSubjects)| == 45
    ensures SeedEntries(MockSubjects)[d * 8 + k] == SeedWeekdayEntry(WEEKDAYS[d], k + 1, MockSubjects[k % 7])
  {
    WeekEntriesAt(WEEKDAYS, SeedPeriods, MockSubjects, SeedWeekdayEntry, d, k);
    WeekEntriesLength(WEEKDAYS, SeedPeriods, MockSubjects, SeedWeekdayEntry);
    assert SeedPeriods[k] == k + 1;
  }

  /** What the Saturday builder makes of the i-th period: subject i, Room 1,
      no score. */
  lemma SeedSaturdayEntryFields(i: nat)
    requires i < 5
    ensures var e := SeedSaturdayEntry(Saturday, SeedSaturdayPeriods[i], MockSubjects[i % 7]);
      && e.day == Saturday && e.period == i + 1
      && e.subjectId == MockSubjects[i].subjectId
      && e.teacherId == MockTeachers[i].teacherId
      && e.room == "Room 1" && e.score == None && e.status == Approved
  {
    var p, subj := SeedSaturdayPeriods[i], MockSubjects[i % 7];
    assert p == i + 1 && subj == MockSubjects[i];
    SaturdayBuilderFields(p, subj);
    SeedTeacherOfSubject(i);
  }

  lemma SaturdayBuilderFields(p: int, subj: Subject)
    ensures var e := SeedSaturdayEntry(Saturday, p, subj);
      && e.day == Saturday && e.period == p && e.timetableId == EntryId(Saturday, p)
      && e.subjectId == subj.subjectId && e.teacherId == QualifiedTeacherId(MockTeachers, subj)
      && e.room == "Room 1" && e.score == None && e.status == Approved
  {
  }

  /** The Saturday entry for period i + 1 follows the 40 weekday entries. */
  lemma SeedSaturdayAt(i: nat)
    requires i < 5
    ensures |SeedEntries(MockSubjects)| == 45
    ensures SeedEntries(MockSubjects)[40 + i] == SeedSaturdayEntry(Saturday, SeedSaturdayPeriods[i], MockSubjects[i % 7])
  {
    WeekEntriesLength(WEEKDAYS, SeedPeriods, MockSubjects, SeedWeekdayEntry);
    DayEntriesAt(Saturday, SeedSaturdayPeriods, MockSubjects, SeedSaturdayEntry, i);
  }

  /** Every seed entry is placed by (day, period) as above: the position
      determines the coordinate and the coordinate the position. */
  lemma SeedCoordinate(j: nat)
    requires j < 45
    ensures |SeedEntries(MockSubjects)| == 45
    ensures j < 40 ==> SeedEntries(MockSubjects)[j].day == WEEKDAYS[j / 8] && SeedEntries(MockSubjects)[j].period == j % 8 + 1
    ensures j >= 40 ==> SeedEntries(MockSubjects)[j].day == Saturday && SeedEntries(MockSubjects)[j].period == j - 39
  {
    SeedLength();
    if j < 40 {
      var d, k := j / 8, j % 8;
      assert j == d * 8 + k;
      SeedWeekdayAt(d, k);
      SeedWeekdayEntryFields(WEEKDAYS[d], k);
    } else {
      SeedSaturdayAt(j - 40);
      SeedSaturdayEntryFields(j - 40);
    }
  }

  /** No two seed entries share a timetableId. */
  lemma SeedIdsUnique(i: nat, j: nat)
    requires i < j < 45
    ensures |SeedEntries(MockSubjects)| == 45 && SeedEntries(MockSubjects)[i].timetableId != SeedEntries(MockSubjects)[j].timetableId
  {
    SeedCoordinatesDiffer(i, j);
    SeedIdOf(i);
    SeedIdOf(j);
    var a, b := SeedEntries(MockSubjects)[i], SeedEntries(MockSubjects)[j];
    if a.timetableId == b.timetableId {
      EntryIdInjective(a.day, a.period, b.day, b.period);
    }
  }

  /** Two positions of the seed hold different (day, period) coordinates. */
  lemma SeedCoordinatesDiffer(i: nat, j: nat)
    requires i < j < 45
    ensures |SeedEntries(MockSubjects)| == 45
    ensures var a, b := SeedEntries(MockSubjects)[i], SeedEntries(MockSubjects)[j];
      a.day != b.day || a.period != b.period
  {
    SeedCoordinate(i);
    SeedCoordinate(j);
    if j < 40 {
      if i / 8 != j / 8 {
        WeekdaysDistinct(i / 8, j / 8);
      }
    } else if i < 40 {
      WeekdaysDistinct(i / 8, 5);
    }
  }

  /** The five weekdays are distinct from each other and from Saturday
      (Saturday standing at position 5 of DAYS). */
  lemma WeekdaysDistinct(a: nat, b: nat)
    requires a < 5 && b <= 5
    ensures b == 5 ==> WEEKDAYS[a] != Saturday
    ensures b < 5 && WEEKDAYS[a] == WEEKDAYS[b] ==> a == b
  {
  }

  /** Every seed entry's id is built from its own day and period. */
  lemma SeedIdOf(j: nat)
    requires j < 45
    ensures |SeedEntries(MockSubjects)| == 45
    ensures SeedEntries(MockSubjects)[j].timetableId == EntryId(SeedEntries(MockSubjects)[j].day, SeedEntries(MockSubjects)[j].period)
  {
    if j < 40 {
      SeedWeekdayAt(j / 8, j % 8);
      SeedWeekdayEntryFields(WEEKDAYS[j / 8], j % 8);
    } else {
      SeedSaturdayAt(j - 40);
      SaturdayBuilderFields(SeedSaturdayPeriods[j - 40], MockSubjects[(j - 40) % 7]);
    }
  }
}
