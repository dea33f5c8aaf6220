/** The records of src/types/school.ts that the timetable logic touches.
    Optional TypeScript fields become Option (or bool where only their
    truthiness is read); fields no modelled operation reads are omitted. */
module SchoolTypes {
  import opened Basics

  datatype Day = Monday | Tuesday | Wednesday | Thursday | Friday | Saturday

  function DayName(d: Day): (r: string)
    ensures '_' !in r
  {
    match d
    case Monday => "Monday"
    case Tuesday => "Tuesday"
    case Wednesday => "Wednesday"
    case Thursday => "Thursday"
    case Friday => "Friday"
    case Saturday => "Saturday"
  }

  lemma DayNameInjective(a: Day, b: Day)
    requires DayName(a) == DayName(b)
    ensures a == b
  {
  }

  datatype TimetableStatus = Draft | Approved | Locked

  datatype BoardType = CBSE | ICSE | StateBoard

  datatype SubjectPriority = Core | Elective | Activity

  datatype TeacherRole = SubjectTeacher | ClassTeacher

  /** A row of a slot template: a teaching period, or a break (whose
      periodNumber is 0 by convention). An absent isBreak reads as false. */
  datatype TimeSlot = TimeSlot(
    periodNumber: int,
    startTime: string,
    endTime: string,
    isBreak: bool,
    labelText: Option<string>)  // `label` in the source; a Dafny keyword

  datatype School = School(
    schoolId: string,
    schoolName: string,
    boardType: BoardType,
    academicYear: string,
    divisionsPerGrade: map<string, seq<string>>,
    customSubjects: seq<string>)

  datatype ClassInfo = ClassInfo(
    classId: string,
    schoolId: string,
    grade: string,
    section: string,
    classTeacherId: string)

  datatype Teacher = Teacher(
    teacherId: string,
    schoolId: string,
    name: string,
    teacherRole: TeacherRole,
    subjectsCanTeach: seq<string>,
    classesHandled: seq<string>,
    maxPeriodsPerDay: int,
    maxPeriodsPerWeek: int,
    availableDays: seq<Day>,
    isAbsent: bool)

  datatype Subject = Subject(
    subjectId: string,
    classId: string,
    subjectName: string,
    periodsPerWeek: int,
    maxPerDay: int,
    isLab: bool,
    allowDoublePeriod: bool,
    priority: SubjectPriority,
    qualifiedTeacherIds: seq<string>)

  datatype TimetableEntry = TimetableEntry(
    timetableId: string,
    schoolId: string,
    classId: string,
    day: Day,
    period: int,
    timeSlot: string,
    subjectId: string,
    teacherId: string,
    room: string,
    status: TimetableStatus,
    score: Option<int>,
    generatedAt: string)

  datatype TimetableVersion = TimetableVersion(
    versionId: string,
    schoolId: string,
    classId: string,
    generatedAt: string,
    score: int,
    status: TimetableStatus,
    isActive: bool,
    entries: seq<TimetableEntry>)

  /** The test `!s.isBreak` that every consumer of a template applies. */
  predicate IsTeaching(s: TimeSlot) {
    !s.isBreak
  }

  /** `slots.filter(s => !s.isBreak)` */
  function Teaching(slots: seq<TimeSlot>): seq<TimeSlot> {
    Filter(slots, IsTeaching)
  }

  function PeriodNumbers(slots: seq<TimeSlot>): (r: seq<int>)
    ensures |r| == |slots|
    ensures forall i :: 0 <= i < |slots| ==> r[i] == slots[i].periodNumber
  {
    seq(|slots|, i requires 0 <= i < |slots| => slots[i].periodNumber)
  }

  /** `slots.filter(s => !s.isBreak).map(s => s.periodNumber)`: the teaching
      periods of a template, in template order. */
  function TeachingPeriods(slots: seq<TimeSlot>): seq<int> {
    PeriodNumbers(Teaching(slots))
  }

  /** Appending one slot appends its number to the teaching periods exactly
      when it is a teaching slot. */
  lemma TeachingPeriodsAppend(slots: seq<TimeSlot>, x: TimeSlot)
    ensures TeachingPeriods(slots + [x]) ==
      TeachingPeriods(slots) + (if IsTeaching(x) then [x.periodNumber] else [])
  {
    FilterAppend(slots, [x], IsTeaching);
    assert Filter([x], IsTeaching) == (if IsTeaching(x) then [x] else []) by {
      assert [x][..0] == [];
    }
  }

  /** A number is a teaching period exactly when some non-break slot has it. */
  lemma {:induction false} InTeachingPeriods(slots: seq<TimeSlot>, p: int)
    ensures p in TeachingPeriods(slots) <==>
      exists i :: 0 <= i < |slots| && IsTeaching(slots[i]) && slots[i].periodNumber == p
    decreases |slots|
  {
    if slots != [] {
      var init := slots[..|slots| - 1];
      var last := slots[|slots| - 1];
      assert slots == init + [last];
      InTeachingPeriods(init, p);
      TeachingPeriodsAppend(init, last);
      if exists i :: 0 <= i < |slots| && IsTeaching(slots[i]) && slots[i].periodNumber == p {
        var i :| 0 <= i < |slots| && IsTeaching(slots[i]) && slots[i].periodNumber == p;
        if i < |init| {
          assert init[i] == slots[i];
        }
      }
      if exists i :: 0 <= i < |init| && IsTeaching(init[i]) && init[i].periodNumber == p {
        var i :| 0 <= i < |init| && IsTeaching(init[i]) && init[i].periodNumber == p;
        assert slots[i] == init[i];
      }
    }
  }

  /** Two templates whose slots agree on number and kind, position by
      position, have the same teaching periods. */
  lemma {:induction false} TeachingPeriodsAgree(a: seq<TimeSlot>, b: seq<TimeSlot>)
    requires |a| == |b|
    requires forall i :: 0 <= i < |a| ==>
      a[i].isBreak == b[i].isBreak && a[i].periodNumber == b[i].periodNumber
    ensures TeachingPeriods(a) == TeachingPeriods(b)
    decreases |a|
  {
    if a != [] {
      var n := |a| - 1;
      assert a == a[..n] + [a[n]] && b == b[..n] + [b[n]];
      TeachingPeriodsAgree(a[..n], b[..n]);
      TeachingPeriodsAppend(a[..n], a[n]);
      TeachingPeriodsAppend(b[..n], b[n]);
    }
  }

  /** A template whose teaching slots carry increasing numbers, in slot
      order, has strictly increasing teaching periods. */
  lemma {:induction false} TeachingSlotsInOrder(slots: seq<TimeSlot>)
    requires forall i, j :: 0 <= i < j < |slots| && IsTeaching(slots[i]) && IsTeaching(slots[j]) ==>
      slots[i].periodNumber < slots[j].periodNumber
    ensures StrictlyIncreasing(TeachingPeriods(slots))
    decreases |slots|
  {
    if slots != [] {
      var init, last := slots[..|slots| - 1], slots[|slots| - 1];
      assert slots == init + [last];
      TeachingSlotsInOrder(init);
      TeachingPeriodsAppend(init, last);
      var tp := TeachingPeriods(init);
      if IsTeaching(last) {
        forall i | 0 <= i < |tp|
          ensures tp[i] < last.periodNumber
        {
          InTeachingPeriods(init, tp[i]);
          var w :| 0 <= w < |init| && IsTeaching(init[w]) && init[w].periodNumber == tp[i];
          assert slots[w] == init[w];
        }
      }
    }
  }

  predicate StrictlyIncreasing(ps: seq<int>) {
    forall i, j :: 0 <= i < j < |ps| ==> ps[i] < ps[j]
  }

  predicate NoDuplicates<T(==)>(s: seq<T>) {
    forall i, j :: 0 <= i < j < |s| ==> s[i] != s[j]
  }
}
