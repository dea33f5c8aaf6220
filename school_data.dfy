/** The timetable state operations of the school data context
    (src/context/SchoolDataContext.tsx): the round-robin generator over the
    configured slot templates, regeneration of the active version,
    substitution, lock and unlock, and a teacher's weekly load.

    The React state setters take the previous version to the next one, so
    each update is a function from version to version. The clock and
    Math.random are parameters. */
module SchoolData {
  import opened Basics
  import opened SchoolTypes
  import opened Rotation
  import opened MockData

  // ---- generateEntries (SchoolDataContext.tsx:50-101) ----

  /** A weekday entry of a generated draft: a lab subject always gets Lab 1. */
  function WeekdayEntry(wSlots: seq<TimeSlot>, teachers: seq<Teacher>, now: string,
                        day: Day, period: int, subj: Subject): TimetableEntry
  {
    TimetableEntry(
      EntryId(day, period), "s1", "c1", day, period,
      TimeText(wSlots, period),
      subj.subjectId,
      QualifiedTeacherId(teachers, subj),
      if subj.isLab then "Lab 1" else RoomName(period),
      Draft, Some(0), now)
  }

  /** A Saturday entry of a generated draft: always Room 1, and no score. */
  function SaturdayEntry(sSlots: seq<TimeSlot>, teachers: seq<Teacher>, now: string,
                         day: Day, period: int, subj: Subject): TimetableEntry
  {
    TimetableEntry(
      EntryId(Saturday, period), "s1", "c1", Saturday, period,
      TimeText(sSlots, period),
      subj.subjectId,
      QualifiedTeacherId(teachers, subj),
      "Room 1",
      Draft, None, now)
  }

  function WeekdayBuilder(wSlots: seq<TimeSlot>, teachers: seq<Teacher>, now: string): EntryBuilder {
    (day: Day, period: int, subj: Subject) => WeekdayEntry(wSlots, teachers, now, day, period, subj)
  }

  function SaturdayBuilder(sSlots: seq<TimeSlot>, teachers: seq<Teacher>, now: string): EntryBuilder {
    (day: Day, period: int, subj: Subject) => SaturdayEntry(sSlots, teachers, now, day, period, subj)
  }

  /** The draft generated from two slot templates: Monday to Friday over the
      weekday teaching periods, then Saturday over its own teaching periods. */
  function GeneratedEntries(wSlots: seq<TimeSlot>, sSlots: seq<TimeSlot>, subjects: seq<Subject>,
                            teachers: seq<Teacher>, now: string): seq<TimetableEntry>
    requires |subjects| > 0
  {
    WeekEntries(WEEKDAYS, TeachingPeriods(wSlots), subjects, WeekdayBuilder(wSlots, teachers, now)) +
    DayEntries(Saturday, TeachingPeriods(sSlots), subjects, SaturdayBuilder(sSlots, teachers, now))
  }

  /** generateEntries: the nested forEach loops pushing into `entries`.
      The subject list is the context's fixed mock list, which is never empty. */
  method GenerateEntries(wSlots: seq<TimeSlot>, sSlots: seq<TimeSlot>, subjects: seq<Subject>,
                         teachers: seq<Teacher>, now: string)
    returns (entries: seq<TimetableEntry>)
    requires |subjects| > 0
    ensures entries == GeneratedEntries(wSlots, sSlots, subjects, teachers, now)
  {
    var weekdayPeriods := TeachingPeriods(wSlots);
    var satPeriods := TeachingPeriods(sSlots);
    entries := [];
    entries := PushWeek(entries, WEEKDAYS, weekdayPeriods, subjects, WeekdayBuilder(wSlots, teachers, now));
    entries := PushDay(entries, Saturday, satPeriods, subjects, SaturdayBuilder(sSlots, teachers, now));
  }

  /** Five weekday rows of the weekday teaching periods, then the Saturday ones. */
  lemma GeneratedLength(wSlots: seq<TimeSlot>, sSlots: seq<TimeSlot>, subjects: seq<Subject>,
                        teachers: seq<Teacher>, now: string)
    requires |subjects| > 0
    ensures |GeneratedEntries(wSlots, sSlots, subjects, teachers, now)| ==
      5 * |TeachingPeriods(wSlots)| + |TeachingPeriods(sSlots)|
  {
    WeekEntriesLength(WEEKDAYS, TeachingPeriods(wSlots), subjects, WeekdayBuilder(wSlots, teachers, now));
  }

  /** The entry at d * n + k is weekday d at its k-th teaching period, with
      subject k mod |subjects| (the counter restarts every day), the first
      qualified teacher, Lab 1 exactly for a lab subject, draft status. */
  lemma GeneratedWeekdayAt(wSlots: seq<TimeSlot>, sSlots: seq<TimeSlot>, subjects: seq<Subject>,
                           teachers: seq<Teacher>, now: string, d: nat, k: nat)
    requires |subjects| > 0
    requires d < 5 && k < |TeachingPeriods(wSlots)|
    ensures d * |TeachingPeriods(wSlots)| + k < |GeneratedEntries(wSlots, sSlots, subjects, teachers, now)|
    ensures var e := GeneratedEntries(wSlots, sSlots, subjects, teachers, now)[d * |TeachingPeriods(wSlots)| + k];
      var period := TeachingPeriods(wSlots)[k];
      var subj := subjects[k % |subjects|];
      && e.day == WEEKDAYS[d] && e.period == period
      && e.timetableId == EntryId(WEEKDAYS[d], period)
      && e.subjectId == subj.subjectId
      && e.teacherId == QualifiedTeacherId(teachers, subj)
      && e.room == (if subj.isLab then "Lab 1" else RoomName(period))
      && e.timeSlot == TimeText(wSlots, period)
      && e.classId == "c1" && e.schoolId == "s1"
      && e.status == Draft && e.score == Some(0) && e.generatedAt == now
  {
    GeneratedWeekdayIs(wSlots, sSlots, subjects, teachers, now, d, k);
  }

  /** A weekday entry is in Lab 1 exactly when its subject is a lab: the
      numbered rooms are never called Lab 1. */
  lemma GeneratedLabRoom(wSlots: seq<TimeSlot>, sSlots: seq<TimeSlot>, subjects: seq<Subject>,
                         teachers: seq<Teacher>, now: string, d: nat, k: nat)
    requires |subjects| > 0
    requires d < 5 && k < |TeachingPeriods(wSlots)|
    ensures d * |TeachingPeriods(wSlots)| + k < |GeneratedEntries(wSlots, sSlots, subjects, teachers, now)|
    ensures GeneratedEntries(wSlots, sSlots, subjects, teachers, now)[d * |TeachingPeriods(wSlots)| + k].room == "Lab 1"
      <==> subjects[k % |subjects|].isLab
  {
    GeneratedWeekdayAt(wSlots, sSlots, subjects, teachers, now, d, k);
    RoomNameIsNotLab(TeachingPeriods(wSlots)[k]);
  }

  /** Position d n + k holds the weekday builder's entry for weekday d at
      the k-th teaching period. */
  lemma GeneratedWeekdayIs(wSlots: seq<TimeSlot>, sSlots: seq<TimeSlot>, subjects: seq<Subject>,
                           teachers: seq<Teacher>, now: string, d: nat, k: nat)
    requires |subjects| > 0
    requires d < 5 && k < |TeachingPeriods(wSlots)|
    ensures d * |TeachingPeriods(wSlots)| + k < |GeneratedEntries(wSlots, sSlots, subjects, teachers, now)|
    ensures GeneratedEntries(wSlots, sSlots, subjects, teachers, now)[d * |TeachingPeriods(wSlots)| + k] ==
      WeekdayEntry(wSlots, teachers, now, WEEKDAYS[d], TeachingPeriods(wSlots)[k], subjects[k % |subjects|])
  {
    var wp := TeachingPeriods(wSlots);
    var build := WeekdayBuilder(wSlots, teachers, now);
    var subj := subjects[k % |subjects|];
    WeekEntriesAt(WEEKDAYS, wp, subjects, build, d, k);
    var j := d * |wp| + k;
    MulNat(d, |wp|);
    GeneratedWeekBlock(wSlots, sSlots, subjects, teachers, now, j);
    assert build(WEEKDAYS[d], wp[k], subj) == WeekdayEntry(wSlots, teachers, now, WEEKDAYS[d], wp[k], subj);
  }

  /** The draft starts with the week block. */
  lemma GeneratedWeekBlock(wSlots: seq<TimeSlot>, sSlots: seq<TimeSlot>, subjects: seq<Subject>,
                           teachers: seq<Teacher>, now: string, j: nat)
    requires |subjects| > 0
    requires j < |WeekEntries(WEEKDAYS, TeachingPeriods(wSlots), subjects, WeekdayBuilder(wSlots, teachers, now))|
    ensures j < |GeneratedEntries(wSlots, sSlots, subjects, teachers, now)|
    ensures GeneratedEntries(wSlots, sSlots, subjects, teachers, now)[j] ==
      WeekEntries(WEEKDAYS, TeachingPeriods(wSlots), subjects, WeekdayBuilder(wSlots, teachers, now))[j]
  {
  }

  /** The i-th Saturday entry follows the weekday block, with subject
      i mod |subjects|, Room 1 and no score. */
  lemma GeneratedSaturdayAt(wSlots: seq<TimeSlot>, sSlots: seq<TimeSlot>, subjects: seq<Subject>,
                            teachers: seq<Teacher>, now: string, i: nat)
    requires |subjects| > 0
    requires i < |TeachingPeriods(sSlots)|
    ensures 5 * |TeachingPeriods(wSlots)| + i < |GeneratedEntries(wSlots, sSlots, subjects, teachers, now)|
    ensures var e := GeneratedEntries(wSlots, sSlots, subjects, teachers, now)[5 * |TeachingPeriods(wSlots)| + i];
      var period := TeachingPeriods(sSlots)[i];
      var subj := subjects[i % |subjects|];
      && e.day == Saturday && e.period == period
      && e.timetableId == EntryId(Saturday, period)
      && e.subjectId == subj.subjectId
      && e.teacherId == QualifiedTeacherId(teachers, subj)
      && e.room == "Room 1"
      && e.timeSlot == TimeText(sSlots, period)
      && e.classId == "c1" && e.schoolId == "s1"
      && e.status == Draft && e.score == None && e.generatedAt == now
  {
    GeneratedSaturdayIs(wSlots, sSlots, subjects, teachers, now, i);
  }

  /** Position 5 n + i holds the Saturday builder's entry for the i-th
      Saturday teaching period. */
  lemma GeneratedSaturdayIs(wSlots: seq<TimeSlot>, sSlots: seq<TimeSlot>, subjects: seq<Subject>,
                            teachers: seq<Teacher>, now: string, i: nat)
    requires |subjects| > 0
    requires i < |TeachingPeriods(sSlots)|
    ensures 5 * |TeachingPeriods(wSlots)| + i < |GeneratedEntries(wSlots, sSlots, subjects, teachers, now)|
    ensures GeneratedEntries(wSlots, sSlots, subjects, teachers, now)[5 * |TeachingPeriods(wSlots)| + i] ==
      SaturdayEntry(sSlots, teachers, now, Saturday, TeachingPeriods(sSlots)[i], subjects[i % |subjects|])
  {
    var wp := TeachingPeriods(wSlots);
    WeekEntriesLength(WEEKDAYS, wp, subjects, WeekdayBuilder(wSlots, teachers, now));
    DayEntriesAt(Saturday, TeachingPeriods(sSlots), subjects, SaturdayBuilder(sSlots, teachers, now), i);
  }

  /** Conversely, every position of the weekday block names its coordinate:
      weekday j / n at teaching period j mod n. */
  lemma WeekdayCoordinate(wSlots: seq<TimeSlot>, sSlots: seq<TimeSlot>, subjects: seq<Subject>,
                          teachers: seq<Teacher>, now: string, j: nat)
    requires |subjects| > 0
    requires j < 5 * |TeachingPeriods(wSlots)|
    ensures j < |GeneratedEntries(wSlots, sSlots, subjects, teachers, now)|
    ensures var e := GeneratedEntries(wSlots, sSlots, subjects, teachers, now)[j];
      var n := |TeachingPeriods(wSlots)|;
      && j / n < 5 && j % n < n
      && e.day == WEEKDAYS[j / n] && e.period == TeachingPeriods(wSlots)[j % n]
      && e.classId == "c1" && e.status == Draft
  {
    var n := |TeachingPeriods(wSlots)|;
    RowColumn(j, n, 5);
    WeekdayCoordinateAt(wSlots, sSlots, subjects, teachers, now, j, j / n, j % n);
  }

  /** Position j = d n + k of the weekday block is weekday d at teaching
      period k. */
  lemma WeekdayCoordinateAt(wSlots: seq<TimeSlot>, sSlots: seq<TimeSlot>, subjects: seq<Subject>,
                            teachers: seq<Teacher>, now: string, j: nat, d: nat, k: nat)
    requires |subjects| > 0
    requires d < 5 && k < |TeachingPeriods(wSlots)| && j == d * |TeachingPeriods(wSlots)| + k
    ensures j < |GeneratedEntries(wSlots, sSlots, subjects, teachers, now)|
    ensures var e := GeneratedEntries(wSlots, sSlots, subjects, teachers, now)[j];
      && e.day == WEEKDAYS[d] && e.period == TeachingPeriods(wSlots)[k]
      && e.classId == "c1" && e.status == Draft
  {
    GeneratedWeekdayIs(wSlots, sSlots, subjects, teachers, now, d, k);
  }

  /** Every position after the weekday block is a Saturday entry. */
  lemma SaturdayCoordinate(wSlots: seq<TimeSlot>, sSlots: seq<TimeSlot>, subjects: seq<Subject>,
                           teachers: seq<Teacher>, now: string, j: nat)
    requires |subjects| > 0
    requires 5 * |TeachingPeriods(wSlots)| <= j < |GeneratedEntries(wSlots, sSlots, subjects, teachers, now)|
    ensures var e := GeneratedEntries(wSlots, sSlots, subjects, teachers, now)[j];
      var i := j - 5 * |TeachingPeriods(wSlots)|;
      && i < |TeachingPeriods(sSlots)|
      && e.day == Saturday && e.period == TeachingPeriods(sSlots)[i]
      && e.classId == "c1" && e.status == Draft
  {
    GeneratedLength(wSlots, sSlots, subjects, teachers, now);
    GeneratedSaturdayIs(wSlots, sSlots, subjects, teachers, now, j - 5 * |TeachingPeriods(wSlots)|);
  }

  /** Every generated entry's id is tt_<day>_<period>, built from its own
      coordinate. */
  lemma GeneratedIdOf(wSlots: seq<TimeSlot>, sSlots: seq<TimeSlot>, subjects: seq<Subject>,
                      teachers: seq<Teacher>, now: string, j: nat)
    requires |subjects| > 0
    requires j < |GeneratedEntries(wSlots, sSlots, subjects, teachers, now)|
    ensures var e := GeneratedEntries(wSlots, sSlots, subjects, teachers, now)[j];
      e.timetableId == EntryId(e.day, e.period)
  {
    var n := |TeachingPeriods(wSlots)|;
    GeneratedLength(wSlots, sSlots, subjects, teachers, now);
    if j < 5 * n {
      RowColumn(j, n, 5);
      WeekdayIdOf(wSlots, sSlots, subjects, teachers, now, j, j / n, j % n);
    } else {
      SaturdayIdOf(wSlots, sSlots, subjects, teachers, now, j - 5 * n);
    }
  }

  /** The id of weekday entry d n + k is built from its own coordinate. */
  lemma WeekdayIdOf(wSlots: seq<TimeSlot>, sSlots: seq<TimeSlot>, subjects: seq<Subject>,
                    teachers: seq<Teacher>, now: string, j: nat, d: nat, k: nat)
    requires |subjects| > 0
    requires d < 5 && k < |TeachingPeriods(wSlots)| && j == d * |TeachingPeriods(wSlots)| + k
    ensures j < |GeneratedEntries(wSlots, sSlots, subjects, teachers, now)|
    ensures var e := GeneratedEntries(wSlots, sSlots, subjects, teachers, now)[j];
      e.timetableId == EntryId(e.day, e.period)
  {
    GeneratedWeekdayIs(wSlots, sSlots, subjects, teachers, now, d, k);
  }

  /** The id of Saturday entry 5 n + i is built from its own coordinate. */
  lemma SaturdayIdOf(wSlots: seq<TimeSlot>, sSlots: seq<TimeSlot>, subjects: seq<Subject>,
                     teachers: seq<Teacher>, now: string, i: nat)
    requires |subjects| > 0
    requires i < |TeachingPeriods(sSlots)|
    ensures 5 * |TeachingPeriods(wSlots)| + i < |GeneratedEntries(wSlots, sSlots, subjects, teachers, now)|
    ensures var e := GeneratedEntries(wSlots, sSlots, subjects, teachers, now)[5 * |TeachingPeriods(wSlots)| + i];
      e.timetableId == EntryId(e.day, e.period)
  {
    GeneratedSaturdayIs(wSlots, sSlots, subjects, teachers, now, i);
  }

  /** When neither template repeats a teaching period number, the generated
      entries have pairwise distinct ids. */
  lemma GeneratedIdsUnique(wSlots: seq<TimeSlot>, sSlots: seq<TimeSlot>, subjects: seq<Subject>,
                           teachers: seq<Teacher>, now: string, i: nat, j: nat)
    requires |subjects| > 0
    requires NoDuplicates(TeachingPeriods(wSlots)) && NoDuplicates(TeachingPeriods(sSlots))
    requires i < j < |GeneratedEntries(wSlots, sSlots, subjects, teachers, now)|
    ensures GeneratedEntries(wSlots, sSlots, subjects, teachers, now)[i].timetableId !=
            GeneratedEntries(wSlots, sSlots, subjects, teachers, now)[j].timetableId
  {
    var es := GeneratedEntries(wSlots, sSlots, subjects, teachers, now);
    CoordinatesDiffer(wSlots, sSlots, subjects, teachers, now, i, j);
    GeneratedIdOf(wSlots, sSlots, subjects, teachers, now, i);
    GeneratedIdOf(wSlots, sSlots, subjects, teachers, now, j);
    if es[i].timetableId == es[j].timetableId {
      EntryIdInjective(es[i].day, es[i].period, es[j].day, es[j].period);
    }
  }

  /** Two positions of the generated list hold different (day, period)
      coordinates. */
  lemma CoordinatesDiffer(wSlots: seq<TimeSlot>, sSlots: seq<TimeSlot>, subjects: seq<Subject>,
                          teachers: seq<Teacher>, now: string, i: nat, j: nat)
    requires |subjects| > 0
    requires NoDuplicates(TeachingPeriods(wSlots)) && NoDuplicates(TeachingPeriods(sSlots))
    requires i < j < |GeneratedEntries(wSlots, sSlots, subjects, teachers, now)|
    ensures var es := GeneratedEntries(wSlots, sSlots, subjects, teachers, now);
      es[i].day != es[j].day || es[i].period != es[j].period
  {
    var n := |TeachingPeriods(wSlots)|;
    if j < 5 * n {
      WeekdayCoordinatesDiffer(wSlots, sSlots, subjects, teachers, now, i, j);
    } else if i >= 5 * n {
      SaturdayCoordinate(wSlots, sSlots, subjects, teachers, now, i);
      SaturdayCoordinate(wSlots, sSlots, subjects, teachers, now, j);
    } else {
      WeekdaySaturdayDiffer(wSlots, sSlots, subjects, teachers, now, i, j);
    }
  }

  lemma WeekdaySaturdayDiffer(wSlots: seq<TimeSlot>, sSlots: seq<TimeSlot>, subjects: seq<Subject>,
                              teachers: seq<Teacher>, now: string, i: nat, j: nat)
    requires |subjects| > 0
    requires i < 5 * |TeachingPeriods(wSlots)| <= j < |GeneratedEntries(wSlots, sSlots, subjects, teachers, now)|
    ensures var es := GeneratedEntries(wSlots, sSlots, subjects, teachers, now);
      es[i].day != es[j].day
  {
    var n := |TeachingPeriods(wSlots)|;
    RowColumn(i, n, 5);
    WeekdaysDistinct(i / n, 5);
    WeekdayCoordinate(wSlots, sSlots, subjects, teachers, now, i);
    SaturdayCoordinate(wSlots, sSlots, subjects, teachers, now, j);
  }

  lemma WeekdayCoordinatesDiffer(wSlots: seq<TimeSlot>, sSlots: seq<TimeSlot>, subjects: seq<Subject>,
                                 teachers: seq<Teacher>, now: string, i: nat, j: nat)
    requires |subjects| > 0
    requires NoDuplicates(TeachingPeriods(wSlots))
    requires i < j < 5 * |TeachingPeriods(wSlots)|
    ensures j < |GeneratedEntries(wSlots, sSlots, subjects, teachers, now)|
    ensures var es := GeneratedEntries(wSlots, sSlots, subjects, teachers, now);
      es[i].day != es[j].day || es[i].period != es[j].period
  {
    var n := |TeachingPeriods(wSlots)|;
    RowColumn(i, n, 5);
    RowColumn(j, n, 5);
    PositionsDiffer(TeachingPeriods(wSlots), i / n, i % n, j / n, j % n);
    WeekdayCoordinate(wSlots, sSlots, subjects, teachers, now, i);
    WeekdayCoordinate(wSlots, sSlots, subjects, teachers, now, j);
  }

  /** Two positions of a five-day block over distinct periods wp differ in
      their weekday or in their period. */
  lemma PositionsDiffer(wp: seq<int>, d1: nat, k1: nat, d2: nat, k2: nat)
    requires NoDuplicates(wp)
    requires d1 < 5 && d2 < 5 && k1 < |wp| && k2 < |wp|
    requires d1 * |wp| + k1 < d2 * |wp| + k2
    ensures WEEKDAYS[d1] != WEEKDAYS[d2] || wp[k1] != wp[k2]
  {
    if d1 == d2 {
      assert k1 < k2;
    } else {
      WeekdaysDistinct(d1, d2);
    }
  }

  // ---- regenerateTimetable (SchoolDataContext.tsx:103-118) ----

  /** regenerateTimetable: a fresh active draft over the current templates.
      `roll` is Math.floor(Math.random() * 10), `millis` is Date.now(), and
      the two ISO timestamps are the clock read by generateEntries and by
      the version itself. */
  method RegenerateTimetable(wSlots: seq<TimeSlot>, sSlots: seq<TimeSlot>, subjects: seq<Subject>,
                             teachers: seq<Teacher>, roll: int, millis: int,
                             entriesNow: string, versionNow: string)
    returns (v: TimetableVersion)
    requires |subjects| > 0
    requires 0 <= roll < 10
    ensures v.entries == GeneratedEntries(wSlots, sSlots, subjects, teachers, entriesNow)
    ensures v.score == roll + 88 && 88 <= v.score <= 97
    ensures v.versionId == "v" + IntToString(millis)
    ensures v.status == Draft && v.isActive
    ensures v.schoolId == "s1" && v.classId == "c1" && v.generatedAt == versionNow
  {
    var entries := GenerateEntries(wSlots, sSlots, subjects, teachers, entriesNow);
    var score := roll + 88;
    v := TimetableVersion("v" + IntToString(millis), "s1", "c1", versionNow, score, Draft, true, entries);
  }

  // ---- assignSubstitute (SchoolDataContext.tsx:120-129) ----

  /** The entries assignSubstitute rewrites: the absent teacher's lesson at
      the given day and period. */
  predicate Matches(e: TimetableEntry, absentTeacherId: string, day: Day, period: int) {
    e.teacherId == absentTeacherId && e.day == day && e.period == period
  }

  function SubstituteEntry(e: TimetableEntry, absentTeacherId: string, substituteTeacherId: string,
                           day: Day, period: int): TimetableEntry
  {
    if Matches(e, absentTeacherId, day, period) then e.(teacherId := substituteTeacherId) else e
  }

  /** assignSubstitute: the version with the matching entries handed to the
      substitute. Only teacherId may change, and only in matching entries;
      the list keeps its length and order, and the rest of the version is
      kept. */
  function AssignSubstitute(v: TimetableVersion, absentTeacherId: string, substituteTeacherId: string,
                            day: Day, period: int): (r: TimetableVersion)
    ensures r.(entries := v.entries) == v
    ensures |r.entries| == |v.entries|
    ensures forall i :: 0 <= i < |v.entries| ==>
      r.entries[i].(teacherId := v.entries[i].teacherId) == v.entries[i]
    ensures forall i :: 0 <= i < |v.entries| ==>
      r.entries[i].teacherId ==
        (if Matches(v.entries[i], absentTeacherId, day, period) then substituteTeacherId else v.entries[i].teacherId)
  {
    v.(entries := seq(|v.entries|, i requires 0 <= i < |v.entries| =>
      SubstituteEntry(v.entries[i], absentTeacherId, substituteTeacherId, day, period)))
  }

  /** Assigning the same substitute twice changes nothing more. */
  lemma AssignSubstituteIdempotent(v: TimetableVersion, absentTeacherId: string, substituteTeacherId: string,
                                   day: Day, period: int)
    ensures var once := AssignSubstitute(v, absentTeacherId, substituteTeacherId, day, period);
      AssignSubstitute(once, absentTeacherId, substituteTeacherId, day, period) == once
  {
    var once := AssignSubstitute(v, absentTeacherId, substituteTeacherId, day, period);
    var twice := AssignSubstitute(once, absentTeacherId, substituteTeacherId, day, period);
    assert twice.entries == once.entries by {
      forall i | 0 <= i < |once.entries|
        ensures twice.entries[i] == once.entries[i]
      {
        if Matches(once.entries[i], absentTeacherId, day, period) {
          assert Matches(v.entries[i], absentTeacherId, day, period) by {
            assert once.entries[i].(teacherId := v.entries[i].teacherId) == v.entries[i];
          }
        }
      }
    }
  }

  /** Handing the lesson back undoes the assignment, provided the substitute
      did not already teach at that day and period. */
  lemma AssignSubstituteUndo(v: TimetableVersion, absentTeacherId: string, substituteTeacherId: string,
                             day: Day, period: int)
    requires forall i :: 0 <= i < |v.entries| ==> !Matches(v.entries[i], substituteTeacherId, day, period)
    ensures var there := AssignSubstitute(v, absentTeacherId, substituteTeacherId, day, period);
      AssignSubstitute(there, substituteTeacherId, absentTeacherId, day, period) == v
  {
    var there := AssignSubstitute(v, absentTeacherId, substituteTeacherId, day, period);
    var back := AssignSubstitute(there, substituteTeacherId, absentTeacherId, day, period);
    assert back.entries == v.entries by {
      forall i | 0 <= i < |v.entries|
        ensures back.entries[i] == v.entries[i]
      {
        assert back.entries[i].(teacherId := v.entries[i].teacherId) == v.entries[i];
      }
    }
  }

  /** After the assignment the absent teacher has no lesson left at that day
      and period, unless the "substitute" is the absent teacher. */
  lemma AssignSubstituteClearsAbsent(v: TimetableVersion, absentTeacherId: string, substituteTeacherId: string,
                                     day: Day, period: int, i: nat)
    requires substituteTeacherId != absentTeacherId
    requires i < |v.entries|
    ensures var r := AssignSubstitute(v, absentTeacherId, substituteTeacherId, day, period);
      !Matches(r.entries[i], absentTeacherId, day, period)
  {
  }

  // ---- lockTimetable / unlockTimetable (SchoolDataContext.tsx:131-137) ----

  /** lockTimetable: only the status changes. */
  function LockTimetable(v: TimetableVersion): (r: TimetableVersion)
    ensures r.status == Locked
    ensures r.(status := v.status) == v
  {
    v.(status := Locked)
  }

  /** unlockTimetable: only the status changes, back to draft. */
  function UnlockTimetable(v: TimetableVersion): (r: TimetableVersion)
    ensures r.status == Draft
    ensures r.(status := v.status) == v
  {
    v.(status := Draft)
  }

  /** Unlocking a locked version gives the draft of the original version,
      whatever its status was, with entries, score and id untouched. */
  lemma UnlockAfterLock(v: TimetableVersion)
    ensures UnlockTimetable(LockTimetable(v)) == v.(status := Draft)
    ensures UnlockTimetable(LockTimetable(v)) == UnlockTimetable(v)
  {
  }

  lemma LockIdempotent(v: TimetableVersion)
    ensures LockTimetable(LockTimetable(v)) == LockTimetable(v)
    ensures LockTimetable(UnlockTimetable(v)) == LockTimetable(v)
  {
  }

  // ---- getTeacherWeeklyPeriods (SchoolDataContext.tsx:139-163) ----

  datatype BreakdownRow = BreakdownRow(className: string, subjectName: string, count: nat)

  datatype WeeklyPeriods = WeeklyPeriods(total: nat, breakdown: seq<BreakdownRow>)

  function TaughtBy(teacherId: string): TimetableEntry -> bool {
    (e: TimetableEntry) => e.teacherId == teacherId
  }

  /** `entries.filter(e => e.teacherId === teacherId)` */
  function TeacherEntries(entries: seq<TimetableEntry>, teacherId: string): seq<TimetableEntry> {
    Filter(entries, TaughtBy(teacherId))
  }

  /** How many entries name the teacher, counted one by one. */
  function CountTaught(entries: seq<TimetableEntry>, teacherId: string): nat {
    if entries == [] then 0
    else CountTaught(entries[..|entries| - 1], teacherId) + (if entries[|entries| - 1].teacherId == teacherId then 1 else 0)
  }

  lemma {:induction false} TeacherEntriesCount(entries: seq<TimetableEntry>, teacherId: string)
    ensures |TeacherEntries(entries, teacherId)| == CountTaught(entries, teacherId)
    decreases |entries|
  {
    if entries != [] {
      TeacherEntriesCount(entries[..|entries| - 1], teacherId);
    }
  }

  function ClassMatches(classId: string): ClassInfo -> bool {
    (c: ClassInfo) => c.classId == classId
  }

  /** `cls ? `${cls.grade}-${cls.section}` : 'Unknown'` for the first class
      with the id. */
  function ClassLabel(classes: seq<ClassInfo>, classId: string): (r: string)
    ensures (forall j :: 0 <= j < |classes| ==> classes[j].classId != classId) ==> r == "Unknown"
    ensures forall i :: 0 <= i < |classes| ==>
      (classes[i].classId == classId && (forall j :: 0 <= j < i ==> classes[j].classId != classId)) ==>
      r == classes[i].grade + "-" + classes[i].section
  {
    match Find(classes, ClassMatches(classId))
    case Some(i) => classes[i].grade + "-" + classes[i].section
    case None => "Unknown"
  }

  function SubjectMatches(subjectId: string): Subject -> bool {
    (s: Subject) => s.subjectId == subjectId
  }

  /** `subj?.subjectName || 'Unknown'`: an unknown subject and a subject with
      an empty name both read as Unknown. */
  function SubjectLabel(subjects: seq<Subject>, subjectId: string): (r: string)
    ensures r != ""
    ensures (forall j :: 0 <= j < |subjects| ==> subjects[j].subjectId != subjectId) ==> r == "Unknown"
    ensures forall i :: 0 <= i < |subjects| ==>
      (subjects[i].subjectId == subjectId && (forall j :: 0 <= j < i ==> subjects[j].subjectId != subjectId)) ==>
      r == (if subjects[i].subjectName == "" then "Unknown" else subjects[i].subjectName)
  {
    match Find(subjects, SubjectMatches(subjectId))
    case Some(i) => if subjects[i].subjectName == "" then "Unknown" else subjects[i].subjectName
    case None => "Unknown"
  }

  // The breakdown, for any way `key` of grouping entries.

  function HasKey<K(==)>(key: TimetableEntry -> K, k: K): TimetableEntry -> bool {
    (e: TimetableEntry) => key(e) == k
  }

  /** The distinct keys of the entries, in order of first appearance: the
      insertion order of a JavaScript Map. */
  function Keys<K(==)>(es: seq<TimetableEntry>, key: TimetableEntry -> K): (r: seq<K>)
    ensures NoDuplicates(r)
  {
    if es == [] then []
    else
      var ks := Keys(es[..|es| - 1], key);
      var k := key(es[|es| - 1]);
      if k in ks then ks else ks + [k]
  }

  /** A key is listed exactly when some entry has it. */
  lemma {:induction false} KeysMembership<K>(es: seq<TimetableEntry>, key: TimetableEntry -> K, k: K)
    ensures k in Keys(es, key) <==> exists i :: 0 <= i < |es| && key(es[i]) == k
    decreases |es|
  {
    if es != [] {
      var init := es[..|es| - 1];
      KeysMembership(init, key, k);
      assert forall i :: 0 <= i < |init| ==> init[i] == es[i];
      if exists i :: 0 <= i < |es| && key(es[i]) == k {
        var i :| 0 <= i < |es| && key(es[i]) == k;
        if i < |init| {
          assert key(init[i]) == k;
        }
      }
    }
  }

  /** How many entries have key k. */
  function Occurrences<K(==)>(es: seq<TimetableEntry>, key: TimetableEntry -> K, k: K): (n: nat)
    ensures n <= |es|
  {
    if es == [] then 0
    else Occurrences(es[..|es| - 1], key, k) + (if key(es[|es| - 1]) == k then 1 else 0)
  }

  /** A key occurs exactly when it is listed. */
  lemma {:induction false} OccurrencesPositive<K>(es: seq<TimetableEntry>, key: TimetableEntry -> K, k: K)
    ensures Occurrences(es, key, k) > 0 <==> k in Keys(es, key)
    decreases |es|
  {
    if es != [] {
      OccurrencesPositive(es[..|es| - 1], key, k);
    }
  }

  /** The record for key k: labels from the first entry with that key, and
      the number of entries with it. */
  function RowFor<K(==)>(es: seq<TimetableEntry>, key: TimetableEntry -> K, k: K,
                         classes: seq<ClassInfo>, subjects: seq<Subject>): BreakdownRow
  {
    match Find(es, HasKey(key, k))
    case Some(i) =>
      BreakdownRow(ClassLabel(classes, es[i].classId), SubjectLabel(subjects, es[i].subjectId), Occurrences(es, key, k))
    case None => BreakdownRow("Unknown", "Unknown", 0)
  }

  /** One record per distinct key, in first-appearance order. */
  function Breakdown<K(==)>(es: seq<TimetableEntry>, key: TimetableEntry -> K,
                            classes: seq<ClassInfo>, subjects: seq<Subject>): seq<BreakdownRow>
  {
    var ks := Keys(es, key);
    seq(|ks|, i requires 0 <= i < |ks| => RowFor(es, key, ks[i], classes, subjects))
  }

  /** The grouping by the pair (classId, subjectId). */
  function PairKey(e: TimetableEntry): (string, string) {
    (e.classId, e.subjectId)
  }

  /** Appending an entry adds one to its key's record, or opens a record
      labelled from that entry when the key is new. */
  lemma RowForAppend<K>(es: seq<TimetableEntry>, e: TimetableEntry, key: TimetableEntry -> K, k: K,
                            classes: seq<ClassInfo>, subjects: seq<Subject>)
    ensures var before := RowFor(es, key, k, classes, subjects);
      RowFor(es + [e], key, k, classes, subjects) ==
        if k in Keys(es, key) then before.(count := before.count + (if key(e) == k then 1 else 0))
        else if key(e) == k then BreakdownRow(ClassLabel(classes, e.classId), SubjectLabel(subjects, e.subjectId), 1)
        else before
  {
    var t := es + [e];
    assert t[..|t| - 1] == es;
    FindAppend(es, e, HasKey(key, k));
    KeysMembership(es, key, k);
    OccurrencesPositive(es, key, k);
    var found := Find(es, HasKey(key, k));
    assert found.Some? <==> k in Keys(es, key);
    if found.Some? {
      assert t[found.value] == es[found.value];
    } else {
      assert t[|es|] == e;
    }
  }

  /** A record's count is the number of entries with its key. */
  lemma RowForCount<K>(es: seq<TimetableEntry>, key: TimetableEntry -> K, k: K,
                       classes: seq<ClassInfo>, subjects: seq<Subject>)
    ensures RowFor(es, key, k, classes, subjects).count == Occurrences(es, key, k)
  {
    KeysMembership(es, key, k);
    OccurrencesPositive(es, key, k);
  }

  function SumCounts(rows: seq<BreakdownRow>): nat {
    if rows == [] then 0 else SumCounts(rows[..|rows| - 1]) + rows[|rows| - 1].count
  }

  function SumOccurrences<K(==)>(es: seq<TimetableEntry>, key: TimetableEntry -> K, ks: seq<K>): nat {
    if ks == [] then 0 else SumOccurrences(es, key, ks[..|ks| - 1]) + Occurrences(es, key, ks[|ks| - 1])
  }

  lemma {:induction false} SumCountsRows<K>(es: seq<TimetableEntry>, key: TimetableEntry -> K, ks: seq<K>,
                                            classes: seq<ClassInfo>, subjects: seq<Subject>)
    ensures SumCounts(seq(|ks|, i requires 0 <= i < |ks| => RowFor(es, key, ks[i], classes, subjects))) ==
      SumOccurrences(es, key, ks)
    decreases |ks|
  {
    if ks != [] {
      var rows := seq(|ks|, i requires 0 <= i < |ks| => RowFor(es, key, ks[i], classes, subjects));
      var init := ks[..|ks| - 1];
      assert rows[..|rows| - 1] == seq(|init|, i requires 0 <= i < |init| => RowFor(es, key, init[i], classes, subjects));
      SumCountsRows(es, key, init, classes, subjects);
      RowForCount(es, key, ks[|ks| - 1], classes, subjects);
    }
  }

  /** One more entry adds one to the total over a list of distinct keys
      exactly when its key is among them. */
  lemma {:induction false} SumOccurrencesAppend<K>(es: seq<TimetableEntry>, e: TimetableEntry,
                                                   key: TimetableEntry -> K, ks: seq<K>)
    requires NoDuplicates(ks)
    ensures SumOccurrences(es + [e], key, ks) == SumOccurrences(es, key, ks) + (if key(e) in ks then 1 else 0)
    decreases |ks|
  {
    var t := es + [e];
    assert t[..|t| - 1] == es;
    if ks != [] {
      var init := ks[..|ks| - 1];
      assert NoDuplicates(init);
      SumOccurrencesAppend(es, e, key, init);
      assert key(e) in ks <==> key(e) in init || key(e) == ks[|ks| - 1];
      assert ks[|ks| - 1] !in init;
    }
  }

  lemma {:induction false} SumOccurrencesKeys<K>(es: seq<TimetableEntry>, key: TimetableEntry -> K)
    ensures SumOccurrences(es, key, Keys(es, key)) == |es|
    decreases |es|
  {
    if es != [] {
      var init, e := es[..|es| - 1], es[|es| - 1];
      var ks := Keys(init, key);
      assert es == init + [e];
      SumOccurrencesKeys(init, key);
      SumOccurrencesAppend(init, e, key, ks);
      if key(e) !in ks {
        var ks' := ks + [key(e)];
        assert ks'[..|ks'| - 1] == ks;
        OccurrencesPositive(init, key, key(e));
        assert es[..|es| - 1] == init;
      }
    }
  }

  /** The breakdown counts add up to the number of entries grouped. */
  lemma BreakdownCountsSum<K>(es: seq<TimetableEntry>, key: TimetableEntry -> K,
                              classes: seq<ClassInfo>, subjects: seq<Subject>)
    ensures SumCounts(Breakdown(es, key, classes, subjects)) == |es|
  {
    SumCountsRows(es, key, Keys(es, key), classes, subjects);
    SumOccurrencesKeys(es, key);
  }

  /** Every record counts at least one entry, and there is one record per
      distinct key. */
  lemma BreakdownRowsPositive<K>(es: seq<TimetableEntry>, key: TimetableEntry -> K,
                                 classes: seq<ClassInfo>, subjects: seq<Subject>, i: nat)
    requires i < |Keys(es, key)|
    ensures |Breakdown(es, key, classes, subjects)| == |Keys(es, key)|
    ensures Breakdown(es, key, classes, subjects)[i].count >= 1
  {
    var k := Keys(es, key)[i];
    RowForCount(es, key, k, classes, subjects);
    OccurrencesPositive(es, key, k);
  }

  /** Grouped by (classId, subjectId), a record is labelled by its own class
      and subject. */
  lemma PairBreakdownLabels(es: seq<TimetableEntry>, classes: seq<ClassInfo>, subjects: seq<Subject>, i: nat)
    requires i < |Keys(es, PairKey)|
    ensures var k := Keys(es, PairKey)[i];
      && |Breakdown(es, PairKey, classes, subjects)| == |Keys(es, PairKey)|
      && Breakdown(es, PairKey, classes, subjects)[i] ==
         BreakdownRow(ClassLabel(classes, k.0), SubjectLabel(subjects, k.1), Occurrences(es, PairKey, k))
  {
    var k := Keys(es, PairKey)[i];
    KeysMembership(es, PairKey, k);
  }

  /** Keys are listed in the order of their first entry. */
  lemma {:induction false} KeysFirstAppearance<K>(es: seq<TimetableEntry>, key: TimetableEntry -> K, i: nat, j: nat)
    requires i < j < |Keys(es, key)|
    ensures Find(es, HasKey(key, Keys(es, key)[i])).Some?
    ensures Find(es, HasKey(key, Keys(es, key)[j])).Some?
    ensures Find(es, HasKey(key, Keys(es, key)[i])).value < Find(es, HasKey(key, Keys(es, key)[j])).value
    decreases |es|
  {
    var ks := Keys(es, key);
    var init, e := es[..|es| - 1], es[|es| - 1];
    var ks0 := Keys(init, key);
    assert es == init + [e];
    KeysMembership(es, key, ks[i]);
    KeysMembership(es, key, ks[j]);
    FindAppend(init, e, HasKey(key, ks[i]));
    FindAppend(init, e, HasKey(key, ks[j]));
    if j < |ks0| {
      KeysFirstAppearance(init, key, i, j);
    } else {
      KeysMembership(init, key, ks[i]);
      KeysMembership(init, key, ks[j]);
    }
  }

  /** The state of the counting loop after the entries es: `order` holds
      the keys seen so far, and `table` the record of each. */
  ghost predicate TableMatches(table: map<(string, string), BreakdownRow>, order: seq<(string, string)>,
                         es: seq<TimetableEntry>, classes: seq<ClassInfo>, subjects: seq<Subject>)
  {
    && order == Keys(es, PairKey)
    && (forall k :: k in table <==> k in order)
    && (forall k :: k in table ==> table[k] == RowFor(es, PairKey, k, classes, subjects))
  }

  /** One iteration of the counting loop keeps the table in step: a key
      seen before has its count raised by one. */
  lemma CountSeenStep(table: map<(string, string), BreakdownRow>, order: seq<(string, string)>,
                      es: seq<TimetableEntry>, e: TimetableEntry, classes: seq<ClassInfo>, subjects: seq<Subject>)
    requires TableMatches(table, order, es, classes, subjects)
    requires PairKey(e) in table
    ensures TableMatches(table[PairKey(e) := table[PairKey(e)].(count := table[PairKey(e)].count + 1)],
                         order, es + [e], classes, subjects)
  {
    var t := es + [e];
    assert t[..|t| - 1] == es;
    var updated := table[PairKey(e) := table[PairKey(e)].(count := table[PairKey(e)].count + 1)];
    forall k | k in updated
      ensures updated[k] == RowFor(es + [e], PairKey, k, classes, subjects)
    {
      RowForAppend(es, e, PairKey, k, classes, subjects);
    }
  }

  /** ... and a new key gets a record of its own, labelled from this entry. */
  lemma CountNewStep(table: map<(string, string), BreakdownRow>, order: seq<(string, string)>,
                     es: seq<TimetableEntry>, e: TimetableEntry, classes: seq<ClassInfo>, subjects: seq<Subject>)
    requires TableMatches(table, order, es, classes, subjects)
    requires PairKey(e) !in table
    ensures TableMatches(table[PairKey(e) := BreakdownRow(ClassLabel(classes, e.classId), SubjectLabel(subjects, e.subjectId), 1)],
                         order + [PairKey(e)], es + [e], classes, subjects)
  {
    var t := es + [e];
    assert t[..|t| - 1] == es;
    var updated := table[PairKey(e) := BreakdownRow(ClassLabel(classes, e.classId), SubjectLabel(subjects, e.subjectId), 1)];
    forall k | k in updated
      ensures updated[k] == RowFor(es + [e], PairKey, k, classes, subjects)
    {
      RowForAppend(es, e, PairKey, k, classes, subjects);
    }
  }

  /** Reading the table in key order gives the breakdown. */
  lemma TableBreakdown(table: map<(string, string), BreakdownRow>, order: seq<(string, string)>,
                       es: seq<TimetableEntry>, classes: seq<ClassInfo>, subjects: seq<Subject>)
    requires TableMatches(table, order, es, classes, subjects)
    ensures forall j :: 0 <= j < |order| ==> order[j] in table
    ensures seq(|order|, j requires 0 <= j < |order| && order[j] in table => table[order[j]]) ==
      Breakdown(es, PairKey, classes, subjects)
  {
  }

  /** getTeacherWeeklyPeriods: the teacher's entries, then one pass that
      counts them into a map keyed by (class, subject), remembering the
      order in which keys first appear. */
  method GetTeacherWeeklyPeriods(entries: seq<TimetableEntry>, classes: seq<ClassInfo>, subjects: seq<Subject>,
                                 teacherId: string)
    returns (r: WeeklyPeriods)
    ensures r.total == CountTaught(entries, teacherId)
    ensures r.breakdown == Breakdown(TeacherEntries(entries, teacherId), PairKey, classes, subjects)
    ensures SumCounts(r.breakdown) == r.total
  {
    var teacherEntries := TeacherEntries(entries, teacherId);
    var order: seq<(string, string)> := [];
    var table: map<(string, string), BreakdownRow> := map[];
    var i := 0;
    while i < |teacherEntries|
      invariant 0 <= i <= |teacherEntries|
      invariant TableMatches(table, order, teacherEntries[..i], classes, subjects)
    {
      var entry := teacherEntries[i];
      var key := PairKey(entry);
      assert teacherEntries[..i + 1] == teacherEntries[..i] + [entry];
      if key in table {
        CountSeenStep(table, order, teacherEntries[..i], entry, classes, subjects);
        table := table[key := table[key].(count := table[key].count + 1)];
      } else {
        CountNewStep(table, order, teacherEntries[..i], entry, classes, subjects);
        order := order + [key];
        table := table[key := BreakdownRow(ClassLabel(classes, entry.classId), SubjectLabel(subjects, entry.subjectId), 1)];
      }
      i := i + 1;
    }
    assert teacherEntries[..i] == teacherEntries;
    TeacherEntriesCount(entries, teacherId);
    TableBreakdown(table, order, teacherEntries, classes, subjects);
    BreakdownCountsSum(teacherEntries, PairKey, classes, subjects);
    r := WeeklyPeriods(|teacherEntries|, seq(|order|, j requires 0 <= j < |order| && order[j] in table => table[order[j]]));
  }

  // ---- the breakdown key as the source writes it ----

  /** The Map key of the source: the class id and the subject id joined by
      an underscore. */
  function StringKey(e: TimetableEntry): string {
    e.classId + "_" + e.subjectId
  }

  /** getTeacherWeeklyPeriods as written: grouped by the joined string. */
  function BreakdownAsWritten(es: seq<TimetableEntry>, classes: seq<ClassInfo>, subjects: seq<Subject>): seq<BreakdownRow> {
    Breakdown(es, StringKey, classes, subjects)
  }

  function LessonOf(classId: string, subjectId: string): TimetableEntry {
    TimetableEntry("tt", "s1", classId, Monday, 1, " - ", subjectId, "t1", "Room 1", Draft, None, "")
  }

  /** Class "a_b" with subject "c" and class "a" with subject "b_c" share the
      joined key "a_b_c": the joined key merges two (class, subject) pairs
      into one record counting both lessons, where the pair key keeps two. */
  lemma BreakdownKeyCollision()
    ensures var es := [LessonOf("a_b", "c"), LessonOf("a", "b_c")];
      && |BreakdownAsWritten(es, [], [])| == 1
      && BreakdownAsWritten(es, [], [])[0].count == 2
      && |Breakdown(es, PairKey, [], [])| == 2
  {
    var es := [LessonOf("a_b", "c"), LessonOf("a", "b_c")];
    assert es[..1] == [es[0]] && es[..2] == es;
    assert [es[0]][..0] == [];
    assert StringKey(es[0]) == StringKey(es[1]);
    assert PairKey(es[0]) != PairKey(es[1]);
    assert Keys(es, StringKey) == [StringKey(es[0])];
    assert Keys(es, PairKey) == [PairKey(es[0]), PairKey(es[1])];
    RowForCount(es, StringKey, StringKey(es[0]), [], []);
    assert Occurrences([es[0]], StringKey, StringKey(es[0])) == 1;
  }

  /** The joined key does tell pairs apart when class ids have no underscore. */
  lemma StringKeyInjective(e1: TimetableEntry, e2: TimetableEntry)
    requires '_' !in e1.classId && '_' !in e2.classId
    requires StringKey(e1) == StringKey(e2)
    ensures PairKey(e1) == PairKey(e2)
  {
    UnderscoreSplit(e1.classId, e1.subjectId, e2.classId, e2.subjectId);
  }

  /** The joined string of a (class, subject) pair. */
  function Joined(k: (string, string)): string {
    k.0 + "_" + k.1
  }

  function JoinedAll(ks: seq<(string, string)>): seq<string> {
    seq(|ks|, i requires 0 <= i < |ks| => Joined(ks[i]))
  }

  predicate NoUnderscoreClasses(es: seq<TimetableEntry>) {
    forall i :: 0 <= i < |es| ==> '_' !in es[i].classId
  }

  /** With underscore-free class ids, an entry has the joined key of a pair
      exactly when it has that pair. */
  lemma JoinedKeyMatches(e: TimetableEntry, k: (string, string))
    requires '_' !in e.classId && '_' !in k.0
    ensures StringKey(e) == Joined(k) <==> PairKey(e) == k
  {
    if StringKey(e) == Joined(k) {
      UnderscoreSplit(e.classId, e.subjectId, k.0, k.1);
    }
  }

  lemma {:induction false} FindJoined(es: seq<TimetableEntry>, k: (string, string))
    requires NoUnderscoreClasses(es) && '_' !in k.0
    ensures Find(es, HasKey(StringKey, Joined(k))) == Find(es, HasKey(PairKey, k))
    decreases |es|
  {
    if es != [] {
      JoinedKeyMatches(es[0], k);
      var rest := es[1..];
      assert NoUnderscoreClasses(rest) by {
        forall i | 0 <= i < |rest|
          ensures '_' !in rest[i].classId
        {
          assert rest[i] == es[i + 1];
        }
      }
      FindJoined(rest, k);
    }
  }

  lemma {:induction false} OccurrencesJoined(es: seq<TimetableEntry>, k: (string, string))
    requires NoUnderscoreClasses(es) && '_' !in k.0
    ensures Occurrences(es, StringKey, Joined(k)) == Occurrences(es, PairKey, k)
    decreases |es|
  {
    if es != [] {
      var init := es[..|es| - 1];
      assert NoUnderscoreClasses(init) by {
        forall i | 0 <= i < |init|
          ensures '_' !in init[i].classId
        {
          assert init[i] == es[i];
        }
      }
      OccurrencesJoined(init, k);
      JoinedKeyMatches(es[|es| - 1], k);
    }
  }

  /** The string keys are the joined pair keys, in the same order. */
  lemma {:induction false} KeysJoined(es: seq<TimetableEntry>)
    requires NoUnderscoreClasses(es)
    ensures Keys(es, StringKey) == JoinedAll(Keys(es, PairKey))
    ensures forall i :: 0 <= i < |Keys(es, PairKey)| ==> '_' !in Keys(es, PairKey)[i].0
    decreases |es|
  {
    if es != [] {
      var init, e := es[..|es| - 1], es[|es| - 1];
      assert NoUnderscoreClasses(init) by {
        forall i | 0 <= i < |init|
          ensures '_' !in init[i].classId
        {
          assert init[i] == es[i];
        }
      }
      KeysJoined(init);
      var ks := Keys(init, PairKey);
      assert StringKey(e) == Joined(PairKey(e));
      if PairKey(e) in ks {
        var i :| 0 <= i < |ks| && ks[i] == PairKey(e);
        assert JoinedAll(ks)[i] == StringKey(e);
      } else {
        if StringKey(e) in JoinedAll(ks) {
          var i :| 0 <= i < |ks| && JoinedAll(ks)[i] == StringKey(e);
          JoinedKeyMatches(e, ks[i]);
        }
        assert JoinedAll(ks + [PairKey(e)]) == JoinedAll(ks) + [StringKey(e)];
      }
    }
  }

  /** When no class id contains an underscore, the breakdown as written is
      the pair-keyed one: the joined key merges nothing. */
  lemma BreakdownAgreesWithoutUnderscore(es: seq<TimetableEntry>, classes: seq<ClassInfo>, subjects: seq<Subject>)
    requires NoUnderscoreClasses(es)
    ensures BreakdownAsWritten(es, classes, subjects) == Breakdown(es, PairKey, classes, subjects)
  {
    KeysJoined(es);
    var ks := Keys(es, PairKey);
    forall i | 0 <= i < |ks|
      ensures RowFor(es, StringKey, Joined(ks[i]), classes, subjects) == RowFor(es, PairKey, ks[i], classes, subjects)
    {
      FindJoined(es, ks[i]);
      OccurrencesJoined(es, ks[i]);
    }
  }
}
