/** The assign button of src/pages/SubstitutionPanel.tsx. The page finds the
    first lesson the absent teacher gives on the current weekday and hands
    that one (day, period) to assignSubstitute. The current weekday comes
    from the clock; here it is the parameter `today`, the weekday name the
    browser prints (which may be "Sunday"). */
module SubstitutionPanel {
  import opened Basics
  import opened SchoolTypes
  import opened SchoolData

  predicate TeachesToday(e: TimetableEntry, absentTeacherId: string, today: string) {
    e.teacherId == absentTeacherId && DayName(e.day) == today
  }

  function TodaysLesson(absentTeacherId: string, today: string): TimetableEntry -> bool {
    (e: TimetableEntry) => TeachesToday(e, absentTeacherId, today)
  }

  /** handleAssign: with a lesson of the absent teacher today, the version
      after assignSubstitute at the first such lesson's day and period;
      without one, the version as it was. */
  function HandleAssign(v: TimetableVersion, absentTeacherId: string, substituteId: string, today: string)
    : (r: TimetableVersion)
    ensures (forall j :: 0 <= j < |v.entries| ==> !TeachesToday(v.entries[j], absentTeacherId, today)) ==> r == v
  {
    match Find(v.entries, TodaysLesson(absentTeacherId, today))
    case Some(i) => AssignSubstitute(v, absentTeacherId, substituteId, v.entries[i].day, v.entries[i].period)
    case None => v
  }

  /** With a lesson today, the assignment is made at the first one. */
  lemma HandleAssignFirst(v: TimetableVersion, absentTeacherId: string, substituteId: string, today: string, i: nat)
    requires i < |v.entries|
    requires TeachesToday(v.entries[i], absentTeacherId, today)
    requires forall j :: 0 <= j < i ==> !TeachesToday(v.entries[j], absentTeacherId, today)
    ensures HandleAssign(v, absentTeacherId, substituteId, today) ==
      AssignSubstitute(v, absentTeacherId, substituteId, v.entries[i].day, v.entries[i].period)
  {
    FindFirst(v.entries, TodaysLesson(absentTeacherId, today), i);
  }

  /** Only one period is covered: after the assignment, the absent teacher
      keeps every lesson today that is in another period than the first. */
  lemma HandleAssignOnePeriod(v: TimetableVersion, absentTeacherId: string, substituteId: string, today: string,
                              i: nat, k: nat)
    requires i < |v.entries| && k < |v.entries|
    requires TeachesToday(v.entries[i], absentTeacherId, today)
    requires forall j :: 0 <= j < i ==> !TeachesToday(v.entries[j], absentTeacherId, today)
    requires v.entries[k].period != v.entries[i].period
    ensures HandleAssign(v, absentTeacherId, substituteId, today).entries[k] == v.entries[k]
  {
    HandleAssignFirst(v, absentTeacherId, substituteId, today, i);
    var r := HandleAssign(v, absentTeacherId, substituteId, today);
    assert r.entries[k].(teacherId := v.entries[k].teacherId) == v.entries[k];
  }

  /** ...and the first lesson today goes to the substitute. */
  lemma HandleAssignCoversFirst(v: TimetableVersion, absentTeacherId: string, substituteId: string, today: string,
                                i: nat)
    requires i < |v.entries|
    requires TeachesToday(v.entries[i], absentTeacherId, today)
    requires forall j :: 0 <= j < i ==> !TeachesToday(v.entries[j], absentTeacherId, today)
    ensures HandleAssign(v, absentTeacherId, substituteId, today).entries[i] ==
      v.entries[i].(teacherId := substituteId)
  {
    HandleAssignFirst(v, absentTeacherId, substituteId, today, i);
    var r := HandleAssign(v, absentTeacherId, substituteId, today);
    assert r.entries[i].(teacherId := v.entries[i].teacherId) == v.entries[i];
  }

  /** No lesson falls on a Sunday, so assigning on a Sunday changes nothing. */
  lemma HandleAssignOnSunday(v: TimetableVersion, absentTeacherId: string, substituteId: string)
    ensures HandleAssign(v, absentTeacherId, substituteId, "Sunday") == v
  {
    forall j | 0 <= j < |v.entries|
      ensures !TeachesToday(v.entries[j], absentTeacherId, "Sunday")
    {
      match v.entries[j].day
      case Monday =>
      case Tuesday =>
      case Wednesday =>
      case Thursday =>
      case Friday =>
      case Saturday =>
    }
  }
}
