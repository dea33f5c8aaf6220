/** The round-robin layout that both timetable generators share
    (src/data/mockData.ts:72-112 and src/context/SchoolDataContext.tsx:57-98):
    days are visited in order, and within a day the counter `si` starts at 0,
    so the k-th teaching period of every day gets subjects[k mod n]. What an
    entry looks like is left to an EntryBuilder supplied by each generator. */
module Rotation {
  import opened Basics
  import opened SchoolTypes

  /** Builds the entry for (day, period) once the rotation has picked the subject. */
  type EntryBuilder = (Day, int, Subject) -> TimetableEntry

  /** One day of the rotation: the entry for the k-th period uses subjects[k % n]. */
  function DayEntries(day: Day, periods: seq<int>, subjects: seq<Subject>, build: EntryBuilder): seq<TimetableEntry>
    requires |subjects| > 0
  {
    seq(|periods|, k requires 0 <= k < |periods| => build(day, periods[k], subjects[k % |subjects|]))
  }

  lemma DayEntriesAt(day: Day, periods: seq<int>, subjects: seq<Subject>, build: EntryBuilder, k: nat)
    requires |subjects| > 0 && k < |periods|
    ensures |DayEntries(day, periods, subjects, build)| == |periods|
    ensures DayEntries(day, periods, subjects, build)[k] == build(day, periods[k], subjects[k % |subjects|])
  {
  }

  /** The days one after the other, each with its own rotation restarted. */
  function WeekEntries(days: seq<Day>, periods: seq<int>, subjects: seq<Subject>, build: EntryBuilder): seq<TimetableEntry>
    requires |subjects| > 0
  {
    if days == [] then []
    else WeekEntries(days[..|days| - 1], periods, subjects, build) + DayEntries(days[|days| - 1], periods, subjects, build)
  }

  lemma {:induction false} WeekEntriesLength(days: seq<Day>, periods: seq<int>, subjects: seq<Subject>, build: EntryBuilder)
    requires |subjects| > 0
    ensures |WeekEntries(days, periods, subjects, build)| == |days| * |periods|
    decreases |days|
  {
    if days != [] {
      WeekEntriesLength(days[..|days| - 1], periods, subjects, build);
      assert |days| * |periods| == (|days| - 1) * |periods| + |periods|;
    }
  }

  /** The entry for day d and period k sits at d * |periods| + k, and carries
      the k-th period and the k-th subject of the rotation. */
  lemma {:induction false} WeekEntriesAt(days: seq<Day>, periods: seq<int>, subjects: seq<Subject>, build: EntryBuilder, d: nat, k: nat)
    requires |subjects| > 0
    requires d < |days| && k < |periods|
    ensures d * |periods| + k < |WeekEntries(days, periods, subjects, build)| == |days| * |periods|
    ensures WeekEntries(days, periods, subjects, build)[d * |periods| + k] == build(days[d], periods[k], subjects[k % |subjects|])
    decreases |days|
  {
    var n := |periods|;
    var init := days[..|days| - 1];
    WeekEntriesLength(days, periods, subjects, build);
    WeekEntriesLength(init, periods, subjects, build);
    if d < |days| - 1 {
      WeekEntriesAt(init, periods, subjects, build, d, k);
      assert init[d] == days[d];
    } else {
      assert d * n == |init| * n;
    }
    assert d * n + k < |days| * n by {
      assert d * n + n <= |days| * n;
    }
  }

  /** Every position j of the week block is day j / n at period j mod n. */
  lemma WeekEntriesCoordinate(days: seq<Day>, periods: seq<int>, subjects: seq<Subject>, build: EntryBuilder, j: nat)
    requires |subjects| > 0
    requires j < |days| * |periods|
    ensures |periods| > 0 && j / |periods| < |days| && j % |periods| < |periods|
    ensures j < |WeekEntries(days, periods, subjects, build)|
    ensures WeekEntries(days, periods, subjects, build)[j] ==
      build(days[j / |periods|], periods[j % |periods|], subjects[(j % |periods|) % |subjects|])
  {
    var n := |periods|;
    RowColumn(j, n, |days|);
    WeekEntriesAt(days, periods, subjects, build, j / n, j % n);
  }

  /** The inner forEach of a generator: pushes one day's entries, advancing
      the subject counter si once per period. */
  method PushDay(entries: seq<TimetableEntry>, day: Day, periods: seq<int>, subjects: seq<Subject>, build: EntryBuilder)
    returns (pushed: seq<TimetableEntry>)
    requires |subjects| > 0
    ensures pushed == entries + DayEntries(day, periods, subjects, build)
  {
    pushed := entries;
    var si := 0;
    while si < |periods|
      invariant 0 <= si <= |periods|
      invariant pushed == entries + DayEntries(day, periods[..si], subjects, build)
    {
      var subj := subjects[si % |subjects|];
      pushed := pushed + [build(day, periods[si], subj)];
      assert DayEntries(day, periods[..si + 1], subjects, build) ==
        DayEntries(day, periods[..si], subjects, build) + [build(day, periods[si], subj)];
      si := si + 1;
    }
    assert periods[..si] == periods;
  }

  /** The outer forEach over the days, restarting the counter for each day. */
  method PushWeek(entries: seq<TimetableEntry>, days: seq<Day>, periods: seq<int>, subjects: seq<Subject>, build: EntryBuilder)
    returns (pushed: seq<TimetableEntry>)
    requires |subjects| > 0
    ensures pushed == entries + WeekEntries(days, periods, subjects, build)
  {
    pushed := entries;
    var d := 0;
    while d < |days|
      invariant 0 <= d <= |days|
      invariant pushed == entries + WeekEntries(days[..d], periods, subjects, build)
    {
      pushed := PushDay(pushed, days[d], periods, subjects, build);
      assert days[..d + 1][..d] == days[..d];
      d := d + 1;
    }
    assert days[..d] == days;
  }
}
