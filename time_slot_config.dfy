/** The slot-template editor of src/pages/TimeSlotConfig.tsx: the page keeps
    a draft weekday list and a draft Saturday list, and every edit takes a
    'weekday' | 'saturday' argument choosing which one it rewrites. */
module TimeSlotConfig {
  import opened Basics
  import opened SchoolTypes
  import opened SchoolData

  datatype SlotKind = WeekdayKind | SaturdayKind

  /** The two draft lists of the page. */
  datatype Templates = Templates(weekday: seq<TimeSlot>, saturday: seq<TimeSlot>)

  /** The list an edit of this kind reads. */
  function SlotsOf(t: Templates, kind: SlotKind): seq<TimeSlot> {
    match kind
    case WeekdayKind => t.weekday
    case SaturdayKind => t.saturday
  }

  function Other(kind: SlotKind): SlotKind {
    match kind
    case WeekdayKind => SaturdayKind
    case SaturdayKind => WeekdayKind
  }

  /** The setter an edit of this kind calls: it replaces the selected list
      and leaves the other as it was. */
  function Store(t: Templates, kind: SlotKind, slots: seq<TimeSlot>): (r: Templates)
    ensures SlotsOf(r, kind) == slots
    ensures SlotsOf(r, Other(kind)) == SlotsOf(t, Other(kind))
    ensures slots == SlotsOf(t, kind) ==> r == t
  {
    match kind
    case WeekdayKind => t.(weekday := slots)
    case SaturdayKind => t.(saturday := slots)
  }

  // ---- addSlot (TimeSlotConfig.tsx:27-32) ----

  /** Math.max(...ps, 0) */
  function MaxOf(ps: seq<int>): (m: int)
    ensures m >= 0
    ensures forall i :: 0 <= i < |ps| ==> ps[i] <= m
    ensures m == 0 || m in ps
  {
    if ps == [] then 0
    else
      var m := MaxOf(ps[..|ps| - 1]);
      assert forall i :: 0 <= i < |ps| - 1 ==> ps[..|ps| - 1][i] == ps[i];
      if ps[|ps| - 1] > m then ps[|ps| - 1] else m
  }

  /** The largest teaching period number of the list, 0 when there is none. */
  function MaxPeriod(slots: seq<TimeSlot>): int {
    MaxOf(TeachingPeriods(slots))
  }

  /** The slot addSlot appends; isBreak and label are left unset. */
  function NewPeriodSlot(slots: seq<TimeSlot>): TimeSlot {
    TimeSlot(MaxPeriod(slots) + 1, "", "", false, None)
  }

  /** addSlot: one teaching slot more, numbered one past the largest
      teaching period, with empty times. */
  function AddSlot(t: Templates, kind: SlotKind): (r: Templates)
    ensures SlotsOf(r, kind) == SlotsOf(t, kind) + [NewPeriodSlot(SlotsOf(t, kind))]
    ensures SlotsOf(r, Other(kind)) == SlotsOf(t, Other(kind))
  {
    var slots := SlotsOf(t, kind);
    Store(t, kind, slots + [NewPeriodSlot(slots)])
  }

  /** The appended period is new: it is larger than every teaching period
      already there, at least 1, and becomes the last teaching period. */
  lemma AddSlotFresh(t: Templates, kind: SlotKind)
    ensures var before := TeachingPeriods(SlotsOf(t, kind));
      var p := NewPeriodSlot(SlotsOf(t, kind)).periodNumber;
      && p >= 1
      && (forall i :: 0 <= i < |before| ==> before[i] < p)
      && TeachingPeriods(SlotsOf(AddSlot(t, kind), kind)) == before + [p]
  {
    TeachingPeriodsAppend(SlotsOf(t, kind), NewPeriodSlot(SlotsOf(t, kind)));
  }

  // ---- addBreak (TimeSlotConfig.tsx:34-38) ----

  const BreakSlot: TimeSlot := TimeSlot(0, "", "", true, Some("Break"))

  /** addBreak: one break slot more, numbered 0 and labelled Break. */
  function AddBreak(t: Templates, kind: SlotKind): (r: Templates)
    ensures SlotsOf(r, kind) == SlotsOf(t, kind) + [BreakSlot]
    ensures SlotsOf(r, Other(kind)) == SlotsOf(t, Other(kind))
  {
    Store(t, kind, SlotsOf(t, kind) + [BreakSlot])
  }

  /** A break is not a teaching period: the periods are as before. */
  lemma AddBreakKeepsPeriods(t: Templates, kind: SlotKind)
    ensures TeachingPeriods(SlotsOf(AddBreak(t, kind), kind)) == TeachingPeriods(SlotsOf(t, kind))
  {
    TeachingPeriodsAppend(SlotsOf(t, kind), BreakSlot);
  }

  // ---- removeSlot (TimeSlotConfig.tsx:40-44) ----

  /** `slots.filter((_, i) => i !== index)` */
  function DropIndex(slots: seq<TimeSlot>, index: int): (r: seq<TimeSlot>)
    ensures 0 <= index < |slots| ==> r == slots[..index] + slots[index + 1..]
    ensures !(0 <= index < |slots|) ==> r == slots
  {
    if slots == [] then []
    else
      var n := |slots| - 1;
      var init := DropIndex(slots[..n], index);
      assert slots[..n][..n] == slots[..n];
      assert 0 <= index < n ==>
        slots[..n][..index] == slots[..index] && slots[..n][index + 1..] + [slots[n]] == slots[index + 1..];
      init + (if n == index then [] else [slots[n]])
  }

  /** removeSlot: the slot at the index is gone and the others keep their
      order; an index outside the list changes nothing. */
  function RemoveSlot(t: Templates, kind: SlotKind, index: int): (r: Templates)
    ensures var slots := SlotsOf(t, kind);
      && (0 <= index < |slots| ==> SlotsOf(r, kind) == slots[..index] + slots[index + 1..])
      && (!(0 <= index < |slots|) ==> r == t)
    ensures SlotsOf(r, Other(kind)) == SlotsOf(t, Other(kind))
  {
    Store(t, kind, DropIndex(SlotsOf(t, kind), index))
  }

  lemma TeachingPeriodsConcat(a: seq<TimeSlot>, b: seq<TimeSlot>)
    ensures TeachingPeriods(a + b) == TeachingPeriods(a) + TeachingPeriods(b)
  {
    FilterAppend(a, b, IsTeaching);
  }

  /** Removing a slot keeps the teaching periods increasing. */
  lemma RemoveSlotKeepsIncreasing(t: Templates, kind: SlotKind, index: int)
    requires StrictlyIncreasing(TeachingPeriods(SlotsOf(t, kind)))
    ensures StrictlyIncreasing(TeachingPeriods(SlotsOf(RemoveSlot(t, kind, index), kind)))
  {
    var slots := SlotsOf(t, kind);
    if 0 <= index < |slots| {
      var x, m, y := slots[..index], [slots[index]], slots[index + 1..];
      assert slots == x + m + y;
      TeachingPeriodsConcat(x + m, y);
      TeachingPeriodsConcat(x, m);
      TeachingPeriodsConcat(x, y);
      IncreasingWithout(TeachingPeriods(x), TeachingPeriods(m), TeachingPeriods(y));
    }
  }

  /** Leaving out a middle part of an increasing sequence keeps it increasing. */
  lemma IncreasingWithout(px: seq<int>, pm: seq<int>, py: seq<int>)
    requires StrictlyIncreasing(px + pm + py)
    ensures StrictlyIncreasing(px + py)
  {
    var whole := px + pm + py;
    forall i, j | 0 <= i < j < |px + py|
      ensures (px + py)[i] < (px + py)[j]
    {
      var i' := if i < |px| then i else i + |pm|;
      var j' := if j < |px| then j else j + |pm|;
      assert (px + py)[i] == whole[i'] && (px + py)[j] == whole[j'];
    }
  }

  // ---- updateSlot (TimeSlotConfig.tsx:46-51) ----

  /** The fields the editor writes: the label input and the two time inputs. */
  datatype SlotField = StartTime | EndTime | Label

  function SetField(s: TimeSlot, field: SlotField, value: string): TimeSlot {
    match field
    case StartTime => s.(startTime := value)
    case EndTime => s.(endTime := value)
    case Label => s.(labelText := Some(value))
  }

  /** updateSlot: copies the selected list into a fresh array, writes the
      field of the slot at the index, and stores the copy. The source throws
      a TypeError for an index with no slot; that is None here. */
  method UpdateSlot(t: Templates, kind: SlotKind, index: int, field: SlotField, value: string)
    returns (r: Option<Templates>)
    ensures var slots := SlotsOf(t, kind);
      && (!(0 <= index < |slots|) <==> r.None?)
      && (r.Some? ==>
            && |SlotsOf(r.value, kind)| == |slots|
            && SlotsOf(r.value, kind)[index] == SetField(slots[index], field, value)
            && (forall i :: 0 <= i < |slots| && i != index ==> SlotsOf(r.value, kind)[i] == slots[i])
            && SlotsOf(r.value, Other(kind)) == SlotsOf(t, Other(kind)))
  {
    var slots := SlotsOf(t, kind);
    if !(0 <= index < |slots|) {
      return None;
    }
    var copy := new TimeSlot[|slots|](i requires 0 <= i < |slots| => slots[i]);
    copy[index] := SetField(copy[index], field, value);
    r := Some(Store(t, kind, copy[..]));
  }

  /** Writing a time or a label leaves the number and kind of every slot
      alone, so the teaching periods are unchanged. */
  lemma UpdateSlotKeepsPeriods(slots: seq<TimeSlot>, updated: seq<TimeSlot>, index: int, field: SlotField, value: string)
    requires 0 <= index < |slots| == |updated|
    requires updated[index] == SetField(slots[index], field, value)
    requires forall i :: 0 <= i < |slots| && i != index ==> updated[i] == slots[i]
    ensures TeachingPeriods(updated) == TeachingPeriods(slots)
  {
    TeachingPeriodsAgree(updated, slots);
  }

  /** addSlot keeps the teaching periods strictly increasing. */
  lemma AddSlotKeepsIncreasing(t: Templates, kind: SlotKind)
    requires StrictlyIncreasing(TeachingPeriods(SlotsOf(t, kind)))
    ensures StrictlyIncreasing(TeachingPeriods(SlotsOf(AddSlot(t, kind), kind)))
  {
    AddSlotFresh(t, kind);
  }

  /** Strictly increasing periods are in particular pairwise distinct, which
      is what makes generated entry ids unique. */
  lemma IncreasingHasNoDuplicates(ps: seq<int>)
    requires StrictlyIncreasing(ps)
    ensures NoDuplicates(ps)
  {
  }

  /** Templates kept strictly increasing, as the seed templates are
      (MockData.SeedTemplatesIncreasing) and as adding a period, adding a
      break, editing and removing keep them, generate drafts whose entry ids
      are pairwise distinct. */
  lemma IncreasingTemplatesGiveUniqueIds(t: Templates, subjects: seq<Subject>, teachers: seq<Teacher>,
                                         now: string, i: nat, j: nat)
    requires |subjects| > 0
    requires StrictlyIncreasing(TeachingPeriods(t.weekday)) && StrictlyIncreasing(TeachingPeriods(t.saturday))
    requires i < j < |GeneratedEntries(t.weekday, t.saturday, subjects, teachers, now)|
    ensures GeneratedEntries(t.weekday, t.saturday, subjects, teachers, now)[i].timetableId !=
            GeneratedEntries(t.weekday, t.saturday, subjects, teachers, now)[j].timetableId
  {
    IncreasingHasNoDuplicates(TeachingPeriods(t.weekday));
    IncreasingHasNoDuplicates(TeachingPeriods(t.saturday));
    GeneratedIdsUnique(t.weekday, t.saturday, subjects, teachers, now, i, j);
  }
}
