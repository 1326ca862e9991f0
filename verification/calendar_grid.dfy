/** The month grid: the Monday-first weeks covering the anchor month, and for each cell the
    interventions starting that day split into a morning and an afternoon slot. */
module CalendarGrid {
  import opened Wrappers
  import opened CivilCalendar
  import opened Records
  import LocalTime
  import Sequences
  import Palette

  // ---------------------------------------------------------------- the weeks

  function FirstOfMonth(anchor: Day): Day {
    Date(anchor.year, anchor.month, 1)
  }

  function LastOfMonth(anchor: Day): (r: Day)
    ensures DayNumber(r) == DayNumber(FirstOfMonth(anchor)) + DaysInMonth(anchor.year, anchor.month) - 1
  {
    Date(anchor.year, anchor.month, DaysInMonth(anchor.year, anchor.month))
  }

  /** `startingDayOfWeek`: how many days the first of the month lies after the Monday of its
      week (getDay() 0, Sunday, counts as 6). */
  function MondayOffset(d: Day): (k: int)
    ensures 0 <= k < 7
    ensures k == 6 <==> Weekday(d) == 0
  {
    var w := Weekday(d);
    if w == 0 then 6 else w - 1
  }

  /** Stepping back by the Monday offset from a day number lands on a Monday. */
  lemma MondayArithmetic(n: int)
    ensures var w := (n + 4) % 7;
            var k := if w == 0 then 6 else w - 1;
            (n - k + 4) % 7 == 1
  {
  }

  /** A run of whole weeks starting on a Monday ends on a Sunday. */
  lemma {:induction false} SundayArithmetic(n: int, weeks: nat)
    requires (n + 4) % 7 == 1 && weeks > 0
    ensures (n + 7 * weeks - 1 + 4) % 7 == 0
    decreases weeks
  {
    if weeks > 1 {
      SundayArithmetic(n, weeks - 1);
    }
  }

  /** The first cell: the Monday on or before the first of the anchor month. */
  function GridStart(anchor: Day): (r: Day)
    ensures Weekday(r) == 1
    ensures DayNumber(r) == DayNumber(FirstOfMonth(anchor)) - MondayOffset(FirstOfMonth(anchor))
  {
    var first := FirstOfMonth(anchor);
    MondayArithmetic(DayNumber(first));
    SubDays(first, MondayOffset(first))
  }

  /** The date of the grid's cell `i`. */
  function CellDate(anchor: Day, i: nat): (d: Day)
    ensures DayNumber(d) == DayNumber(GridStart(anchor)) + i
  {
    AddDays(GridStart(anchor), i)
  }

  /** `getCalendarDays`: whole weeks from `GridStart`, stopping after the first week whose last
      day is on or after the last day of the month, and after six weeks at the latest. A
      JavaScript `Date` is a point on the time line, so the cells are returned as day numbers;
      `CellDate` gives their calendar fields. */
  method CalendarDays(anchor: Day) returns (days: seq<int>)
    ensures |days| % 7 == 0 && 28 <= |days| <= 42
    ensures forall i :: 0 <= i < |days| ==> days[i] == DayNumber(CellDate(anchor, i))
    ensures days[|days| - 1] >= DayNumber(LastOfMonth(anchor))
    ensures |days| > 7 ==> days[|days| - 8] < DayNumber(LastOfMonth(anchor))
    ensures (days[0] + 4) % 7 == 1 && (days[|days| - 1] + 4) % 7 == 0
  {
    SixWeeksSuffice(anchor);
    days := WeeksUntil(DayNumber(GridStart(anchor)), DayNumber(LastOfMonth(anchor)),
                       MondayOffset(FirstOfMonth(anchor)) + DaysInMonth(anchor.year, anchor.month));
  }

  /** The loop of `getCalendarDays` on the time line: weeks of consecutive days from the Monday
      `start` until one covers `last`, at most six. */
  method WeeksUntil(start: int, last: int, ghost span: int) returns (days: seq<int>)
    requires 28 <= span <= 37 && last == start + span - 1 && (start + 4) % 7 == 1
    ensures |days| % 7 == 0 && 28 <= |days| <= 42
    ensures forall i :: 0 <= i < |days| ==> days[i] == start + i
    ensures days[|days| - 1] >= last
    ensures |days| > 7 ==> days[|days| - 8] < last
    ensures (days[|days| - 1] + 4) % 7 == 0
  {
    var current := start;
    days := [];
    var weekCount := 0;
    while true
      invariant 0 <= weekCount < 6
      invariant |days| == 7 * weekCount
      invariant 7 * weekCount < span
      invariant current == start + |days|
      invariant forall k :: 0 <= k < |days| ==> days[k] == start + k
      decreases 6 - weekCount
    {
      for i := 0 to 7
        invariant |days| == 7 * weekCount + i
        invariant current == start + |days|
        invariant forall k :: 0 <= k < |days| ==> days[k] == start + k
      {
        days := days + [current];
        current := current + 1;
      }
      weekCount := weekCount + 1;
      if days[|days| - 1] >= last {
        break;
      }
      if weekCount >= 6 {
        break;
      }
    }
    SundayArithmetic(start, weekCount);
  }

  /** The days from the grid's Monday to the month's last day number between 28 and 37, so four
      to six weeks reach it and the six-week cap never decides. */
  lemma SixWeeksSuffice(anchor: Day)
    ensures 28 <= MondayOffset(FirstOfMonth(anchor)) + DaysInMonth(anchor.year, anchor.month) <= 37
    ensures DayNumber(LastOfMonth(anchor)) == DayNumber(GridStart(anchor))
              + MondayOffset(FirstOfMonth(anchor)) + DaysInMonth(anchor.year, anchor.month) - 1
  {
  }

  /** The month before and after the anchor's. */
  function PrevMonth(anchor: Day): (r: (int, int))
    ensures 1 <= r.1 <= 12 && r.1 != anchor.month
  {
    if anchor.month == 1 then (anchor.year - 1, 12) else (anchor.year, anchor.month - 1)
  }

  function NextMonth(anchor: Day): (r: (int, int))
    ensures 1 <= r.1 <= 12 && r.1 != anchor.month
  {
    if anchor.month == 12 then (anchor.year + 1, 1) else (anchor.year, anchor.month + 1)
  }

  /** The grid's cell `i`: the tail of the previous month, then the anchor month day by day, then
      the head of the next month. */
  lemma GridCellDate(anchor: Day, i: nat)
    requires i < 42
    ensures var k := MondayOffset(FirstOfMonth(anchor));
            var n := DaysInMonth(anchor.year, anchor.month);
            var (py, pm) := PrevMonth(anchor);
            var (ny, nm) := NextMonth(anchor);
            var cell := CellDate(anchor, i);
            && (i < k ==> cell == Date(py, pm, DaysInMonth(py, pm) - k + i + 1))
            && (k <= i < k + n ==> cell == Date(anchor.year, anchor.month, i - k + 1))
            && (k + n <= i ==> cell == Date(ny, nm, i - k - n + 1))
  {
    var k := MondayOffset(FirstOfMonth(anchor));
    var n := DaysInMonth(anchor.year, anchor.month);
    var (py, pm) := PrevMonth(anchor);
    var (ny, nm) := NextMonth(anchor);
    var cell := CellDate(anchor, i);
    var first := FirstOfMonth(anchor);
    if i < k {
      var lastPrev := Date(py, pm, DaysInMonth(py, pm));
      assert NextDay(lastPrev) == first;
      var target := Date(py, pm, DaysInMonth(py, pm) - k + i + 1);
      assert DayNumber(target) == DayNumber(lastPrev) - (k - i - 1);
      DayNumberInjective(cell, target);
    } else if i < k + n {
      DayNumberInjective(cell, Date(anchor.year, anchor.month, i - k + 1));
    } else {
      var lastDay := LastOfMonth(anchor);
      assert NextDay(lastDay) == Date(ny, nm, 1);
      var target := Date(ny, nm, i - k - n + 1);
      assert DayNumber(target) == DayNumber(Date(ny, nm, 1)) + (i - k - n);
      DayNumberInjective(cell, target);
    }
  }

  /** `isOutsideMonth` compares only the month index, yet on the grid it is exactly "not in the
      anchor's year and month": the grid never reaches the same month of another year. */
  predicate IsOutsideMonth(cell: Date, anchor: Date)
    ensures IsOutsideMonth(cell, anchor) ==> !(cell.year == anchor.year && cell.month == anchor.month)
  {
    cell.month != anchor.month
  }

  lemma OutsideMonthIsExact(anchor: Day, i: nat)
    requires i < 42
    ensures var cell := CellDate(anchor, i);
            IsOutsideMonth(cell, anchor) <==> !(cell.year == anchor.year && cell.month == anchor.month)
  {
    GridCellDate(anchor, i);
  }

  /** Every day of the anchor month appears in the grid exactly once: at position offset + day - 1
      and nowhere else. */
  lemma MonthCoveredOnce(anchor: Day, i: nat)
    requires i < 42
    ensures var cell := CellDate(anchor, i);
            && (cell.year == anchor.year && cell.month == anchor.month
                <==> MondayOffset(FirstOfMonth(anchor)) <= i < MondayOffset(FirstOfMonth(anchor)) + DaysInMonth(anchor.year, anchor.month))
            && (cell.year == anchor.year && cell.month == anchor.month
                ==> i == MondayOffset(FirstOfMonth(anchor)) + cell.day - 1)
  {
    GridCellDate(anchor, i);
  }

  /** 2024-02-01 is a Thursday: its grid runs from Monday 2024-01-29 to Sunday 2024-03-03,
      five weeks that include the leap day. */
  lemma February2024Grid()
    ensures var anchor := Date(2024, 2, 1);
            && MondayOffset(FirstOfMonth(anchor)) == 3
            && GridStart(anchor) == Date(2024, 1, 29)
            && CellDate(anchor, 34) == Date(2024, 3, 3)
            && CellDate(anchor, 31) == Date(2024, 2, 29)
  {
    var anchor := Date(2024, 2, 1);
    assert LeapsUpTo(2023) == 490 && LeapsUpTo(1969) == 477;
    assert DaysBeforeYear(2024) == 19723;
    assert DayNumber(anchor) == 19754;
    assert Weekday(anchor) == 4;
    assert DayNumber(GridStart(anchor)) == 19751;
    assert DayNumber(Date(2024, 1, 29)) == 19751;
    DayNumberInjective(GridStart(anchor), Date(2024, 1, 29));
    assert DayNumber(Date(2024, 3, 3)) == 19785;
    DayNumberInjective(CellDate(anchor, 34), Date(2024, 3, 3));
    assert DayNumber(Date(2024, 2, 29)) == 19782;
    DayNumberInjective(CellDate(anchor, 31), Date(2024, 2, 29));
  }

  // ---------------------------------------------------------------- the cells

  /** The interventions of a cell: those starting on the cell's year, month and day. */
  function DayInterventions(list: seq<Intervention>, cell: Date): (r: seq<Intervention>)
    ensures forall k :: 0 <= k < |r| ==> r[k] in list && r[k].start.date == cell
    ensures forall k :: 0 <= k < |list| && list[k].start.date == cell ==> list[k] in r
  {
    Sequences.Filter(list, (i: Intervention) => i.start.date == cell)
  }

  /** The morning slot: the cell's interventions whose local start hour is before 12. */
  function AmInterventions(list: seq<Intervention>, cell: Date): (r: seq<Intervention>)
    ensures forall i :: i in r <==> i in list && i.start.date == cell && i.start.hour < 12
  {
    var day := DayInterventions(list, cell);
    assert forall i :: i in list && i.start.date == cell ==> i in day;
    Sequences.Filter(day, (i: Intervention) => i.start.hour < 12)
  }

  /** The afternoon slot: the cell's interventions whose local start hour is 12 or later. */
  function PmInterventions(list: seq<Intervention>, cell: Date): (r: seq<Intervention>)
    ensures forall i :: i in r <==> i in list && i.start.date == cell && i.start.hour >= 12
  {
    var day := DayInterventions(list, cell);
    assert forall i :: i in list && i.start.date == cell ==> i in day;
    Sequences.Filter(day, (i: Intervention) => i.start.hour >= 12)
  }

  /** The two slots partition the cell: each of the cell's interventions lands in exactly one
      of them, as many times as it occurs, and each slot keeps the list order. */
  lemma SlotsPartitionCell(list: seq<Intervention>, cell: Date, x: Intervention)
    ensures multiset(AmInterventions(list, cell))[x] + multiset(PmInterventions(list, cell))[x]
            == multiset(DayInterventions(list, cell))[x]
    ensures x in AmInterventions(list, cell) ==> x !in PmInterventions(list, cell)
    ensures x in AmInterventions(list, cell) <==> x in list && x.start.date == cell && x.start.hour < 12
    ensures x in PmInterventions(list, cell) <==> x in list && x.start.date == cell && x.start.hour >= 12
    ensures Sequences.SubsequenceOf(AmInterventions(list, cell), DayInterventions(list, cell))
    ensures Sequences.SubsequenceOf(PmInterventions(list, cell), DayInterventions(list, cell))
  {
    var day := DayInterventions(list, cell);
    Sequences.FilterMultiset(day, (i: Intervention) => i.start.hour < 12, x);
    Sequences.FilterMultiset(day, (i: Intervention) => i.start.hour >= 12, x);
    Sequences.FilterIsSubsequence(day, (i: Intervention) => i.start.hour < 12);
    Sequences.FilterIsSubsequence(day, (i: Intervention) => i.start.hour >= 12);
    if x in list && x.start.date == cell {
      var k :| 0 <= k < |list| && list[k] == x;
    }
  }

  // ---------------------------------------------------------------- the slot entries

  /** `collaborateurs.findIndex(c => c.id === id)`, as an option. */
  function FindCollaborator(collabs: seq<Collaborateur>, id: string): (r: Option<nat>)
    ensures r.Some? ==> r.value < |collabs| && collabs[r.value].id == id
    ensures r.Some? ==> forall j :: 0 <= j < r.value ==> collabs[j].id != id
    ensures r.None? ==> forall j :: 0 <= j < |collabs| ==> collabs[j].id != id
    decreases |collabs|
  {
    if collabs == [] then None
    else if collabs[0].id == id then Some(0)
    else
      match FindCollaborator(collabs[1..], id)
      case None => None
      case Some(j) => Some(j + 1)
  }

  /** A rendered entry: the intervention, its worker and the worker's colour. */
  datatype Entry = Entry(intervention: Intervention, collaborateur: Collaborateur, colorIndex: nat)

  /** The interventions the entries show, in order. */
  function EntryInterventions(entries: seq<Entry>): (r: seq<Intervention>)
    ensures |r| == |entries|
    decreases |entries|
  {
    if entries == [] then [] else [entries[0].intervention] + EntryInterventions(entries[1..])
  }

  predicate Resolves(collabs: seq<Collaborateur>, i: Intervention) {
    FindCollaborator(collabs, i.collaborateurId).Some?
  }

  /** `DroppableSlot`'s list: one entry per intervention whose worker is found, in order;
      interventions with an unknown worker are skipped. */
  function SlotEntries(bucket: seq<Intervention>, collabs: seq<Collaborateur>): (r: seq<Entry>)
    ensures EntryInterventions(r) == Sequences.Filter(bucket, (i: Intervention) => Resolves(collabs, i))
    ensures forall k :: 0 <= k < |r| ==>
              && r[k].intervention in bucket
              && r[k].collaborateur in collabs
              && r[k].collaborateur.id == r[k].intervention.collaborateurId
              && r[k].colorIndex < Palette.Size
    decreases |bucket|
  {
    if bucket == [] then []
    else
      var rest := SlotEntries(bucket[1..], collabs);
      var i := bucket[0];
      match FindCollaborator(collabs, i.collaborateurId)
      case None => rest
      case Some(j) => [Entry(i, collabs[j], Palette.ColorIndex(j))] + rest
  }

  /** The grid colours a worker's entries like the sidebar colours the worker: by the position of
      the worker (its first occurrence) in the worker list. */
  lemma {:induction false} EntryColorMatchesSidebar(bucket: seq<Intervention>, collabs: seq<Collaborateur>, e: Entry)
    requires e in SlotEntries(bucket, collabs)
    ensures exists j :: 0 <= j < |collabs| && collabs[j] == e.collaborateur
                        && FindCollaborator(collabs, e.intervention.collaborateurId) == Some(j)
                        && e.colorIndex == Palette.ColorIndex(j)
    decreases |bucket|
  {
    var i := bucket[0];
    if e in SlotEntries(bucket[1..], collabs) {
      EntryColorMatchesSidebar(bucket[1..], collabs, e);
    } else {
      var j := FindCollaborator(collabs, i.collaborateurId).value;
      assert e == Entry(i, collabs[j], Palette.ColorIndex(j));
    }
  }

  /** Entry `k` shows the `k`-th of the entries' interventions. */
  lemma {:induction false} EntryAt(entries: seq<Entry>, k: nat)
    requires k < |entries|
    ensures EntryInterventions(entries)[k] == entries[k].intervention
    decreases k
  {
    if k > 0 {
      EntryAt(entries[1..], k - 1);
    }
  }

  /** Every intervention of a slot whose worker is found gets an entry. */
  lemma SlotEntriesComplete(bucket: seq<Intervention>, collabs: seq<Collaborateur>)
    ensures forall i :: i in bucket && Resolves(collabs, i) ==>
              exists e :: e in SlotEntries(bucket, collabs) && e.intervention == i
  {
    var r := SlotEntries(bucket, collabs);
    forall i | i in bucket && Resolves(collabs, i)
      ensures exists e :: e in r && e.intervention == i
    {
      var kept := Sequences.Filter(bucket, (x: Intervention) => Resolves(collabs, x));
      var j :| 0 <= j < |bucket| && bucket[j] == i;
      assert i in kept;
      var k :| 0 <= k < |kept| && kept[k] == i;
      EntryAt(r, k);
      assert r[k] in r;
    }
  }

  /** Saturday or Sunday (`getDay()` 6 or 0). */
  predicate IsWeekend(d: Day) {
    Weekday(d) == 0 || Weekday(d) == 6
  }

  /** A weekend is two days long: a Saturday is followed by a Sunday and then by a weekday. */
  lemma WeekendIsTwoDays(d: Day)
    requires Weekday(d) == 6
    ensures IsWeekend(d) && IsWeekend(NextDay(d)) && !IsWeekend(NextDay(NextDay(d)))
  {
    WeekdayOfNextDay(d);
    var e := NextDay(d);
    assert Weekday(e) == 0;
    WeekdayOfNextDay(e);
    assert Weekday(NextDay(e)) == 1;
  }

  lemma ColumnArithmetic(n: int, i: nat)
    requires (n + 4) % 7 == 1
    ensures (n + i + 4) % 7 == (i + 1) % 7
    ensures (i + 1) % 7 == 0 || (i + 1) % 7 == 6 <==> i % 7 >= 5
  {
  }

  /** Column `i % 7` of the grid sits under the header "Lun" ... "Dim": cell `i` falls on
      weekday `(i + 1) % 7`, so the weekend cells are exactly the last two columns. */
  lemma WeekdayOfCell(anchor: Day, i: nat)
    ensures Weekday(CellDate(anchor, i)) == (i + 1) % 7
    ensures IsWeekend(CellDate(anchor, i)) <==> i % 7 >= 5
  {
    var start := GridStart(anchor);
    var cell := CellDate(anchor, i);
    WeekdayFromDayNumber(start, DayNumber(start));
    WeekdayFromDayNumber(cell, DayNumber(start) + i);
    ColumnArithmetic(DayNumber(start), i);
  }

  /** The weekday read off a day number. */
  lemma WeekdayFromDayNumber(d: Day, n: int)
    requires DayNumber(d) == n
    ensures Weekday(d) == (n + 4) % 7
  {
  }

  /** A rendered day cell. `today` stands for the clock's current date. */
  datatype Cell = Cell(date: Day, outsideMonth: bool, weekend: bool, isToday: bool, am: seq<Entry>, pm: seq<Entry>)

  /** `DayCell` with its two `DroppableSlot`s. */
  function DayCell(anchor: Day, date: Day, list: seq<Intervention>, collabs: seq<Collaborateur>, today: Day): (c: Cell)
    ensures c.date == date
    ensures c.outsideMonth <==> date.month != anchor.month
    ensures c.weekend <==> Weekday(date) == 0 || Weekday(date) == 6
    ensures c.isToday <==> date == today
    ensures forall e :: e in c.am ==> e.intervention.start.date == date && e.intervention.start.hour < 12
    ensures forall e :: e in c.pm ==> e.intervention.start.date == date && e.intervention.start.hour >= 12
    ensures forall e :: e in c.am || e in c.pm ==> e.intervention in list
    ensures forall i :: i in list && i.start.date == date && i.start.hour < 12 && Resolves(collabs, i) ==>
              exists e :: e in c.am && e.intervention == i
    ensures forall i :: i in list && i.start.date == date && i.start.hour >= 12 && Resolves(collabs, i) ==>
              exists e :: e in c.pm && e.intervention == i
  {
    SlotEntriesComplete(AmInterventions(list, date), collabs);
    SlotEntriesComplete(PmInterventions(list, date), collabs);
    Cell(date, IsOutsideMonth(date, anchor), IsWeekend(date), date == today,
         SlotEntries(AmInterventions(list, date), collabs),
         SlotEntries(PmInterventions(list, date), collabs))
  }
}
