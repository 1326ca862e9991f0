/** The compact day agenda: the interventions starting on the current day that pass the
    job-site and worker filters, in ascending order of start; day-by-day navigation; the filter
    drawer's toggle and reset; and each entry's morning/afternoon label. */
module MobilePlanning {
  import opened Records
  import CivilCalendar
  import LocalTime
  import Sequences
  import ToggleList
  import Slots

  /** The job-site filter value that keeps every job site. */
  const AllChantiers: string := "all"

  datatype AgendaFilters = AgendaFilters(chantierId: string, collaboratorIds: seq<string>)

  function InitialFilters(): AgendaFilters {
    AgendaFilters(AllChantiers, [])
  }

  /** Same `getDate()`, `getMonth()` and `getFullYear()`. */
  predicate SameDay(i: Intervention, day: CivilCalendar.Date)
    ensures SameDay(i, day) <==> i.start.date == day
  {
    i.start.date.year == day.year && i.start.date.month == day.month && i.start.date.day == day.day
  }

  /** The job-site test (skipped for "all") and the worker test (skipped for an empty selection). */
  predicate PassesFilters(f: AgendaFilters, i: Intervention)
    ensures f == InitialFilters() ==> PassesFilters(f, i)
    ensures PassesFilters(f, i) && f.chantierId != AllChantiers ==> i.chantierId == f.chantierId
  {
    && (f.chantierId == AllChantiers || i.chantierId == f.chantierId)
    && (|f.collaboratorIds| == 0 || i.collaborateurId in f.collaboratorIds)
  }

  /** Whether the filter button shows as active. */
  predicate FiltersActive(f: AgendaFilters)
    ensures !FiltersActive(f) ==> forall i :: PassesFilters(f, i)
  {
    f.chantierId != AllChantiers || |f.collaboratorIds| > 0
  }

  // ---------------------------------------------------------------- sorting by start

  function StartKey(i: Intervention): int {
    LocalTime.Instant(i.start)
  }

  predicate SortedBy<T>(s: seq<T>, key: T -> int) {
    forall j, k :: 0 <= j < k < |s| ==> key(s[j]) <= key(s[k])
  }

  predicate SortedByStart(s: seq<Intervention>) {
    SortedBy(s, StartKey)
  }

  /** Inserts `x` after every element whose key is not greater than its own. */
  function InsertBy<T>(x: T, s: seq<T>, key: T -> int): (r: seq<T>)
    requires SortedBy(s, key)
    ensures SortedBy(r, key)
    ensures multiset(r) == multiset(s) + multiset{x}
    decreases |s|
  {
    if s == [] then [x]
    else if key(x) < key(s[0]) then [x] + s
    else
      var rest := InsertBy(x, s[1..], key);
      assert s == [s[0]] + s[1..];
      assert forall k :: 0 <= k < |rest| ==> key(s[0]) <= key(rest[k]) by {
        forall k | 0 <= k < |rest|
          ensures key(s[0]) <= key(rest[k])
        {
          assert rest[k] in multiset(s[1..]) + multiset{x};
        }
      }
      [s[0]] + rest
  }

  /** A stable insertion sort: each element is inserted after the earlier ones with an equal
      key, as `Array.prototype.sort` with the comparator `key(a) - key(b)` orders them. */
  function SortBy<T>(s: seq<T>, key: T -> int): (r: seq<T>)
    ensures SortedBy(r, key)
    ensures multiset(r) == multiset(s)
    decreases |s|
  {
    if s == [] then []
    else
      assert s == s[..|s| - 1] + [s[|s| - 1]];
      InsertBy(s[|s| - 1], SortBy(s[..|s| - 1], key), key)
  }

  // ---------------------------------------------------------------- the agenda

  /** `dailyInterventions`: the day's interventions that pass the filters, sorted by start. Each
      intervention occurs in the agenda exactly as often as in the list when it starts that day
      and passes the filters, and not at all otherwise. */
  function DailyInterventions(list: seq<Intervention>, day: CivilCalendar.Date, f: AgendaFilters): (r: seq<Intervention>)
    ensures SortedByStart(r)
    ensures forall x :: multiset(r)[x] == (if SameDay(x, day) && PassesFilters(f, x) then multiset(list)[x] else 0)
  {
    var p := (i: Intervention) => SameDay(i, day) && PassesFilters(f, i);
    var kept := Sequences.Filter(list, p);
    assert forall x :: multiset(kept)[x] == (if p(x) then multiset(list)[x] else 0) by {
      forall x ensures multiset(kept)[x] == (if p(x) then multiset(list)[x] else 0) {
        Sequences.FilterMultiset(list, p, x);
      }
    }
    SortBy(kept, StartKey)
  }

  /** An intervention is listed iff it starts on the day, its job site matches unless the filter
      is "all", and its worker is selected unless no worker is. */
  lemma AgendaMembership(list: seq<Intervention>, day: CivilCalendar.Date, f: AgendaFilters, x: Intervention)
    ensures x in DailyInterventions(list, day, f) <==>
              && x in list
              && x.start.date == day
              && (f.chantierId == AllChantiers || x.chantierId == f.chantierId)
              && (|f.collaboratorIds| == 0 || x.collaborateurId in f.collaboratorIds)
  {
    assert multiset(DailyInterventions(list, day, f))[x] > 0 <==> x in DailyInterventions(list, day, f);
    assert multiset(list)[x] > 0 <==> x in list;
  }

  /** With inactive filters the agenda is the whole day, reordered by start. */
  lemma UnfilteredAgendaIsWholeDay(list: seq<Intervention>, day: CivilCalendar.Date, f: AgendaFilters, x: Intervention)
    requires !FiltersActive(f)
    ensures multiset(DailyInterventions(list, day, f))[x] == (if x.start.date == day then multiset(list)[x] else 0)
  {
  }

  // ---------------------------------------------------------------- navigation and filters

  /** `handlePrevDay`: a copy of the current date with `setDate(getDate() - 1)`, which rolls
      back into the previous month or year as needed. */
  function HandlePrevDay(d: CivilCalendar.Day): (r: CivilCalendar.Day)
    ensures CivilCalendar.DayNumber(r) == CivilCalendar.DayNumber(d) - 1
  {
    CivilCalendar.PrevDay(d)
  }

  /** `handleNextDay`: a copy of the current date with `setDate(getDate() + 1)`. */
  function HandleNextDay(d: CivilCalendar.Day): (r: CivilCalendar.Day)
    ensures CivilCalendar.DayNumber(r) == CivilCalendar.DayNumber(d) + 1
  {
    CivilCalendar.NextDay(d)
  }

  /** The two arrows undo each other, and each moves exactly one day. */
  lemma DayNavigation(d: CivilCalendar.Day)
    ensures CivilCalendar.DayNumber(HandleNextDay(d)) == CivilCalendar.DayNumber(d) + 1
    ensures CivilCalendar.DayNumber(HandlePrevDay(d)) == CivilCalendar.DayNumber(d) - 1
    ensures HandlePrevDay(HandleNextDay(d)) == d
    ensures HandleNextDay(HandlePrevDay(d)) == d
  {
    CivilCalendar.DayNumberInjective(HandlePrevDay(HandleNextDay(d)), d);
  }

  /** `toggleCollaborator`: flips that worker's selection; the job-site filter stays. */
  function ToggleCollaborator(f: AgendaFilters, id: string): (r: AgendaFilters)
    ensures r.chantierId == f.chantierId
    ensures id in r.collaboratorIds <==> id !in f.collaboratorIds
    ensures forall x :: x != id ==> (x in r.collaboratorIds <==> x in f.collaboratorIds)
  {
    f.(collaboratorIds := ToggleList.Toggle(f.collaboratorIds, id))
  }

  /** "Réinitialiser les filtres": job site back to "all", no worker selected. */
  function ResetFilters(f: AgendaFilters): (r: AgendaFilters)
    ensures !FiltersActive(r)
  {
    AgendaFilters(AllChantiers, [])
  }

  /** After a reset the agenda lists the whole day. */
  lemma ResetShowsWholeDay(list: seq<Intervention>, day: CivilCalendar.Date, f: AgendaFilters, x: Intervention)
    ensures multiset(DailyInterventions(list, day, ResetFilters(f)))[x]
            == (if x.start.date == day then multiset(list)[x] else 0)
  {
    UnfilteredAgendaIsWholeDay(list, day, ResetFilters(f), x);
  }

  // ---------------------------------------------------------------- entry labels

  datatype EntryLabel = EntryLabel(period: string, timeRange: string)

  /** An entry's label: morning iff its start hour is before 12. */
  function LabelOf(i: Intervention): (l: EntryLabel)
    ensures l.timeRange == "9h - 12h" <==> Slots.PeriodOf(i.start) == AM
  {
    if i.start.hour < 12 then EntryLabel("Matin", "9h - 12h") else EntryLabel("Après-midi", "14h - 17h")
  }

  /** An intervention created by a drop on a slot is labelled with that slot's window. */
  lemma LabelMatchesSlot(i: Intervention, d: CivilCalendar.Day, p: Period)
    requires i.start == Slots.SlotWindow(d, p).start
    ensures LabelOf(i).timeRange == (if p == AM then "9h - 12h" else "14h - 17h")
  {
    Slots.SlotWindowShape(d, p);
  }
}
