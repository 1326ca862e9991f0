/** The planning sidebar: hour statistics of the selected job site, the over-budget highlight,
    and the "Tout afficher" button that clears the worker filter. */
module PlanningSidebar {
  import opened Wrappers
  import opened Records
  import CivilCalendar
  import LocalTime
  import Sequences
  import Slots
  import ToggleList
  import PlanningContainer

  /** The duration of an intervention in hours: `(end.getTime() - start.getTime()) / 3600000`. */
  function Hours(i: Intervention): (h: real)
    ensures h * (LocalTime.MillisPerHour as real) == (LocalTime.Instant(i.end) - LocalTime.Instant(i.start)) as real
  {
    (LocalTime.Instant(i.end) - LocalTime.Instant(i.start)) as real / (LocalTime.MillisPerHour as real)
  }

  /** `.reduce((acc, curr) => acc + hours(curr), 0)`: a left fold from 0. No interval that ends
      before it starts means no negative total. */
  function SumHours(list: seq<Intervention>): (t: real)
    ensures (forall k :: 0 <= k < |list| ==> Hours(list[k]) >= 0.0) ==> t >= 0.0
    decreases |list|
  {
    if list == [] then 0.0 else SumHours(list[..|list| - 1]) + Hours(list[|list| - 1])
  }

  predicate OfChantier(i: Intervention, chantierId: string) {
    i.chantierId == chantierId
  }

  /** The hours planned on a job site: the durations of its interventions, summed. A job site
      without interventions plans nothing; other job sites' interventions never count. */
  function PlannedHours(list: seq<Intervention>, chantierId: string): (t: real)
    ensures (forall k :: 0 <= k < |list| ==> list[k].chantierId != chantierId) ==> t == 0.0
    ensures (forall k :: 0 <= k < |list| ==> Hours(list[k]) >= 0.0) ==> t >= 0.0
  {
    var kept := Sequences.Filter(list, (i: Intervention) => OfChantier(i, chantierId));
    SumHours(kept)
  }

  /** `temps_vendu || 0`: a missing (or zero) sold time counts as 0 hours. */
  function SoldHours(c: Chantier): (h: real)
    ensures c.tempsVendu.None? ==> h == 0.0
    ensures c.tempsVendu.Some? ==> h == c.tempsVendu.value
  {
    c.tempsVendu.GetOr(0.0)
  }

  datatype Stats = Stats(planned: real, sold: real, remaining: real)

  /** `getChantierStats`: nothing without a selected job site; otherwise planned, sold and the
      remainder, which may be negative. */
  function ChantierStats(selected: Option<Chantier>, list: seq<Intervention>): (r: Option<Stats>)
    ensures r.Some? <==> selected.Some?
    ensures selected.Some? ==> r.value.planned == PlannedHours(list, selected.value.id)
    ensures selected.Some? ==> r.value.sold == SoldHours(selected.value)
    ensures r.Some? ==> r.value.planned + r.value.remaining == r.value.sold
  {
    match selected
    case None => None
    case Some(c) =>
      var planned := PlannedHours(list, c.id);
      Some(Stats(planned, SoldHours(c), SoldHours(c) - planned))
  }

  /** The "Planifié" figure turns red when more hours are planned than were sold. */
  predicate OverBudget(st: Stats)
    ensures st.sold == 0.0 && st.planned > 0.0 ==> OverBudget(st)
    ensures st.planned <= 0.0 && st.sold >= 0.0 ==> !OverBudget(st)
  {
    st.planned > st.sold
  }

  // ---------------------------------------------------------------- sums

  lemma {:induction false} SumHoursAppend(a: seq<Intervention>, b: seq<Intervention>)
    ensures SumHours(a + b) == SumHours(a) + SumHours(b)
    decreases |b|
  {
    if b == [] {
      assert a + b == a;
    } else {
      var b' := b[..|b| - 1];
      assert a + b == (a + b') + [b[|b| - 1]];
      assert (a + b)[..|a + b| - 1] == a + b';
      SumHoursAppend(a, b');
    }
  }

  /** Planned hours add up over concatenated lists. */
  lemma PlannedHoursAppend(a: seq<Intervention>, b: seq<Intervention>, chantierId: string)
    ensures PlannedHours(a + b, chantierId) == PlannedHours(a, chantierId) + PlannedHours(b, chantierId)
  {
    var p := (i: Intervention) => OfChantier(i, chantierId);
    Sequences.FilterAppend(a, b, p);
    SumHoursAppend(Sequences.Filter(a, p), Sequences.Filter(b, p));
  }

  /** One intervention contributes its duration to its own job site and nothing to the others. */
  lemma PlannedHoursSingle(i: Intervention, chantierId: string)
    ensures PlannedHours([i], chantierId) == if i.chantierId == chantierId then Hours(i) else 0.0
  {
    var p := (x: Intervention) => OfChantier(x, chantierId);
    assert Sequences.Filter([i], p) == if p(i) then [i] else [];
    if p(i) {
      assert [i][..0] == [];
      assert SumHours([i]) == SumHours([]) + Hours(i);
    } else {
      assert SumHours([]) == 0.0;
    }
  }

  /** Every intervention that does not end before it starts adds a non-negative amount. */
  lemma {:induction false} PlannedHoursNonNegative(list: seq<Intervention>, chantierId: string)
    requires forall k :: 0 <= k < |list| ==> LocalTime.Instant(list[k].start) <= LocalTime.Instant(list[k].end)
    ensures PlannedHours(list, chantierId) >= 0.0
    decreases |list|
  {
    if list != [] {
      var init := list[..|list| - 1];
      assert list == init + [list[|list| - 1]];
      PlannedHoursNonNegative(init, chantierId);
      PlannedHoursAppend(init, [list[|list| - 1]], chantierId);
      PlannedHoursSingle(list[|list| - 1], chantierId);
    }
  }

  /** A list of job-site interventions, each three hours long, plans three hours apiece. */
  lemma {:induction false} PlannedHoursOfSlots(list: seq<Intervention>, chantierId: string)
    requires forall k :: 0 <= k < |list| ==> list[k].chantierId == chantierId && Hours(list[k]) == 3.0
    ensures PlannedHours(list, chantierId) == 3.0 * |list| as real
    decreases |list|
  {
    if list != [] {
      var init := list[..|list| - 1];
      assert list == init + [list[|list| - 1]];
      PlannedHoursOfSlots(init, chantierId);
      PlannedHoursAppend(init, [list[|list| - 1]], chantierId);
      PlannedHoursSingle(list[|list| - 1], chantierId);
    }
  }

  // ---------------------------------------------------------------- slots and drops

  /** A slot window lasts exactly three hours. */
  lemma SlotHours(i: Intervention, d: CivilCalendar.Day, p: Period)
    requires i.start == Slots.SlotWindow(d, p).start && i.end == Slots.SlotWindow(d, p).end
    ensures Hours(i) == 3.0
  {
    Slots.SlotWindowShape(d, p);
  }

  /** Dropping a worker on a slot adds three planned hours to the selected job site and leaves
      every other job site's figure alone. */
  lemma CreateAddsThreeHours(s: PlanningContainer.PlanningState, collab: Collaborateur,
                             d: CivilCalendar.Day, p: Period, freshId: string, other: string)
    requires s.selectedChantier.Some?
    requires other != s.selectedChantier.value.id
    ensures var plan := PlanningContainer.PlanDrop(s, PlanningContainer.CollaboratorDrag(Some(collab)),
                                                   Some(PlanningContainer.DropTarget(Some(d), p)), freshId);
            var shown := PlanningContainer.ApplyOptimistic(s.interventions, plan);
            && PlannedHours(shown, s.selectedChantier.value.id) == PlannedHours(s.interventions, s.selectedChantier.value.id) + 3.0
            && PlannedHours(shown, other) == PlannedHours(s.interventions, other)
  {
    var plan := PlanningContainer.PlanDrop(s, PlanningContainer.CollaboratorDrag(Some(collab)),
                                           Some(PlanningContainer.DropTarget(Some(d), p)), freshId);
    PlanningContainer.CreateAppendsOne(s, collab, d, p, freshId);
    SlotHours(plan.record, d, p);
    PlannedHoursAppend(s.interventions, [plan.record], s.selectedChantier.value.id);
    PlannedHoursSingle(plan.record, s.selectedChantier.value.id);
    PlannedHoursAppend(s.interventions, [plan.record], other);
    PlannedHoursSingle(plan.record, other);
  }

  /** With ten hours sold, three half-day slots leave one hour and are within budget; a fourth
      slot plans twelve hours and turns the figure red. */
  lemma TenHoursSoldExample(c: Chantier, list: seq<Intervention>)
    requires c.tempsVendu == Some(10.0)
    requires forall k :: 0 <= k < |list| ==> list[k].chantierId == c.id && Hours(list[k]) == 3.0
    ensures |list| == 3 ==> ChantierStats(Some(c), list) == Some(Stats(9.0, 10.0, 1.0))
    ensures |list| == 3 ==> !OverBudget(ChantierStats(Some(c), list).value)
    ensures |list| == 4 ==> OverBudget(ChantierStats(Some(c), list).value)
  {
    PlannedHoursOfSlots(list, c.id);
  }

  // ---------------------------------------------------------------- the figures after a drop

  /** A worker dropped on a slot while a job site is selected, and stored without error: the
      sidebar, which is handed the whole list and not the grid's filtered one, shows three more
      "Planifié" hours and the same "Vendu"; the computed `remaining` figure (not displayed)
      shrinks by three; and "Planifié" turns red exactly when fewer than three hours remained. */
  lemma CreateUpdatesStats(s: PlanningContainer.PlanningState, collab: Collaborateur,
                           d: CivilCalendar.Day, p: Period, freshId: string)
    requires s.selectedChantier.Some?
    ensures var before := ChantierStats(s.selectedChantier, PlanningContainer.SidebarInterventions(s)).value;
            var o := PlanningContainer.HandleDragEnd(s, PlanningContainer.CollaboratorDrag(Some(collab)),
                                                     Some(PlanningContainer.DropTarget(Some(d), p)), freshId,
                                                     PlanningContainer.StoreOk);
            var after := ChantierStats(o.state.selectedChantier, PlanningContainer.SidebarInterventions(o.state)).value;
            && after.planned == before.planned + 3.0
            && after.sold == before.sold
            && after.remaining == before.remaining - 3.0
            && (OverBudget(after) <==> before.remaining < 3.0)
  {
    var id := s.selectedChantier.value.id;
    var plan := PlanningContainer.PlanDrop(s, PlanningContainer.CollaboratorDrag(Some(collab)),
                                           Some(PlanningContainer.DropTarget(Some(d), p)), freshId);
    PlanningContainer.CreateAppendsOne(s, collab, d, p, freshId);
    SlotHours(plan.record, d, p);
    PlannedHoursAppend(s.interventions, [plan.record], id);
    PlannedHoursSingle(plan.record, id);
  }

  // ---------------------------------------------------------------- "Tout afficher"

  /** `ids.forEach(id => onToggleFilter(id))`: one toggle per id, each seeing the previous
      toggle's result. */
  function ToggleAll(s: PlanningContainer.PlanningState, clicks: seq<string>): (r: PlanningContainer.PlanningState)
    ensures r == s.(filteredCollaboratorIds := r.filteredCollaboratorIds)
    decreases |clicks|
  {
    if clicks == [] then s
    else ToggleAll(PlanningContainer.ToggleCollaboratorFilter(s, clicks[0]), clicks[1..])
  }

  lemma {:induction false} ToggleAllIsToggleEach(s: PlanningContainer.PlanningState, clicks: seq<string>)
    ensures ToggleAll(s, clicks) == s.(filteredCollaboratorIds := ToggleList.ToggleEach(s.filteredCollaboratorIds, clicks))
    decreases |clicks|
  {
    if clicks != [] {
      ToggleAllIsToggleEach(PlanningContainer.ToggleCollaboratorFilter(s, clicks[0]), clicks[1..]);
    }
  }

  /** The button toggles the ids currently in the filter. */
  function ShowAllWorkers(s: PlanningContainer.PlanningState): (r: PlanningContainer.PlanningState)
    ensures r == s.(filteredCollaboratorIds := r.filteredCollaboratorIds)
  {
    ToggleAll(s, s.filteredCollaboratorIds)
  }

  /** On a duplicate-free filter (every filter reached from the empty one by toggles is, see
      `ToggleList.TogglePreservesNoDup`), the button empties the filter and changes nothing else. */
  lemma ShowAllClearsFilter(s: PlanningContainer.PlanningState)
    requires ToggleList.NoDup(s.filteredCollaboratorIds)
    ensures ShowAllWorkers(s) == s.(filteredCollaboratorIds := [])
  {
    ToggleAllIsToggleEach(s, s.filteredCollaboratorIds);
    ToggleList.ToggleAllClears(s.filteredCollaboratorIds);
  }
}
