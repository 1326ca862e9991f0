/** The planning screen's state and its handlers: dropping a worker on a half-day slot creates
    an intervention, dropping an intervention moves it, both optimistically with rollback when
    the store refuses; deleting waits for the store; the grid shows only the visible
    interventions. Store answers are inputs; the reload after a successful move is a flag. */
module PlanningContainer {
  import opened Wrappers
  import opened Records
  import CivilCalendar
  import LocalTime
  import Slots
  import Sequences
  import ToggleList

  datatype PlanningState = PlanningState(
    chantiers: seq<Chantier>,
    collaborateurs: seq<Collaborateur>,
    interventions: seq<Intervention>,
    selectedChantier: Option<Chantier>,
    filteredCollaboratorIds: seq<string>,
    selectedIntervention: Option<Intervention>,
    currentDate: CivilCalendar.Day,
    showAll: bool)

  /** The dragged item, by the `type` field of its drag data. */
  datatype DragPayload =
    | CollaboratorDrag(collaborateur: Option<Collaborateur>)
    | InterventionDrag(intervention: Option<Intervention>)
    | OtherDrag

  /** The slot under the cursor at the end of the drag (`over.data.current`). */
  datatype DropTarget = DropTarget(date: Option<CivilCalendar.Day>, period: Period)

  /** The answer of an insert or update request. */
  datatype StoreResult = StoreOk | StoreError(message: string)

  /** The answer of a delete request: an error, or the number of rows deleted (possibly null). */
  datatype DeleteResult = DeleteError(message: string) | DeleteOk(count: Option<int>)

  /** The row sent to the store on creation: no joins, no company id. */
  datatype NewRow = NewRow(id: string, chantierId: string, collaborateurId: string,
                           start: LocalTime.Timestamp, end: LocalTime.Timestamp)

  datatype StoreCall =
    | InsertCall(row: NewRow)
    | UpdateCall(id: string, start: LocalTime.Timestamp, end: LocalTime.Timestamp)

  /** The alerts the handlers raise. */
  datatype Notice =
    | SelectChantierFirst
    | CreateFailed(message: string)
    | MoveFailed(message: string)
    | DeleteFailed(message: string, id: string)
    | AlreadyDeleted

  /** What a drop decides before anything is sent to the store. */
  datatype DropPlan =
    | Ignored
    | Refused(notice: Notice)
    | Create(record: Intervention)
    | Move(original: Intervention, updated: Intervention)

  /** The state after a handler has finished, the store call it issued, its alert, and whether
      it asked for a full reload from the store. */
  datatype Outcome = Outcome(state: PlanningState, call: Option<StoreCall>, notice: Option<Notice>, reload: bool)

  // ---------------------------------------------------------------- list updates

  /** `list.map(i => i.id === id ? replacement : i)`. */
  function PatchById(list: seq<Intervention>, id: string, replacement: Intervention): (r: seq<Intervention>)
    ensures |r| == |list|
    ensures forall k :: 0 <= k < |list| ==> r[k] == (if list[k].id == id then replacement else list[k])
  {
    seq(|list|, k requires 0 <= k < |list| => if list[k].id == id then replacement else list[k])
  }

  /** `list.filter(i => i.id !== id)`. */
  function RemoveById(list: seq<Intervention>, id: string): (r: seq<Intervention>)
    ensures id !in Ids(r)
  {
    Sequences.Filter(list, (i: Intervention) => i.id != id)
  }

  // ---------------------------------------------------------------- drop handling

  /** The decision `handleDragEnd` takes from the drag, the drop target and the state.
      `freshId` stands for the generated UUID. */
  function PlanDrop(s: PlanningState, payload: DragPayload, over: Option<DropTarget>, freshId: string): (plan: DropPlan)
    ensures over.None? || over.value.date.None? ==> plan.Ignored?
    ensures plan.Refused? <==> && over.Some? && over.value.date.Some?
                               && payload.CollaboratorDrag? && s.selectedChantier.None?
    ensures plan.Refused? ==> plan.notice == SelectChantierFirst
    ensures plan.Create? ==> && payload.CollaboratorDrag? && payload.collaborateur.Some? && s.selectedChantier.Some?
                             && plan.record.id == freshId
                             && plan.record.chantierId == s.selectedChantier.value.id
                             && plan.record.collaborateurId == payload.collaborateur.value.id
    ensures plan.Move? ==> && payload == InterventionDrag(Some(plan.original))
                           && plan.updated == plan.original.(start := plan.updated.start, end := plan.updated.end)
                           && LocalTime.Instant(plan.updated.start) != LocalTime.Instant(plan.original.start)
  {
    if over.None? || over.value.date.None? then Ignored
    else
      var w := Slots.SlotWindow(over.value.date.value, over.value.period);
      match payload
      case CollaboratorDrag(collab) =>
        if s.selectedChantier.None? then Refused(SelectChantierFirst)
        else if collab.None? then Ignored
        else
          var c := s.selectedChantier.value;
          Create(Intervention(freshId, None, c.id, collab.value.id, w.start, w.end,
                              None, None, None, Some(c), Some(collab.value)))
      case InterventionDrag(iv) =>
        if iv.None? then Ignored
        else if LocalTime.Instant(iv.value.start) == LocalTime.Instant(w.start) then Ignored
        else Move(iv.value, iv.value.(start := w.start, end := w.end))
      case OtherDrag => Ignored
  }

  /** The list shown while the store call is pending: a created record is appended after the
      others, a moved one is replaced where it stands, and nothing else changes. */
  function ApplyOptimistic(list: seq<Intervention>, plan: DropPlan): (r: seq<Intervention>)
    ensures plan.Create? ==> |r| == |list| + 1 && r[..|list|] == list && r[|list|] == plan.record
    ensures plan.Move? ==> |r| == |list| && forall k :: 0 <= k < |list| ==>
              r[k] == (if list[k].id == plan.original.id then plan.updated else list[k])
    ensures !plan.Create? && !plan.Move? ==> r == list
  {
    match plan
    case Create(record) => list + [record]
    case Move(original, updated) => PatchById(list, original.id, updated)
    case _ => list
  }

  /** The store call a plan issues. */
  function CallOf(plan: DropPlan): Option<StoreCall> {
    match plan
    case Create(r) => Some(InsertCall(NewRow(r.id, r.chantierId, r.collaborateurId, r.start, r.end)))
    case Move(original, updated) => Some(UpdateCall(original.id, updated.start, updated.end))
    case _ => None
  }

  /** `handleDragEnd` as a whole: plan, optimistic update, and the reaction to the store's answer
      `result` (consulted only when a call was issued). */
  function HandleDragEnd(s: PlanningState, payload: DragPayload, over: Option<DropTarget>,
                         freshId: string, result: StoreResult): (o: Outcome)
    ensures o.state == s.(interventions := o.state.interventions)
    ensures o.call.None? ==> o.state == s && !o.reload
  {
    var plan := PlanDrop(s, payload, over, freshId);
    var shown := ApplyOptimistic(s.interventions, plan);
    match plan
    case Ignored => Outcome(s, None, None, false)
    case Refused(n) => Outcome(s, None, Some(n), false)
    case Create(record) =>
      if result.StoreError? then
        Outcome(s.(interventions := RemoveById(shown, record.id)), CallOf(plan), Some(CreateFailed(result.message)), false)
      else
        Outcome(s.(interventions := shown), CallOf(plan), None, false)
    case Move(original, _) =>
      if result.StoreError? then
        Outcome(s.(interventions := PatchById(shown, original.id, original)), CallOf(plan), Some(MoveFailed(result.message)), false)
      else
        Outcome(s.(interventions := shown), CallOf(plan), None, true)
  }

  /** `handleDeleteIntervention`: the local list changes only once the store reports no error. */
  function HandleDelete(s: PlanningState, id: string, result: DeleteResult): (o: Outcome)
    ensures o.call.None? && !o.reload
  {
    match result
    case DeleteError(message) => Outcome(s, None, Some(DeleteFailed(message, id)), false)
    case DeleteOk(count) =>
      Outcome(s.(interventions := RemoveById(s.interventions, id), selectedIntervention := None),
              None, if count == Some(0) then Some(AlreadyDeleted) else None, false)
  }

  // ---------------------------------------------------------------- visibility

  /** The grid's visibility predicate (`filteredInterventions`). */
  predicate Visible(s: PlanningState, i: Intervention)
    ensures Visible(s, i) && s.selectedChantier.Some? && !s.showAll ==> i.chantierId == s.selectedChantier.value.id
    ensures Visible(s, i) && s.filteredCollaboratorIds != [] ==> i.collaborateurId in s.filteredCollaboratorIds
    ensures (s.selectedChantier.None? || s.showAll) && s.filteredCollaboratorIds == [] ==> Visible(s, i)
  {
    && !(s.selectedChantier.Some? && !s.showAll && i.chantierId != s.selectedChantier.value.id)
    && !(|s.filteredCollaboratorIds| > 0 && i.collaborateurId !in s.filteredCollaboratorIds)
  }

  /** The interventions handed to the grid. */
  function GridInterventions(s: PlanningState): (r: seq<Intervention>)
    ensures |r| <= |s.interventions|
  {
    Sequences.Filter(s.interventions, (i: Intervention) => Visible(s, i))
  }

  /** The interventions handed to the sidebar: all of them. */
  function SidebarInterventions(s: PlanningState): seq<Intervention> {
    s.interventions
  }

  /** `toggleCollaboratorFilter`. */
  function ToggleCollaboratorFilter(s: PlanningState, id: string): (r: PlanningState)
    ensures r == s.(filteredCollaboratorIds := r.filteredCollaboratorIds)
    ensures id in r.filteredCollaboratorIds <==> id !in s.filteredCollaboratorIds
  {
    s.(filteredCollaboratorIds := ToggleList.Toggle(s.filteredCollaboratorIds, id))
  }

  // ---------------------------------------------------------------- properties of drops

  /** A drop outside every slot, or on a slot without a date, changes nothing and calls nothing. */
  lemma DropWithoutTargetIgnored(s: PlanningState, payload: DragPayload, over: Option<DropTarget>,
                                 freshId: string, result: StoreResult)
    requires over.None? || over.value.date.None?
    ensures HandleDragEnd(s, payload, over, freshId, result) == Outcome(s, None, None, false)
  {
  }

  /** Dropping a worker with no job site selected only raises the "select a job site" alert. */
  lemma CreateNeedsChantier(s: PlanningState, collab: Option<Collaborateur>, t: DropTarget,
                            freshId: string, result: StoreResult)
    requires s.selectedChantier.None? && t.date.Some?
    ensures HandleDragEnd(s, CollaboratorDrag(collab), Some(t), freshId, result)
            == Outcome(s, None, Some(SelectChantierFirst), false)
  {
  }

  /** A worker dropped on `(d, p)` with job site `c` selected appends exactly one record: it has
      the fresh id, `c`'s id, the worker's id and the slot window, and the insert sends the same. */
  lemma CreateAppendsOne(s: PlanningState, collab: Collaborateur, d: CivilCalendar.Day, p: Period,
                         freshId: string)
    requires s.selectedChantier.Some?
    ensures var plan := PlanDrop(s, CollaboratorDrag(Some(collab)), Some(DropTarget(Some(d), p)), freshId);
            var w := Slots.SlotWindow(d, p);
            && plan.Create?
            && ApplyOptimistic(s.interventions, plan) == s.interventions + [plan.record]
            && plan.record.id == freshId
            && plan.record.chantierId == s.selectedChantier.value.id
            && plan.record.collaborateurId == collab.id
            && plan.record.start == w.start && plan.record.end == w.end
            && plan.record.start.hour == (if p == AM then 9 else 14)
            && LocalTime.Instant(plan.record.start) < LocalTime.Instant(plan.record.end)
            && CallOf(plan) == Some(InsertCall(NewRow(freshId, s.selectedChantier.value.id, collab.id, w.start, w.end)))
  {
    Slots.SlotWindowShape(d, p);
  }

  /** When the insert fails, removing the fresh id restores the list exactly as it was before the
      drop, provided the id really was fresh. */
  lemma {:induction false} CreateRollbackRestores(s: PlanningState, collab: Collaborateur, t: DropTarget,
                                                  freshId: string, message: string)
    requires s.selectedChantier.Some? && t.date.Some?
    requires freshId !in Ids(s.interventions)
    ensures var o := HandleDragEnd(s, CollaboratorDrag(Some(collab)), Some(t), freshId, StoreError(message));
            o.state == s && o.notice == Some(CreateFailed(message)) && o.call.Some?
  {
    var plan := PlanDrop(s, CollaboratorDrag(Some(collab)), Some(t), freshId);
    var p := (i: Intervention) => i.id != freshId;
    var list := s.interventions;
    assert forall k :: 0 <= k < |list| ==> p(list[k]) by {
      forall k | 0 <= k < |list| ensures p(list[k]) {
        assert Ids(list)[k] == list[k].id;
      }
    }
    Sequences.FilterAppend(list, [plan.record], p);
    Sequences.FilterKeepsAll(list, p);
    assert Sequences.Filter([plan.record], p) == [];
    assert RemoveById(list + [plan.record], freshId) == list;
  }

  /** A successful insert keeps the optimistic list: the old list plus the new record. */
  lemma CreateSuccessKeeps(s: PlanningState, collab: Collaborateur, t: DropTarget, freshId: string)
    requires s.selectedChantier.Some? && t.date.Some?
    ensures var o := HandleDragEnd(s, CollaboratorDrag(Some(collab)), Some(t), freshId, StoreOk);
            && |o.state.interventions| == |s.interventions| + 1
            && o.state.interventions[..|s.interventions|] == s.interventions
            && o.state.interventions[|s.interventions|].id == freshId
            && o.notice.None? && !o.reload
  {
  }

  /** Moving an intervention onto the instant it already starts at is a no-op without a store
      call; for any other drop on a slot, an update is sent. */
  lemma MoveNoOpIffSameInstant(s: PlanningState, iv: Intervention, d: CivilCalendar.Day, p: Period,
                               result: StoreResult, freshId: string)
    ensures var o := HandleDragEnd(s, InterventionDrag(Some(iv)), Some(DropTarget(Some(d), p)), freshId, result);
            (o == Outcome(s, None, None, false))
            <==> LocalTime.Instant(iv.start) == LocalTime.Instant(Slots.SlotWindow(d, p).start)
  {
  }

  /** Because instants determine timestamps, the move no-op is exactly "the intervention already
      starts at this slot's start": same date and same start hour, on the hour. */
  lemma MoveNoOpIffSameSlotStart(iv: Intervention, d: CivilCalendar.Day, p: Period)
    ensures LocalTime.Instant(iv.start) == LocalTime.Instant(Slots.SlotWindow(d, p).start)
            <==> iv.start == Slots.SlotWindow(d, p).start
  {
    if LocalTime.Instant(iv.start) == LocalTime.Instant(Slots.SlotWindow(d, p).start) {
      LocalTime.InstantInjective(iv.start, Slots.SlotWindow(d, p).start);
    }
  }

  /** A move patches exactly the records carrying the moved id, in place: the replacement keeps
      every field but the two timestamps, and every other record and every position stays. */
  lemma MovePatchesOnlyThatId(s: PlanningState, iv: Intervention, d: CivilCalendar.Day, p: Period, freshId: string)
    requires LocalTime.Instant(iv.start) != LocalTime.Instant(Slots.SlotWindow(d, p).start)
    ensures var plan := PlanDrop(s, InterventionDrag(Some(iv)), Some(DropTarget(Some(d), p)), freshId);
            var shown := ApplyOptimistic(s.interventions, plan);
            var w := Slots.SlotWindow(d, p);
            && plan == Move(iv, iv.(start := w.start, end := w.end))
            && |shown| == |s.interventions|
            && (forall k :: 0 <= k < |shown| && s.interventions[k].id != iv.id ==> shown[k] == s.interventions[k])
            && (forall k :: 0 <= k < |shown| && s.interventions[k].id == iv.id ==>
                  shown[k].start == w.start && shown[k].end == w.end && shown[k].(start := iv.start, end := iv.end) == iv)
            && CallOf(plan) == Some(UpdateCall(iv.id, w.start, w.end))
  {
  }

  /** When the update fails, the moved id is reset to the dragged record and every other record
      is untouched; if the dragged record was the list's copy, the list is restored exactly. */
  lemma MoveRollbackRestores(s: PlanningState, iv: Intervention, d: CivilCalendar.Day, p: Period,
                             freshId: string, message: string)
    requires LocalTime.Instant(iv.start) != LocalTime.Instant(Slots.SlotWindow(d, p).start)
    requires forall k :: 0 <= k < |s.interventions| && s.interventions[k].id == iv.id ==> s.interventions[k] == iv
    ensures var o := HandleDragEnd(s, InterventionDrag(Some(iv)), Some(DropTarget(Some(d), p)), freshId, StoreError(message));
            o.state == s && o.notice == Some(MoveFailed(message)) && !o.reload
  {
    var o := HandleDragEnd(s, InterventionDrag(Some(iv)), Some(DropTarget(Some(d), p)), freshId, StoreError(message));
    assert o.state.interventions == s.interventions;
  }

  /** A successful update keeps the patched list and asks for a full reload. */
  lemma MoveSuccessReloads(s: PlanningState, iv: Intervention, d: CivilCalendar.Day, p: Period, freshId: string)
    requires LocalTime.Instant(iv.start) != LocalTime.Instant(Slots.SlotWindow(d, p).start)
    ensures var o := HandleDragEnd(s, InterventionDrag(Some(iv)), Some(DropTarget(Some(d), p)), freshId, StoreOk);
            var w := Slots.SlotWindow(d, p);
            o.reload && o.notice.None? && o.state.interventions == PatchById(s.interventions, iv.id, iv.(start := w.start, end := w.end))
  {
  }

  // ---------------------------------------------------------------- properties of deletion

  /** A failed delete changes nothing, not even the open detail view. */
  lemma DeleteErrorKeepsState(s: PlanningState, id: string, message: string)
    ensures HandleDelete(s, id, DeleteError(message)) == Outcome(s, None, Some(DeleteFailed(message, id)), false)
  {
  }

  /** A delete without error, even one that removed zero rows, removes the id locally, keeps every
      other record in order and closes the detail view; zero rows adds the "already deleted" alert. */
  lemma DeleteOkRemoves(s: PlanningState, id: string, count: Option<int>)
    ensures var o := HandleDelete(s, id, DeleteOk(count));
            && id !in Ids(o.state.interventions)
            && o.state.selectedIntervention.None?
            && Sequences.SubsequenceOf(o.state.interventions, s.interventions)
            && (forall k :: 0 <= k < |s.interventions| && s.interventions[k].id != id ==> s.interventions[k] in o.state.interventions)
            && (o.notice == Some(AlreadyDeleted) <==> count == Some(0))
  {
    Sequences.FilterIsSubsequence(s.interventions, (i: Intervention) => i.id != id);
  }

  // ---------------------------------------------------------------- properties of visibility

  /** An intervention is hidden from the grid iff a job site is focused without "show all" and
      the intervention belongs to another one, or the worker filter is non-empty and does not
      hold its worker. */
  lemma GridVisibility(s: PlanningState, i: Intervention)
    requires i in s.interventions
    ensures i !in GridInterventions(s) <==>
              (s.selectedChantier.Some? && !s.showAll && i.chantierId != s.selectedChantier.value.id)
              || (|s.filteredCollaboratorIds| > 0 && i.collaborateurId !in s.filteredCollaboratorIds)
  {
    var k :| 0 <= k < |s.interventions| && s.interventions[k] == i;
  }

  /** The grid list keeps the order of the full list. */
  lemma GridKeepsOrder(s: PlanningState)
    ensures Sequences.SubsequenceOf(GridInterventions(s), s.interventions)
  {
    Sequences.FilterIsSubsequence(s.interventions, (i: Intervention) => Visible(s, i));
  }

  /** With no focus (or "show all") and an empty worker filter, the grid shows everything. */
  lemma GridShowsAllWhenUnfiltered(s: PlanningState)
    requires s.selectedChantier.None? || s.showAll
    requires s.filteredCollaboratorIds == []
    ensures GridInterventions(s) == s.interventions
  {
    Sequences.FilterKeepsAll(s.interventions, (i: Intervention) => Visible(s, i));
  }

  /** Toggling one worker id changes the visibility only of that worker's interventions, unless
      the toggle empties or first fills the filter. */
  lemma ToggleAffectsOnlyThatWorker(s: PlanningState, id: string, i: Intervention)
    requires i.collaborateurId != id
    requires |s.filteredCollaboratorIds| > 0 && |ToggleCollaboratorFilter(s, id).filteredCollaboratorIds| > 0
    ensures Visible(ToggleCollaboratorFilter(s, id), i) <==> Visible(s, i)
  {
  }
}
