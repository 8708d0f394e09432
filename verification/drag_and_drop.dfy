/**
 * The drag-end handler of the Kanban board (frontend/src/hooks/useDragAndDrop.ts).
 *
 * The handler is split at its `await`: `HandleDragEnd` runs the guards and the
 * optimistic update and hands back the stage-update request it sends;
 * `PersistSettled` runs once that request has succeeded or failed; the
 * 3-second `setTimeout` that clears the error is an explicit `TimerFires` tick.
 * One move is in flight at a time.
 */
module DragAndDrop {
  import opened KanbanTypes
  import opened JsBuiltins
  import opened KanbanColumnFactory

  /** The prefix that marks a drop target as a whole column. */
  const ColumnPrefix: string := "column-"

  /** The message shown while a failed move is being reverted. */
  const RevertMessage: string := "Failed to update candidate stage. Reverting changes..."

  /** The position of the first candidate with the identity, or the length when there is none. */
  function FirstWithId(candidates: seq<CandidateWithId>, id: string): (j: nat)
    ensures j <= |candidates|
    ensures forall i :: 0 <= i < j ==> candidates[i].id != id
    ensures j < |candidates| ==> candidates[j].id == id
    ensures j == |candidates| <==> !HoldsId(candidates, id)
  {
    if candidates == [] then 0
    else if candidates[0].id == id then 0
    else
      var j := FirstWithId(candidates[1..], id);
      assert forall i :: 1 <= i < 1 + j ==> candidates[i] == candidates[1..][i - 1];
      assert HoldsId(candidates, id) ==> HoldsId(candidates[1..], id) by {
        if HoldsId(candidates, id) {
          var k :| 0 <= k < |candidates| && candidates[k].id == id;
          assert candidates[1..][k - 1] == candidates[k];
        }
      }
      1 + j
  }

  /** `candidates.find(c => c.id === id)`. */
  function FindById(candidates: seq<CandidateWithId>, id: string): (r: Option<CandidateWithId>)
    ensures r.None? <==> !HoldsId(candidates, id)
    ensures r.Some? ==> r.value.id == id && r.value == candidates[FirstWithId(candidates, id)]
  {
    var j := FirstWithId(candidates, id);
    if j < |candidates| then Some(candidates[j]) else None
  }

  /** The position of the first column holding a candidate with the identity, or the number of columns. */
  function FirstColumnWith(columns: seq<KanbanColumn>, id: string): (k: nat)
    ensures k <= |columns|
    ensures forall i :: 0 <= i < k ==> !HoldsId(columns[i].candidates, id)
    ensures k < |columns| ==> HoldsId(columns[k].candidates, id)
  {
    if columns == [] then 0
    else if HoldsId(columns[0].candidates, id) then 0
    else
      var k := FirstColumnWith(columns[1..], id);
      assert forall i :: 1 <= i < 1 + k ==> columns[i] == columns[1..][i - 1];
      1 + k
  }

  /** The column the dragged candidate leaves, and the candidate itself. */
  datatype Source = Source(columnId: int, candidate: CandidateWithId)

  /**
   * The first column holding a candidate with the dragged identity, and the
   * first such candidate in it; `None` when no column holds one.
   */
  function SourceOf(columns: seq<KanbanColumn>, activeId: string): (r: Option<Source>)
    ensures r.None? <==> forall k :: 0 <= k < |columns| ==> !HoldsId(columns[k].candidates, activeId)
    ensures r.Some? ==> r.value.candidate.id == activeId
    ensures r.Some? ==>
      var k := FirstColumnWith(columns, activeId);
      && k < |columns| && r.value.columnId == columns[k].id
      && r.value.candidate == columns[k].candidates[FirstWithId(columns[k].candidates, activeId)]
  {
    var k := FirstColumnWith(columns, activeId);
    if k < |columns| then
      var found := FindById(columns[k].candidates, activeId);
      Some(Source(columns[k].id, found.value))
    else None
  }

  /** `parseInt` read as a JavaScript number: NaN when no digits are found. */
  function ToColumnNumber(parsed: Option<int>): ColumnNumber {
    match parsed
    case None => NotANumber
    case Some(n) => Num(n)
  }

  /**
   * The column the drop lands in: for an identity `column-<x>`, the number
   * `parseInt` reads from `<x>` (NaN included); otherwise the id of the first
   * column holding a candidate with the target identity, and `None` when none does.
   */
  function ResolveTarget(columns: seq<KanbanColumn>, overId: string): (r: Option<ColumnNumber>)
    ensures StartsWith(overId, ColumnPrefix) ==> r == Some(ToColumnNumber(ParseInt(overId[|ColumnPrefix|..])))
    ensures !StartsWith(overId, ColumnPrefix) ==>
      if FirstColumnWith(columns, overId) < |columns|
      then r == Some(Num(columns[FirstColumnWith(columns, overId)].id))
      else r == None
  {
    if StartsWith(overId, ColumnPrefix) then
      // `overId.replace('column-', '')` removes the first occurrence, which is the prefix.
      Some(ToColumnNumber(ParseInt(overId[|ColumnPrefix|..])))
    else
      var k := FirstColumnWith(columns, overId);
      if k < |columns| then Some(Num(columns[k].id)) else None
  }

  /** A move the handler decides to make: what it moves, from where, to where. */
  datatype Plan = Plan(candidate: CandidateWithId, sourceColumnId: int, targetColumnId: ColumnNumber)

  /**
   * The guards of `handleDragEnd`: a move is made exactly when there is a
   * drop target, it is not the dragged element itself, the dragged candidate
   * is on the board, a target column resolves, and it differs from the source
   * column (a NaN target always differs).
   */
  function DragEndPlan(event: DragEndEvent, columns: seq<KanbanColumn>): (r: Option<Plan>)
    ensures r.Some? <==>
      && event.over.Some?
      && event.active.id != event.over.value.id
      && SourceOf(columns, event.active.id).Some?
      && ResolveTarget(columns, event.over.value.id).Some?
      && ResolveTarget(columns, event.over.value.id).value != Num(SourceOf(columns, event.active.id).value.columnId)
    ensures r.Some? ==>
      && r.value.candidate == SourceOf(columns, event.active.id).value.candidate
      && r.value.candidate.id == event.active.id
      && r.value.sourceColumnId == SourceOf(columns, event.active.id).value.columnId
      && r.value.targetColumnId == ResolveTarget(columns, event.over.value.id).value
      && r.value.targetColumnId != Num(r.value.sourceColumnId)
  {
    match event.over
    case None => None
    case Some(over) =>
      if event.active.id == over.id then None
      else
        match SourceOf(columns, event.active.id)
        case None => None
        case Some(source) =>
          match ResolveTarget(columns, over.id)
          case None => None
          case Some(target) =>
            if target == Num(source.columnId) then None
            else Some(Plan(source.candidate, source.columnId, target))
  }

  /**
   * The first loop of `handleDragEnd`: the first column in which
   * `find` succeeds gives the source column id and the candidate.
   */
  method FindSourceColumn(columns: seq<KanbanColumn>, activeId: string)
    returns (sourceColumnId: Option<int>, candidate: Option<CandidateWithId>)
    ensures SourceOf(columns, activeId).None? ==> sourceColumnId.None? && candidate.None?
    ensures SourceOf(columns, activeId).Some? ==>
      sourceColumnId == Some(SourceOf(columns, activeId).value.columnId)
      && candidate == Some(SourceOf(columns, activeId).value.candidate)
  {
    sourceColumnId, candidate := None, None;
    var i := 0;
    while i < |columns|
      invariant 0 <= i <= |columns|
      invariant forall k :: 0 <= k < i ==> !HoldsId(columns[k].candidates, activeId)
    {
      var foundCandidate := FindById(columns[i].candidates, activeId);
      if foundCandidate.Some? {
        candidate := foundCandidate;
        sourceColumnId := Some(columns[i].id);
        assert FirstColumnWith(columns, activeId) == i by {
          FirstColumnWithIsFirst(columns, activeId, i);
        }
        return;
      }
      i := i + 1;
    }
    FirstColumnWithIsFirst(columns, activeId, |columns|);
  }

  /**
   * The target lookup of `handleDragEnd`: parse the number after `column-`,
   * or else scan for the first column holding the target identity.
   */
  method FindTargetColumn(columns: seq<KanbanColumn>, overId: string) returns (targetColumnId: Option<ColumnNumber>)
    ensures targetColumnId == ResolveTarget(columns, overId)
  {
    targetColumnId := None;
    if StartsWith(overId, ColumnPrefix) {
      targetColumnId := Some(ToColumnNumber(ParseInt(overId[|ColumnPrefix|..])));
    } else {
      var i := 0;
      while i < |columns|
        invariant 0 <= i <= |columns|
        invariant forall k :: 0 <= k < i ==> !HoldsId(columns[k].candidates, overId)
      {
        if HoldsId(columns[i].candidates, overId) {
          targetColumnId := Some(Num(columns[i].id));
          FirstColumnWithIsFirst(columns, overId, i);
          return;
        }
        i := i + 1;
      }
      FirstColumnWithIsFirst(columns, overId, |columns|);
    }
  }

  /** Any position before which no column holds the identity, and at which one does (or the end), is the first. */
  lemma {:induction false} FirstColumnWithIsFirst(columns: seq<KanbanColumn>, id: string, i: int)
    requires 0 <= i <= |columns|
    requires forall k :: 0 <= k < i ==> !HoldsId(columns[k].candidates, id)
    requires i < |columns| ==> HoldsId(columns[i].candidates, id)
    ensures FirstColumnWith(columns, id) == i
  {
    if columns != [] && i > 0 {
      assert !HoldsId(columns[0].candidates, id);
      forall k | 0 <= k < i - 1 ensures !HoldsId(columns[1..][k].candidates, id) {
        assert columns[1..][k] == columns[k + 1];
      }
      FirstColumnWithIsFirst(columns[1..], id, i - 1);
    }
  }

  /** A drop on a column's droppable identity `column-<id>` resolves to that column. */
  lemma DropOnColumnResolves(columns: seq<KanbanColumn>, id: int)
    ensures ResolveTarget(columns, ColumnPrefix + IntToString(id)) == Some(Num(id))
  {
    var overId := ColumnPrefix + IntToString(id);
    assert overId[..|ColumnPrefix|] == ColumnPrefix;
    assert overId[|ColumnPrefix|..] == IntToString(id) + [];
    ParseIntOfIntToString(id, []);
  }

  /**
   * On a well-formed board, a planned move onto an existing column takes the
   * dragged candidate out of its column and appends it to the target column,
   * leaving the other columns as they were.
   */
  lemma PlannedMoveTransfers(event: DragEndEvent, columns: seq<KanbanColumn>, t: int)
    requires WellFormed(columns) && DragEndPlan(event, columns).Some?
    requires 0 <= t < |columns| && DragEndPlan(event, columns).value.targetColumnId == Num(columns[t].id)
    ensures var plan := DragEndPlan(event, columns).value;
      var s := FirstColumnWith(columns, event.active.id);
      && s < |columns| && s != t && columns[s].id == plan.sourceColumnId
      && plan.candidate in columns[s].candidates
      && var r := MoveCandidate(columns, event.active.id, plan.sourceColumnId, plan.targetColumnId);
         && |r| == |columns|
         && r[t].candidates == columns[t].candidates + [plan.candidate]
         && plan.candidate !in r[s].candidates
         && forall k :: 0 <= k < |columns| && k != s && k != t ==> r[k] == columns[k]
  {
    var plan := DragEndPlan(event, columns).value;
    var s := FirstColumnWith(columns, event.active.id);
    var p := FirstWithId(columns[s].candidates, event.active.id);
    assert plan.candidate == columns[s].candidates[p];
    MoveEffect(columns, s, t, p);
    var cs := columns[s].candidates;
    assert plan.candidate !in cs[..p] + cs[p + 1..] by {
      if plan.candidate in cs[..p] + cs[p + 1..] {
        RemovedAt(cs, p, plan.candidate);
      }
    }
  }

  /** The request still awaiting its result, with the board as it was before the move. */
  datatype PendingUpdate = PendingUpdate(request: UpdateCandidateStageRequest, snapshot: seq<KanbanColumn>)

  /** The state the handler reads and writes: the board and its two flags. */
  class DragAndDropHook {
    var columns: seq<KanbanColumn>
    var isDragging: bool
    var dragError: Option<string>
    /** Error-clearing timers armed and not yet fired. */
    var armedTimers: nat

    constructor(columns: seq<KanbanColumn>)
      ensures this.columns == columns && !isDragging && dragError == None && armedTimers == 0
    {
      this.columns := columns;
      isDragging := false;
      dragError := None;
      armedTimers := 0;
    }

    /**
     * `handleDragEnd` up to its `await`: clears the flags, runs the guards and,
     * when they pass, applies the move to the board at once and returns the
     * request it sends together with the board it saw.
     */
    method HandleDragEnd(event: DragEndEvent) returns (pending: Option<PendingUpdate>)
      modifies this
      ensures !isDragging && dragError == None && armedTimers == old(armedTimers)
      ensures pending.None? <==> DragEndPlan(event, old(columns)).None?
      ensures pending.None? ==> columns == old(columns)
      ensures pending.Some? ==>
        var plan := DragEndPlan(event, old(columns)).value;
        && columns == MoveCandidate(old(columns), event.active.id, plan.sourceColumnId, plan.targetColumnId)
        && pending.value.request == UpdateCandidateStageRequest(plan.candidate.applicationId, plan.targetColumnId)
        && pending.value.snapshot == old(columns)
    {
      isDragging := false;
      dragError := None;
      pending := None;
      if event.over.None? {
        return;
      }
      var activeId := event.active.id;
      var overId := event.over.value.id;
      if activeId == overId {
        return;
      }
      var sourceColumnId, candidate := FindSourceColumn(columns, activeId);
      if candidate.None? || sourceColumnId.None? {
        return;
      }
      var targetColumnId := FindTargetColumn(columns, overId);
      if targetColumnId.None? || targetColumnId.value == Num(sourceColumnId.value) {
        return;
      }
      var snapshot := columns;
      var updatedColumns := MoveCandidateBetweenColumns(columns, activeId, sourceColumnId.value, targetColumnId.value);
      columns := updatedColumns;
      pending := Some(PendingUpdate(
        UpdateCandidateStageRequest(candidate.value.applicationId, targetColumnId.value), snapshot));
    }

    /**
     * The rest of `handleDragEnd` once the request settles: a success leaves
     * the optimistic board; a failure sets the error message, restores the
     * board seen before the move and arms the clearing timer.
     */
    method PersistSettled(pending: PendingUpdate, succeeded: bool)
      modifies this
      ensures isDragging == old(isDragging)
      ensures succeeded ==> columns == old(columns) && dragError == old(dragError) && armedTimers == old(armedTimers)
      ensures !succeeded ==>
        columns == pending.snapshot && dragError == Some(RevertMessage) && armedTimers == old(armedTimers) + 1
    {
      if !succeeded {
        dragError := Some(RevertMessage);
        columns := pending.snapshot;
        armedTimers := armedTimers + 1;
      }
    }

    /** One armed timer fires and clears the error, whichever error is showing. */
    method TimerFires()
      requires armedTimers > 0
      modifies this
      ensures dragError == None && armedTimers == old(armedTimers) - 1
      ensures columns == old(columns) && isDragging == old(isDragging)
    {
      dragError := None;
      armedTimers := armedTimers - 1;
    }
  }

  /**
   * A drag whose request fails leaves the board exactly as it was before the
   * drag, with the revert message showing until the timer fires.
   */
  method FailedDragReverts(hook: DragAndDropHook, event: DragEndEvent)
    modifies hook
    ensures hook.columns == old(hook.columns) && hook.dragError.None? && hook.armedTimers == old(hook.armedTimers)
  {
    var pending := hook.HandleDragEnd(event);
    if pending.Some? {
      hook.PersistSettled(pending.value, false);
      assert hook.columns == old(hook.columns) && hook.dragError == Some(RevertMessage);
      hook.TimerFires();
    }
  }
}
