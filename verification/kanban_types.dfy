/**
 * The records of the Kanban board (frontend/src/types/kanban.types.ts) and the
 * few JavaScript value shapes the core has to distinguish.
 */
module KanbanTypes {

  datatype Option<+T> = None | Some(value: T)

  datatype Result<+R, +E> = Success(value: R) | Failure(error: E)

  /** One step of a position's interview flow; `orderIndex` orders the columns. */
  datatype InterviewStep = InterviewStep(
    id: int,
    interviewFlowId: int,
    interviewTypeId: int,
    name: string,
    orderIndex: int)

  datatype InterviewFlow = InterviewFlow(id: int, description: string, interviewSteps: seq<InterviewStep>)

  datatype PositionInterviewFlow = PositionInterviewFlow(positionName: string, interviewFlow: InterviewFlow)

  /**
   * A JavaScript value received where a number is expected: a finite number,
   * one of the non-finite numbers, or something whose `typeof` is not 'number'.
   */
  datatype ScoreValue = Finite(value: real) | NaN | PositiveInfinity | NegativeInfinity | NonNumber

  /**
   * A candidate as the API sends it. A missing (`undefined`/`null`) string field
   * is `None`; `applicationId` and `candidateId` are optional in the declaration.
   */
  datatype Candidate = Candidate(
    fullName: Option<string>,
    currentInterviewStep: Option<string>,
    averageScore: ScoreValue,
    applicationId: Option<int>,
    candidateId: Option<int>)

  /**
   * A normalised candidate: a string drag identity, a numeric `applicationId`
   * and a resolved `interviewStepId` are always present.
   */
  datatype CandidateWithId = CandidateWithId(
    id: string,
    applicationId: int,
    fullName: string,
    currentInterviewStep: string,
    averageScore: real,
    interviewStepId: int)

  /** Some candidate of the list has the given drag identity (`candidates.some(...)`). */
  predicate HoldsId(candidates: seq<CandidateWithId>, id: string) {
    exists j :: 0 <= j < |candidates| && candidates[j].id == id
  }

  /** A stage column: numeric id, name, order and the ordered candidates in it. */
  datatype KanbanColumn = KanbanColumn(id: int, name: string, orderIndex: int, candidates: seq<CandidateWithId>)

  /**
   * A JavaScript number used as a column id. Column ids are integers; the only
   * other value the core can produce is the NaN of a failed `parseInt`.
   */
  datatype ColumnNumber = Num(value: int) | NotANumber

  /** The body of the stage-update request: application and target step id. */
  datatype UpdateCandidateStageRequest = UpdateCandidateStageRequest(applicationId: int, currentInterviewStep: ColumnNumber)

  /** What the dragged element carries (`active.data.current`), when anything. */
  datatype ActiveData = ActiveData(candidate: CandidateWithId, columnId: int)

  datatype Active = Active(id: string, data: Option<ActiveData>)

  /** The drop target; `data` holds the column id when the target is a column. */
  datatype Over = Over(id: string, data: Option<int>)

  /** A drag-end event always names the dragged element; the drop target may be null. */
  datatype DragEndEvent = DragEndEvent(active: Active, over: Option<Over>)

  /** The sort key of an interview step. */
  function StepOrder(step: InterviewStep): int { step.orderIndex }

  /** The sort key of a column. */
  function ColumnOrder(column: KanbanColumn): int { column.orderIndex }
}
