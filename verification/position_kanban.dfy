/**
 * Loading a position's board (frontend/src/hooks/usePositionKanban.ts).
 *
 * `fetchKanbanData` is split at its `await`: `BeginFetch` runs the guard and
 * raises the loading flag; `CompleteFetch` receives the outcome of the two
 * parallel requests and runs the pipeline validate, normalise, build columns,
 * distribute. The outcome, the sanitiser and the clock/random draws are inputs.
 */
module PositionKanban {
  import opened KanbanTypes
  import opened StableSort
  import opened CandidateCardFactory
  import opened KanbanColumnFactory

  const MissingIdMessage: string := "Position ID is required"
  const FallbackLoadMessage: string := "Failed to load kanban data"

  /** What a rejected request throws: an `Error` with its message, or any other value. */
  datatype Thrown = ErrorObject(message: string) | NonError

  /** The text shown for a failed load: the error's message, or a fixed text for a non-`Error`. */
  function LoadErrorMessage(thrown: Thrown): (message: string)
    ensures thrown.ErrorObject? ==> message == thrown.message
    ensures thrown.NonError? ==> message == FallbackLoadMessage
  {
    match thrown
    case ErrorObject(m) => m
    case NonError => FallbackLoadMessage
  }

  function StepName(step: InterviewStep): string { step.name }

  /** `candidatesData.filter(validateCandidate)`. */
  function FilterValid(raw: seq<Candidate>): (valid: seq<Candidate>)
    ensures |valid| <= |raw|
    ensures forall i :: 0 <= i < |valid| ==> ValidateCandidate(valid[i])
    ensures forall i :: 0 <= i < |valid| ==> valid[i].fullName.Some? && valid[i].currentInterviewStep.Some?
  {
    if raw == [] then []
    else
      var last := raw[|raw| - 1];
      FilterValid(raw[..|raw| - 1]) + (if ValidateCandidate(last) then [last] else [])
  }

  /** The filter keeps exactly the valid records. */
  lemma {:induction false} FilterValidMembers(raw: seq<Candidate>, c: Candidate)
    ensures c in FilterValid(raw) <==> c in raw && ValidateCandidate(c)
  {
    if raw != [] {
      FilterValidMembers(raw[..|raw| - 1], c);
      assert raw == raw[..|raw| - 1] + [raw[|raw| - 1]];
    }
  }

  lemma ConcatAssoc<T>(x: seq<T>, y: seq<T>, z: seq<T>)
    ensures (x + y) + z == x + (y + z)
  {
  }

  /** One more record at the end is kept iff it is valid. */
  lemma FilterValidSnoc(init: seq<Candidate>, x: Candidate)
    ensures FilterValid(init + [x]) == FilterValid(init) + if ValidateCandidate(x) then [x] else []
  {
    assert (init + [x])[..|init|] == init;
  }

  /**
   * The filter keeps the valid records in their input order: it distributes
   * over concatenation, and a single record is kept iff it is valid. These two
   * laws determine the filter on every input.
   */
  lemma {:induction false} FilterValidKeepsOrder(a: seq<Candidate>, b: seq<Candidate>)
    ensures FilterValid(a + b) == FilterValid(a) + FilterValid(b)
    ensures forall c :: FilterValid([c]) == if ValidateCandidate(c) then [c] else []
  {
    if b == [] {
      assert a + b == a;
    } else {
      var init, last := b[..|b| - 1], b[|b| - 1];
      assert b == init + [last];
      assert a + b == (a + init) + [last];
      FilterValidKeepsOrder(a, init);
      FilterValidSnoc(a + init, last);
      FilterValidSnoc(init, last);
      var front, middle, kept := FilterValid(a), FilterValid(init), if ValidateCandidate(last) then [last] else [];
      assert FilterValid(a + b) == (front + middle) + kept;
      assert FilterValid(b) == middle + kept;
      ConcatAssoc(front, middle, kept);
    }
    forall c ensures FilterValid([c]) == if ValidateCandidate(c) then [c] else [] {
      FilterValidSnoc([], c);
      assert [] + [c] == [c];
    }
  }

  /** Each valid record survives as often as it occurs in the input; invalid ones never do. */
  lemma {:induction false} FilterValidCounts(raw: seq<Candidate>, c: Candidate)
    ensures multiset(FilterValid(raw))[c] == if ValidateCandidate(c) then multiset(raw)[c] else 0
  {
    if raw != [] {
      var init, last := raw[..|raw| - 1], raw[|raw| - 1];
      assert raw == init + [last];
      FilterValidCounts(init, c);
      FilterValidSnoc(init, last);
    }
  }

  /**
   * The board a successful load shows. The steps the candidates are matched
   * against are the flow's steps after `createColumns` has sorted them in place.
   */
  function BuildBoard(steps: seq<InterviewStep>, raw: seq<Candidate>,
                      sanitize: string -> string, draws: nat -> Entropy): (board: seq<KanbanColumn>)
    ensures |board| <= |steps|
  {
    Organize(BuildColumns(steps),
             CreateMultipleCandidates(FilterValid(raw), SortBy(steps, StepOrder), sanitize, draws))
  }

  /**
   * Every candidate on a loaded board was made from a record that passed
   * validation: the record at some position `i` of the valid records,
   * normalised with the `i`-th draws.
   */
  lemma NoInvalidCandidateOnBoard(steps: seq<InterviewStep>, raw: seq<Candidate>,
                                  sanitize: string -> string, draws: nat -> Entropy,
                                  column: KanbanColumn, x: CandidateWithId)
    requires column in BuildBoard(steps, raw, sanitize, draws) && x in column.candidates
    ensures exists i :: (0 <= i < |FilterValid(raw)|
      && FilterValid(raw)[i] in raw && ValidateCandidate(FilterValid(raw)[i])
      && x == NormalizeAt(FilterValid(raw)[i], i, SortBy(steps, StepOrder), sanitize, draws))
  {
    var valid := FilterValid(raw);
    var made := CreateMultipleCandidates(valid, SortBy(steps, StepOrder), sanitize, draws);
    OrganizeMembership(BuildColumns(steps), made, column, x);
    var i :| 0 <= i < |made| && made[i] == x;
    FilterValidMembers(raw, valid[i]);
  }

  /**
   * A loaded board is in ascending `orderIndex`; each of its columns is named
   * after an interview step and holds exactly the normalised candidates whose
   * stage is that name; with distinct step names there is one column per step.
   */
  lemma BoardShape(steps: seq<InterviewStep>, raw: seq<Candidate>,
                   sanitize: string -> string, draws: nat -> Entropy)
    ensures SortedBy(BuildBoard(steps, raw, sanitize, draws), ColumnOrder)
    ensures forall column :: column in BuildBoard(steps, raw, sanitize, draws) ==>
      && (exists i :: 0 <= i < |steps| && steps[i].name == column.name)
      && column.candidates == InStage(CreateMultipleCandidates(FilterValid(raw), SortBy(steps, StepOrder), sanitize, draws), column.name)
    ensures (forall i, j :: 0 <= i < j < |steps| ==> steps[i].name != steps[j].name) ==>
      |BuildBoard(steps, raw, sanitize, draws)| == |steps|
  {
    var made := CreateMultipleCandidates(FilterValid(raw), SortBy(steps, StepOrder), sanitize, draws);
    OrganizeIsSorted(BuildColumns(steps), made);
    StepColumnsPlacement(steps, made);
    if forall i, j :: 0 <= i < j < |steps| ==> steps[i].name != steps[j].name {
      StepColumnsCount(steps, made);
    }
  }

  /** Each column organised from the steps' columns is named after a step and holds its stage's candidates. */
  lemma StepColumnsPlacement(steps: seq<InterviewStep>, made: seq<CandidateWithId>)
    ensures forall column :: column in Organize(BuildColumns(steps), made) ==>
      && (exists i :: 0 <= i < |steps| && steps[i].name == column.name)
      && column.candidates == InStage(made, column.name)
  {
    var columns := BuildColumns(steps);
    var sorted := SortBy(steps, StepOrder);
    SortByIsPermutation(steps, StepOrder);
    forall column | column in Organize(columns, made)
      ensures exists i :: 0 <= i < |steps| && steps[i].name == column.name
      ensures column.candidates == InStage(made, column.name)
    {
      OrganizePlacement(columns, made, column);
      var k :| 0 <= k < |columns| && columns[k].name == column.name;
      assert sorted[k] in multiset(steps);
      var i :| 0 <= i < |steps| && steps[i] == sorted[k];
    }
  }

  /** With distinct step names, organising keeps one column per step. */
  lemma StepColumnsCount(steps: seq<InterviewStep>, made: seq<CandidateWithId>)
    requires forall i, j :: 0 <= i < j < |steps| ==> steps[i].name != steps[j].name
    ensures |Organize(BuildColumns(steps), made)| == |steps|
  {
    DistinctNamesStayDistinct(steps);
    NameOrderDistinct(BuildColumns(steps));
    OrganizeNames(BuildColumns(steps), made);
  }

  /** Sorting the steps keeps their names distinct, so their columns' names are distinct. */
  lemma DistinctNamesStayDistinct(steps: seq<InterviewStep>)
    requires forall i, j :: 0 <= i < j < |steps| ==> steps[i].name != steps[j].name
    ensures forall i, j :: 0 <= i < j < |BuildColumns(steps)| ==> BuildColumns(steps)[i].name != BuildColumns(steps)[j].name
  {
    var sorted := SortBy(steps, StepOrder);
    SortByIsPermutation(steps, StepOrder);
    assert forall a, b :: 0 <= a < b < |steps| ==> StepName(steps[a]) != StepName(steps[b]);
    forall i, j | 0 <= i < j < |sorted| ensures sorted[i].name != sorted[j].name {
      DistinctNamesInPermutation(steps, sorted, StepName, i, j);
    }
  }

  /** The hook's state: the board, the position's name and the two status flags. */
  class PositionKanbanHook {
    const positionId: string
    var columns: seq<KanbanColumn>
    var positionName: string
    var loading: bool
    var error: Option<string>

    /** The state before the first load: an empty board, loading, no error. */
    constructor(positionId: string)
      ensures this.positionId == positionId
      ensures columns == [] && positionName == "" && loading && error == None
    {
      this.positionId := positionId;
      columns := [];
      positionName := "";
      loading := true;
      error := None;
    }

    /**
     * `fetchKanbanData` up to its `await`: with an empty position id it
     * reports the missing id, stops loading and fetches nothing; otherwise it
     * starts loading with the error cleared and the requests go out.
     */
    method BeginFetch() returns (fetching: bool)
      modifies this
      ensures fetching <==> positionId != ""
      ensures !fetching ==> error == Some(MissingIdMessage) && !loading
      ensures fetching ==> error == None && loading
      ensures columns == old(columns) && positionName == old(positionName)
    {
      if positionId == "" {
        error := Some(MissingIdMessage);
        loading := false;
        return false;
      }
      loading := true;
      error := None;
      return true;
    }

    /**
     * The rest of `fetchKanbanData` once both requests have settled. On
     * success it shows the position's name and the board built from the flow's
     * steps and the valid candidates; on failure it shows the error and keeps
     * the previous board. Loading stops either way.
     */
    method CompleteFetch(outcome: Result<(PositionInterviewFlow, seq<Candidate>), Thrown>,
                         sanitize: string -> string, draws: nat -> Entropy)
      modifies this
      ensures !loading
      ensures outcome.Success? ==>
        var (flowData, candidatesData) := outcome.value;
        && positionName == flowData.positionName
        && columns == BuildBoard(flowData.interviewFlow.interviewSteps, candidatesData, sanitize, draws)
        && error == old(error)
      ensures outcome.Failure? ==>
        && error == Some(LoadErrorMessage(outcome.error))
        && columns == old(columns) && positionName == old(positionName)
    {
      match outcome {
        case Success((interviewFlowData, candidatesData)) =>
          positionName := interviewFlowData.positionName;
          var steps := interviewFlowData.interviewFlow.interviewSteps;
          var interviewSteps := new InterviewStep[|steps|](i requires 0 <= i < |steps| => steps[i]);
          assert interviewSteps[..] == steps;
          var kanbanColumns := CreateColumns(interviewSteps);
          var validCandidates := FilterValid(candidatesData);
          var candidatesWithIds := CreateMultipleCandidates(validCandidates, interviewSteps[..], sanitize, draws);
          var organizedColumns := OrganizeCandidatesIntoColumns(kanbanColumns, candidatesWithIds);
          columns := organizedColumns;
        case Failure(thrown) =>
          error := Some(LoadErrorMessage(thrown));
      }
      loading := false;
    }
  }

  /**
   * A whole load attempt: loading is false afterwards whatever happened. A
   * missing id reports itself; a failed request shows its error; in both
   * cases the board and the name stay as they were. A successful load shows
   * the position's name and the board built from the fetched data.
   */
  method FetchKanbanData(hook: PositionKanbanHook, outcome: Result<(PositionInterviewFlow, seq<Candidate>), Thrown>,
                         sanitize: string -> string, draws: nat -> Entropy)
    modifies hook
    ensures !hook.loading
    ensures hook.positionId == "" ==>
      && hook.error == Some(MissingIdMessage)
      && hook.columns == old(hook.columns) && hook.positionName == old(hook.positionName)
    ensures hook.positionId != "" && outcome.Failure? ==>
      && hook.error == Some(LoadErrorMessage(outcome.error))
      && hook.columns == old(hook.columns) && hook.positionName == old(hook.positionName)
    ensures hook.positionId != "" && outcome.Success? ==>
      && hook.error == None
      && hook.positionName == outcome.value.0.positionName
      && hook.columns == BuildBoard(outcome.value.0.interviewFlow.interviewSteps, outcome.value.1, sanitize, draws)
  {
    var fetching := hook.BeginFetch();
    if fetching {
      hook.CompleteFetch(outcome, sanitize, draws);
    }
  }
}
