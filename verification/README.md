# Kanban board core of the recruiting frontend, modelled in Dafny

The recruiting application shows every position as a Kanban board. The board
has one column per interview step, and candidates are dragged between columns
to change their stage. This project models the frontend core behind that board:

- **`CandidateCardFactory`** validates raw candidate records and normalises them.
  - It trims and sanitises the name and the stage, and clamps the score into [0, 10].
  - It resolves the interview step id from the stage name.
  - It builds a drag identity `candidate-<applicationId>-<now>-<random>`.
- **`KanbanColumnFactory`** works on columns.
  - It builds one empty column per interview step, sorted by `orderIndex`.
  - It distributes candidates into the column named by their stage.
  - It replaces one column's candidates.
  - It moves a candidate from one column to another.
- **`useDragAndDrop`** handles the end of a drag. It checks the guards, resolves the source and target columns, moves the candidate optimistically, sends the stage-update request, and on failure reverts the board and shows an error for three seconds.
- **`usePositionKanban`** loads a position's board. It fetches the interview flow and the candidates, then runs validation, normalisation, column building and distribution.

There is one module per source file, named after it with the hooks' `use` prefix dropped: `CandidateCardFactory`, `KanbanColumnFactory`, `DragAndDrop`, `PositionKanban`, and `KanbanTypes` for the records of `kanban.types.ts`. Two more modules have no source file of their own: `JsBuiltins` writes out the JavaScript built-ins the core calls, and `StableSort` the stable sort behind `Array.prototype.sort`.

**Pure code and imperative code**
- Pure code becomes functions and lemmas.
- Code that changes state step by step becomes methods with loops. Each such method is proved equal to a specification function.
- `createColumns` sorts the caller's array in place. `CreateColumns` therefore takes an `array` and sorts it with a stable insertion sort. `StableSort` proves that sort stable, sorted, and a permutation; any stable sort of the same input gives the same result.
- The two hooks are classes holding the React state they read and write: `DragAndDropHook` and `PositionKanbanHook`.

**Splitting at `await`**
Each hook method is split at its `await`:
- `HandleDragEnd` returns the request it sends, together with the board it saw. `PersistSettled` then runs with the request's outcome.
- `TimerFires` is the three-second timer that clears the error.
- `BeginFetch` runs the guard. `CompleteFetch` receives the outcome of the two parallel requests.

**Inputs supplied by the caller**
- The HTML sanitiser is a caller-supplied `sanitize: string -> string`.
- `Date.now()` and `Math.random()` are caller-supplied draws `draws: nat -> Entropy`, one per candidate.
- The HTTP requests are caller-supplied outcomes.

JavaScript built-ins used by the core are written out in `JsBuiltins`: `trim`, `startsWith`, decimal rendering of integers, and `parseInt`.

**Behaviour the model keeps as the code has it**
- **The steps are sorted in place.** `createColumns` sorts the flow's step array in place. Step ids are then resolved against the *sorted* steps: the first step in `orderIndex` order with a matching name wins.
- **Duplicate step names collapse.** Distribution keys columns by name in a `Map`. Two steps with the same name become one column. The map entry keeps the name's first insertion position, but holds the last step's id and `orderIndex`; on the board the merged column is placed by that last `orderIndex` (`OrganizePlacement`, `OrganizeIsSorted`), and the first insertion position only breaks ties between equal `orderIndex` values (`NameOrderFirstOccurrence`). So the board has one column per distinct name. A board with one column per step needs distinct step names; `OrganizeNames` and `OrganizeDistinctNames` state both cases.
- **A move removes every match.** It removes *every* candidate with the dragged id from *every* column with the source id. It moves the last one removed, and appends it to every column with the target id.
- **A `column-<x>` target that does not parse deletes the candidate.** For such a target, `parseInt` yields NaN. NaN passes the handler's guard and equals no column id, so the move deletes the candidate from the board (`MoveToMissingTargetDrops`). The request is sent with NaN as the step id.
- **`isDragging` is never raised.** The drag hook sets `isDragging` to `false` and never to `true`.

## Model

| member | source | states |
|---|---|---|
| KanbanColumnFactory.CreateColumn | frontend/src/factories/KanbanColumnFactory.ts:11-18 | a column carries its step's id, name and orderIndex and no candidates |
| KanbanColumnFactory.ColumnsOf | frontend/src/factories/KanbanColumnFactory.ts:26 | mapping steps to columns keeps length and order, column `i` made from step `i` |
| KanbanColumnFactory.CreateColumns | frontend/src/factories/KanbanColumnFactory.ts:23-27 | the caller's step array ends up stably sorted by orderIndex, and the result has one empty column per step of that sorted order |
| KanbanColumnFactory.ColumnsOfWithKey | frontend/src/factories/KanbanColumnFactory.ts:24-26 | the columns with a given orderIndex are those made from the steps with that orderIndex, in the same order |
| KanbanColumnFactory.BuildColumns | frontend/src/factories/KanbanColumnFactory.ts:23-27 | reference definition of what `createColumns` returns: one empty column per step (its properties are in `BuildColumnsSpec`) |
| KanbanColumnFactory.BuildColumnsSpec | frontend/src/factories/KanbanColumnFactory.ts:23-27 | one column per step, ascending orderIndex, steps with equal orderIndex keep their input order, every column empty |
| KanbanColumnFactory.InStageMembers | frontend/src/factories/KanbanColumnFactory.ts:47-50 | a candidate is in a stage's list iff it is an input candidate whose stage is that name |
| KanbanColumnFactory.NameOrder | frontend/src/factories/KanbanColumnFactory.ts:37-44 | the map's keys in insertion order: every column name exactly once, at most as many as columns |
| KanbanColumnFactory.NameOrderFirstOccurrence | frontend/src/factories/KanbanColumnFactory.ts:37-44 | `Map.set` on an existing key keeps its position: the keys come in the order in which their names first occur among the columns |
| KanbanColumnFactory.LastNamed | frontend/src/factories/KanbanColumnFactory.ts:39-44 | the value a name keeps after all `set` calls is an input column with that name |
| KanbanColumnFactory.LastNamedIsLast | frontend/src/factories/KanbanColumnFactory.ts:39-44 | that value is the last input column with the name: the last `set` wins |
| KanbanColumnFactory.EmptyColumnMap | frontend/src/factories/KanbanColumnFactory.ts:37-44 | the map holds exactly the column names; each name maps to the last column with it, emptied; keys come in first-insertion order |
| KanbanColumnFactory.PushCandidates | frontend/src/factories/KanbanColumnFactory.ts:47-56 | after the pushes each entry holds exactly its stage's candidates in input order, and no key is added |
| KanbanColumnFactory.Organize | frontend/src/factories/KanbanColumnFactory.ts:32-62 | reference definition of what `organizeCandidatesIntoColumns` returns, one column per distinct name (its properties are in `OrganizeIsSorted`, `OrganizePlacement`, `OrganizeMembership`, `OrganizeDropsUnmatched` and `OrganizeNames`) |
| KanbanColumnFactory.OrganizeCandidatesIntoColumns | frontend/src/factories/KanbanColumnFactory.ts:32-62 | the method returns the map's values, filled and sorted by orderIndex, as specified by `Organize` |
| KanbanColumnFactory.OrganizeIsSorted | frontend/src/factories/KanbanColumnFactory.ts:59-61 | the organised columns are in ascending orderIndex |
| KanbanColumnFactory.OrganizePlacement | frontend/src/factories/KanbanColumnFactory.ts:39-56 | every organised column is the last input column with its name, holding exactly its stage's candidates in input order; earlier contents are discarded |
| KanbanColumnFactory.OrganizeMembership | frontend/src/factories/KanbanColumnFactory.ts:47-56 | a candidate is in an organised column iff it is an input candidate whose stage equals the column name exactly |
| KanbanColumnFactory.OrganizeDropsUnmatched | frontend/src/factories/KanbanColumnFactory.ts:48-55 | a candidate whose stage names no column appears in no column |
| KanbanColumnFactory.OrganizeNames | frontend/src/factories/KanbanColumnFactory.ts:37-61 | one organised column per distinct input name, with the same set of names and no name twice |
| KanbanColumnFactory.OrganizeDistinctNames | frontend/src/factories/KanbanColumnFactory.ts:32-62 | with distinct names, the result is the input columns, each filled with its stage's candidates, then sorted |
| KanbanColumnFactory.NameOrderDistinct | frontend/src/factories/KanbanColumnFactory.ts:39-44 | with distinct names, the map's keys are the column names in input order |
| KanbanColumnFactory.LastNamedDistinct | frontend/src/factories/KanbanColumnFactory.ts:39-44 | with distinct names, each name keeps its own column |
| KanbanColumnFactory.UpdateColumnCandidates | frontend/src/factories/KanbanColumnFactory.ts:67-77 | columns with the id get the new list, all other columns are unchanged, and no id, name or order changes |
| KanbanColumnFactory.UpdateColumnCandidatesLaws | frontend/src/factories/KanbanColumnFactory.ts:67-77 | writing back a column's own list is the identity, and a second update of a column overrides the first |
| KanbanColumnFactory.WithoutMembers | frontend/src/factories/KanbanColumnFactory.ts:93-99 | the filter keeps exactly the candidates with another id |
| KanbanColumnFactory.LengthOfWithout | frontend/src/factories/KanbanColumnFactory.ts:93-99 | filtering out an id that is present shortens the list |
| KanbanColumnFactory.LastWithId | frontend/src/factories/KanbanColumnFactory.ts:93-97 | the candidate the filter callback assigns last has the id and comes from the list; none iff no candidate has the id |
| KanbanColumnFactory.LastWithIdIsLast | frontend/src/factories/KanbanColumnFactory.ts:93-97 | no candidate after it has the id: the last assignment wins |
| KanbanColumnFactory.Taken | frontend/src/factories/KanbanColumnFactory.ts:88-103 | `candidateToMove` after the pass has the id and sits in a column with the source id |
| KanbanColumnFactory.TakenIsLast | frontend/src/factories/KanbanColumnFactory.ts:88-103 | `candidateToMove` is the last candidate with the id in the last source column holding one; no later source column holds the id |
| KanbanColumnFactory.TakenNoneIffAbsent | frontend/src/factories/KanbanColumnFactory.ts:88-109 | nothing is found iff no column with the source id holds a candidate with the id |
| KanbanColumnFactory.FilterOut | frontend/src/factories/KanbanColumnFactory.ts:93-99 | the filter loop keeps the other candidates and leaves `candidateToMove` at the last removed one (or as it was) |
| KanbanColumnFactory.MoveCandidate | frontend/src/factories/KanbanColumnFactory.ts:82-121 | reference definition of what `moveCandidateBetweenColumns` returns, with as many columns as the input (its properties are in `MoveUnchangedIffAbsent`, `MoveFrame`, `MoveEffect`, `MovePreservesWellFormed`, `MoveRoundTrip` and `MoveToMissingTargetDrops`) |
| KanbanColumnFactory.MoveCandidateBetweenColumns | frontend/src/factories/KanbanColumnFactory.ts:82-121 | the two passes return the move specified by `MoveCandidate`, including the early return of the input |
| KanbanColumnFactory.AppendToTarget | frontend/src/factories/KanbanColumnFactory.ts:111-120 | the second pass appends the taken candidate to every column whose id equals the target and leaves the others as they are (`Place`) |
| KanbanColumnFactory.MoveUnchangedIffAbsent | frontend/src/factories/KanbanColumnFactory.ts:105-109 | when no source column holds the id the board comes back unchanged, for any target; for distinct source and target, an unchanged board also means no source column holds the id |
| KanbanColumnFactory.MoveFrame | frontend/src/factories/KanbanColumnFactory.ts:91-120 | no column's id, name or order changes, and columns that are neither source nor target are untouched |
| KanbanColumnFactory.WithoutUnique | frontend/src/factories/KanbanColumnFactory.ts:93-99 | filtering out an id held once removes exactly that position |
| KanbanColumnFactory.TakenOnWellFormed | frontend/src/factories/KanbanColumnFactory.ts:88-103 | on a board with unique ids, the pass finds exactly the dragged candidate |
| KanbanColumnFactory.MoveEffect | frontend/src/factories/KanbanColumnFactory.ts:82-121 | on a board with unique ids, the candidate leaves its one position in the source, is appended to the target, and nothing else changes |
| KanbanColumnFactory.MovePreservesWellFormed | frontend/src/factories/KanbanColumnFactory.ts:82-121 | a move keeps column ids and drag identities unique and keeps the multiset of the two columns' candidates |
| KanbanColumnFactory.MoveRoundTrip | frontend/src/factories/KanbanColumnFactory.ts:82-121 | moving there and back restores every column, except that the candidate now sits at the tail of its source column |
| KanbanColumnFactory.MoveToMissingTargetDrops | frontend/src/factories/KanbanColumnFactory.ts:112-120 | a target id no column has (NaN included) turns the move into a deletion from the source columns |
| CandidateCardFactory.CandidateId | frontend/src/factories/CandidateCardFactory.ts:37 | reference definition of the drag identity `candidate-<applicationId>-<now>-<random>`, which starts with `candidate-` (its properties are in `CandidateIdDecodes` and `CandidateIdInjective`) |
| CandidateCardFactory.CandidateIdDecodes | frontend/src/factories/CandidateCardFactory.ts:37 | the drag identity starts with `candidate-`, and `parseInt` reads back the application id and the time from it |
| CandidateCardFactory.CandidateIdInjective | frontend/src/factories/CandidateCardFactory.ts:37 | distinct (application id, time, random text) give distinct identities |
| CandidateCardFactory.NormalizeScore | frontend/src/factories/CandidateCardFactory.ts:63-68 | the score is clamped into [0, 10]; NaN and non-numbers give 0; infinities clamp to the ends |
| CandidateCardFactory.ValidateCandidate | frontend/src/factories/CandidateCardFactory.ts:73-81 | reference definition of `validateCandidate`: a valid record has a non-empty name and stage (the full characterisation is `ValidateCandidateIffNonBlank`) |
| CandidateCardFactory.ValidateCandidateIffNonBlank | frontend/src/factories/CandidateCardFactory.ts:73-81 | a record is valid iff name and stage are present and each has a non-white-space character |
| CandidateCardFactory.FindStepNamed | frontend/src/factories/CandidateCardFactory.ts:28-30 | `find` returns the first step with the name, and none iff no step has it |
| CandidateCardFactory.ResolveStepId | frontend/src/factories/CandidateCardFactory.ts:28-42 | the step id is that of the first step whose name matches, and 0 when no step matches; a non-zero result always belongs to the first matching step |
| CandidateCardFactory.CreateCandidateWithId | frontend/src/factories/CandidateCardFactory.ts:13-44 | name and stage are trimmed then sanitised; the score is `NormalizeScore` of the record's score; the step id is resolved from the sanitised stage; the identity comes from the application id |
| CandidateCardFactory.ApplicationIdFor | frontend/src/factories/CandidateCardFactory.ts:55 | the record's application id unless it is missing or 0, else the random fallback in [0, 1000000) |
| CandidateCardFactory.CreateMultipleCandidates | frontend/src/factories/CandidateCardFactory.ts:49-58 | one normalised candidate per record, in order, record `i` using draw `i` |
| CandidateCardFactory.CreateMultipleApplicationIds | frontend/src/factories/CandidateCardFactory.ts:53-56 | each result keeps its record's non-zero application id, or else has one in [0, 1000000) |
| JsBuiltins.Trim | frontend/src/factories/CandidateCardFactory.ts:19-22 | reference definition of `trim()`: leading and trailing white space dropped, never longer than the input (its emptiness is characterised by `TrimEmptyIffBlank`) |
| JsBuiltins.TrimEmptyIffBlank | frontend/src/factories/CandidateCardFactory.ts:74-77 | `trim()` gives the empty string iff every character is white space |
| JsBuiltins.ParseInt | frontend/src/hooks/useDragAndDrop.ts:70 | reference definition of `parseInt` without a radix: white space, one sign, then digits (a `0x` prefix selects hexadecimal); a blank string gives NaN (its read-back property is `ParseIntOfIntToString`) |
| JsBuiltins.ParseIntOfIntToString | frontend/src/hooks/useDragAndDrop.ts:69-70 | `parseInt` reads back the decimal rendering of an integer, also when a `-` and more text follow |
| StableSort.SortByIsSorted | frontend/src/factories/KanbanColumnFactory.ts:24-25 | the sort's result is in ascending key order |
| StableSort.SortByIsPermutation | frontend/src/factories/KanbanColumnFactory.ts:24-25 | the sort's result is a permutation of its input |
| StableSort.SortByIsStable | frontend/src/factories/KanbanColumnFactory.ts:24-25 | elements with equal keys keep their input order |
| StableSort.StableSortIsUnique | frontend/src/factories/KanbanColumnFactory.ts:59-61 | any sorted sequence with the same elements per key as the input equals the sort's result |
| StableSort.SortInPlace | frontend/src/factories/KanbanColumnFactory.ts:24-25 | sorting the array in place leaves it holding the stable sort of its old contents |
| DragAndDrop.FindById | frontend/src/hooks/useDragAndDrop.ts:52 | `find` by id returns the first candidate with the id, and none iff no candidate has it |
| DragAndDrop.SourceOf | frontend/src/hooks/useDragAndDrop.ts:47-63 | the source is the first column holding the dragged id and the first such candidate in it; none iff no column holds it |
| DragAndDrop.FindSourceColumn | frontend/src/hooks/useDragAndDrop.ts:48-58 | the source loop with `break` yields the column id and candidate of `SourceOf` |
| DragAndDrop.ResolveTarget | frontend/src/hooks/useDragAndDrop.ts:66-79 | a `column-` target parses the number after the prefix (NaN included); otherwise it is the first column holding the target identity, or none |
| DragAndDrop.FindTargetColumn | frontend/src/hooks/useDragAndDrop.ts:66-79 | the target lookup with its loop and `break` yields `ResolveTarget` |
| DragAndDrop.DropOnColumnResolves | frontend/src/hooks/useDragAndDrop.ts:69-70 | a drop on `column-<id>` resolves to that id |
| DragAndDrop.DragEndPlan | frontend/src/hooks/useDragAndDrop.ts:27-83 | a move happens iff there is a target, it is not the dragged element, the candidate is found, a target column resolves and it differs from the source |
| DragAndDrop.PlannedMoveTransfers | frontend/src/hooks/useDragAndDrop.ts:86-93 | on a board with unique ids, a planned move to an existing column takes the candidate out of its column, appends it to the target and leaves the rest |
| DragAndDrop.DragAndDropHook.constructor | frontend/src/hooks/useDragAndDrop.ts:17-22 | the hook starts with the given board, not dragging, no error |
| DragAndDrop.DragAndDropHook.HandleDragEnd | frontend/src/hooks/useDragAndDrop.ts:27-100 | flags are cleared; a request is pending iff the guards pass; the board then becomes the move of the plan, and the request carries the application id and target; otherwise the board is unchanged |
| DragAndDrop.DragAndDropHook.PersistSettled | frontend/src/hooks/useDragAndDrop.ts:96-112 | success keeps the optimistic board; failure restores the pre-move board, shows the revert message and arms one timer |
| DragAndDrop.DragAndDropHook.TimerFires | frontend/src/hooks/useDragAndDrop.ts:109-111 | a firing timer clears the error and changes nothing else |
| DragAndDrop.FailedDragReverts | frontend/src/hooks/useDragAndDrop.ts:96-112 | a drag whose request fails ends with the board exactly as before and no error once the timer fires |
| PositionKanban.LoadErrorMessage | frontend/src/hooks/usePositionKanban.ts:90 | an `Error`'s message, or the fixed fallback text for anything else |
| PositionKanban.FilterValid | frontend/src/hooks/usePositionKanban.ts:66-68 | the filter keeps only valid records, each with a name and a stage |
| PositionKanban.FilterValidMembers | frontend/src/hooks/usePositionKanban.ts:66-68 | a record survives the filter iff it is an input record and valid |
| PositionKanban.FilterValidKeepsOrder | frontend/src/hooks/usePositionKanban.ts:66-68 | the filter distributes over concatenation and keeps a single record iff it is valid, so the valid records stay in input order |
| PositionKanban.FilterValidCounts | frontend/src/hooks/usePositionKanban.ts:66-68 | each valid record survives as many times as it occurs in the input, and an invalid one never does |
| PositionKanban.NoInvalidCandidateOnBoard | frontend/src/hooks/usePositionKanban.ts:66-83 | every candidate on a loaded board is the normalisation of a valid input record |
| PositionKanban.BuildBoard | frontend/src/hooks/usePositionKanban.ts:60-87 | reference definition of the board a successful load shows, with at most one column per step (its properties are in `BoardShape` and `NoInvalidCandidateOnBoard`) |
| PositionKanban.BoardShape | frontend/src/hooks/usePositionKanban.ts:60-87 | a loaded board is sorted; each column is named after a step and holds exactly its stage's candidates; with distinct step names there is one column per step |
| PositionKanban.PositionKanbanHook.constructor | frontend/src/hooks/usePositionKanban.ts:20-24 | the hook starts with an empty board, an empty name, loading, no error |
| PositionKanban.PositionKanbanHook.BeginFetch | frontend/src/hooks/usePositionKanban.ts:32-40 | an empty position id reports the missing id and stops loading; otherwise loading starts with the error cleared |
| PositionKanban.PositionKanbanHook.CompleteFetch | frontend/src/hooks/usePositionKanban.ts:42-94 | success shows the position name and the board built from the sorted steps and valid candidates; failure shows the error and keeps the old board; loading stops either way |
| PositionKanban.FetchKanbanData | frontend/src/hooks/usePositionKanban.ts:29-95 | after a load attempt loading is false; a missing id shows the missing-id message and a failed request its error, both keeping the board and the name; a successful load clears the error and shows the position name and `BuildBoard` of the fetched steps and candidates |

## Left out

- The HTML sanitiser is an arbitrary function `sanitize` supplied by the caller. Nothing is assumed of its output.
- `Date.now()` and `Math.random()` are caller-supplied draws. Two cards share a drag identity only when their application id and both draws coincide (`CandidateIdInjective`); nothing guarantees that the draws differ.
- The HTTP requests are outcomes supplied by the caller: success with the data, or what was thrown. Response payload shapes beyond the interview flow and the candidate list are not modelled.
- The three-second `setTimeout` is an explicit tick (`TimerFires`); elapsed time is not modelled.
- Overlapping drags are not modelled: one stage update is in flight at a time. React's re-rendering and closures over stale state are also not modelled.
- `Math.random()`'s decimal text is an arbitrary string.
- JavaScript numbers are modelled as `int` (ids, `orderIndex`, `applicationId`) and `real` (scores), not as doubles. Within the safe-integer range (magnitude below 2^53), which ids and step orders keep to, `a.orderIndex - b.orderIndex` has the sign of the comparison the model uses: the difference may round, but IEEE subtraction keeps its sign. `Math.min` and `Math.max` only pick one of their arguments, so the clamp and the comparisons are exact; rounding a score to a double is not modelled.
- `String(n)` is modelled for integers only, without the exponent form JavaScript uses from 10^21 on.
- `parseInt` works on unbounded integers, not on doubles: precision loss above 2^53 is not modelled.
- Console logging and warnings are left out.
- The React components, `useEffect`, `refetch` and the DOM are left out.
- A `positionId` of `undefined` is modelled as the empty string.
- Strings are sequences of Unicode scalar values, not of UTF-16 code units. No operation of the core depends on the difference.
- The backend services (`positionService.ts`, `Candidate.ts`) are not part of this model.
- CandidateCardFactory.CreateCandidateWithId: requires the name and the stage to be present. The TypeScript type declares them as strings, and the load path only passes validated records.
- CandidateCardFactory.CreateMultipleCandidates: requires every record to carry a name and a stage, for the same reason.
- KanbanColumnFactory.MoveUnchangedIffAbsent: the converse (an unchanged board means no source column holds the id) is stated only for distinct source and target ids. With equal ids, a candidate that is already last in its column is found, yet the board comes back unchanged. The drag handler never calls the move with equal ids.
