/**
 * Building, filling and rearranging the stage columns
 * (frontend/src/factories/KanbanColumnFactory.ts).
 */
module KanbanColumnFactory {
  import opened KanbanTypes
  import opened StableSort

  // ---------------------------------------------------------------------------
  // Building the columns
  // ---------------------------------------------------------------------------

  /** `createColumn`: the step's id, name and order, with no candidates yet. */
  function CreateColumn(step: InterviewStep): (column: KanbanColumn)
    ensures column.id == step.id && column.name == step.name
    ensures column.orderIndex == step.orderIndex && column.candidates == []
  {
    KanbanColumn(step.id, step.name, step.orderIndex, [])
  }

  /** `steps.map(step => createColumn(step))`. */
  function ColumnsOf(steps: seq<InterviewStep>): (columns: seq<KanbanColumn>)
    ensures |columns| == |steps|
    ensures forall i :: 0 <= i < |steps| ==> columns[i] == CreateColumn(steps[i])
  {
    seq(|steps|, i requires 0 <= i < |steps| => CreateColumn(steps[i]))
  }

  /** The columns `createColumns` returns for the steps it is given. */
  function BuildColumns(steps: seq<InterviewStep>): (columns: seq<KanbanColumn>)
    ensures |columns| == |steps|
    ensures forall i :: 0 <= i < |columns| ==> columns[i].candidates == []
  {
    ColumnsOf(SortBy(steps, StepOrder))
  }

  /**
   * `createColumns`: sorts the caller's array of steps in place by ascending
   * `orderIndex` (stably) and makes one empty column per step, in that order.
   */
  method CreateColumns(steps: array<InterviewStep>) returns (columns: seq<KanbanColumn>)
    modifies steps
    ensures steps[..] == SortBy(old(steps[..]), StepOrder)
    ensures columns == BuildColumns(old(steps[..]))
  {
    SortInPlace(steps, StepOrder);
    columns := ColumnsOf(steps[..]);
  }

  lemma {:induction false} ColumnsOfWithKey(steps: seq<InterviewStep>, k: int)
    ensures WithKey(ColumnsOf(steps), ColumnOrder, k) == ColumnsOf(WithKey(steps, StepOrder, k))
  {
    if steps != [] {
      var init := steps[..|steps| - 1];
      ColumnsOfWithKey(init, k);
      assert ColumnsOf(steps)[..|steps| - 1] == ColumnsOf(init);
      var e := if StepOrder(steps[|steps| - 1]) == k then [steps[|steps| - 1]] else [];
      assert ColumnsOf(WithKey(init, StepOrder, k) + e) == ColumnsOf(WithKey(init, StepOrder, k)) + ColumnsOf(e);
    }
  }

  /**
   * `createColumns` gives exactly one empty column per step, in ascending
   * `orderIndex`; among steps with the same `orderIndex` the columns keep the
   * steps' input order.
   */
  lemma BuildColumnsSpec(steps: seq<InterviewStep>)
    ensures |BuildColumns(steps)| == |steps|
    ensures SortedBy(BuildColumns(steps), ColumnOrder)
    ensures forall k :: WithKey(BuildColumns(steps), ColumnOrder, k) == ColumnsOf(WithKey(steps, StepOrder, k))
    ensures forall i :: 0 <= i < |steps| ==> BuildColumns(steps)[i].candidates == []
  {
    var sorted := SortBy(steps, StepOrder);
    SortByIsSorted(steps, StepOrder);
    forall k ensures WithKey(BuildColumns(steps), ColumnOrder, k) == ColumnsOf(WithKey(steps, StepOrder, k)) {
      ColumnsOfWithKey(sorted, k);
      SortByIsStable(steps, StepOrder, k);
    }
  }

  // ---------------------------------------------------------------------------
  // Distributing candidates
  // ---------------------------------------------------------------------------

  /** The candidates whose stage is `name`, in their input order. */
  function InStage(candidates: seq<CandidateWithId>, name: string): seq<CandidateWithId> {
    if candidates == [] then []
    else
      var last := candidates[|candidates| - 1];
      InStage(candidates[..|candidates| - 1], name) + (if last.currentInterviewStep == name then [last] else [])
  }

  lemma {:induction false} InStageMembers(candidates: seq<CandidateWithId>, name: string, c: CandidateWithId)
    ensures c in InStage(candidates, name) <==> c in candidates && c.currentInterviewStep == name
  {
    if candidates != [] {
      InStageMembers(candidates[..|candidates| - 1], name, c);
      assert candidates == candidates[..|candidates| - 1] + [candidates[|candidates| - 1]];
    }
  }

  function ColumnName(column: KanbanColumn): string { column.name }

  predicate HasName(columns: seq<KanbanColumn>, name: string) {
    exists i :: 0 <= i < |columns| && columns[i].name == name
  }

  /**
   * The keys of the name-keyed map in insertion order: each distinct column
   * name once, where it first occurs.
   */
  function NameOrder(columns: seq<KanbanColumn>): (names: seq<string>)
    ensures forall n :: n in names <==> HasName(columns, n)
    ensures forall i, j :: 0 <= i < j < |names| ==> names[i] != names[j]
    ensures |names| <= |columns|
  {
    if columns == [] then []
    else
      var init := columns[..|columns| - 1];
      var names := NameOrder(init);
      assert forall n :: HasName(columns, n) <==> HasName(init, n) || n == columns[|columns| - 1].name by {
        forall n ensures HasName(columns, n) <==> HasName(init, n) || n == columns[|columns| - 1].name {
          if HasName(columns, n) {
            var i :| 0 <= i < |columns| && columns[i].name == n;
            if i < |columns| - 1 { assert init[i].name == n; }
          }
          if HasName(init, n) {
            var i :| 0 <= i < |init| && init[i].name == n;
            assert columns[i].name == n;
          }
        }
      }
      if columns[|columns| - 1].name in names then names else names + [columns[|columns| - 1].name]
  }

  /** The position of the first column with the name. */
  function FirstNamed(columns: seq<KanbanColumn>, name: string): (p: nat)
    requires HasName(columns, name)
    ensures p < |columns| && columns[p].name == name
    ensures forall q :: 0 <= q < p ==> columns[q].name != name
  {
    if columns[0].name == name then 0
    else
      assert HasName(columns[1..], name) by {
        var i :| 0 <= i < |columns| && columns[i].name == name;
        assert columns[1..][i - 1].name == name;
      }
      1 + FirstNamed(columns[1..], name)
  }

  /** A position holding the name with no earlier one holding it is the first. */
  lemma FirstNamedUnique(columns: seq<KanbanColumn>, name: string, p: int)
    requires 0 <= p < |columns| && columns[p].name == name
    requires forall q :: 0 <= q < p ==> columns[q].name != name
    ensures HasName(columns, name) && FirstNamed(columns, name) == p
  {
  }

  /** Dropping the last column keeps the first position of a name that still occurs. */
  lemma FirstNamedInit(columns: seq<KanbanColumn>, name: string)
    requires columns != [] && HasName(columns[..|columns| - 1], name)
    ensures HasName(columns, name)
    ensures FirstNamed(columns, name) == FirstNamed(columns[..|columns| - 1], name)
  {
    var init := columns[..|columns| - 1];
    var p := FirstNamed(init, name);
    forall q | 0 <= q <= p ensures columns[q] == init[q] {
    }
    FirstNamedUnique(columns, name, p);
  }

  /** A name that only the last column carries first occurs there. */
  lemma FirstNamedLast(columns: seq<KanbanColumn>, name: string)
    requires columns != [] && columns[|columns| - 1].name == name && !HasName(columns[..|columns| - 1], name)
    ensures HasName(columns, name) && FirstNamed(columns, name) == |columns| - 1
  {
  }

  /**
   * The map's keys come in the order in which their names first occur among
   * the columns; this order breaks ties between merged columns of equal
   * `orderIndex` in the stable sort that follows.
   */
  lemma {:induction false} NameOrderFirstOccurrence(columns: seq<KanbanColumn>)
    ensures forall i, j :: (0 <= i < j < |NameOrder(columns)|
      ==> FirstNamed(columns, NameOrder(columns)[i]) < FirstNamed(columns, NameOrder(columns)[j]))
  {
    if columns != [] {
      var n := |columns|;
      var init := columns[..n - 1];
      var names, before := NameOrder(columns), NameOrder(init);
      var last := columns[n - 1].name;
      assert names == if last in before then before else before + [last];
      NameOrderFirstOccurrence(init);
      forall i, j | 0 <= i < j < |names|
        ensures FirstNamed(columns, names[i]) < FirstNamed(columns, names[j])
      {
        assert before[i] == names[i] && before[i] in before;
        FirstNamedInit(columns, names[i]);
        if j < |before| {
          assert before[j] == names[j] && before[j] in before;
          FirstNamedInit(columns, names[j]);
        } else {
          FirstNamedLast(columns, last);
        }
      }
    }
  }

  /**
   * The value the map holds for `name` once every column has been set: the
   * last column with that name (`Map.set` overwrites the value in place).
   */
  function LastNamed(columns: seq<KanbanColumn>, name: string): (column: KanbanColumn)
    requires HasName(columns, name)
    ensures column in columns && column.name == name
  {
    var last := columns[|columns| - 1];
    if last.name == name then last
    else
      var init := columns[..|columns| - 1];
      assert HasName(init, name) by {
        var i :| 0 <= i < |columns| && columns[i].name == name;
        assert init[i].name == name;
      }
      LastNamed(init, name)
  }

  /** No column after the one `LastNamed` picks carries the name: the last `set` wins. */
  lemma {:induction false} LastNamedIsLast(columns: seq<KanbanColumn>, name: string)
    requires HasName(columns, name)
    ensures exists i :: (0 <= i < |columns| && columns[i] == LastNamed(columns, name)
      && forall j :: i < j < |columns| ==> columns[j].name != name)
  {
    var n := |columns|;
    if columns[n - 1].name != name {
      var init := columns[..n - 1];
      assert HasName(init, name) by {
        var i :| 0 <= i < n && columns[i].name == name;
        assert init[i].name == name;
      }
      LastNamedIsLast(init, name);
      var i :| 0 <= i < |init| && init[i] == LastNamed(init, name)
        && forall j :: i < j < |init| ==> init[j].name != name;
      assert LastNamed(columns, name) == LastNamed(init, name);
      assert columns[i] == init[i];
      forall j | i < j < n ensures columns[j].name != name {
        if j < n - 1 { assert columns[j] == init[j]; }
      }
      assert 0 <= i < n && columns[i] == LastNamed(columns, name);
    } else {
      assert columns[n - 1] == LastNamed(columns, name);
    }
  }

  /** The map's entry for `name` after every candidate has been pushed. */
  function Filled(columns: seq<KanbanColumn>, candidates: seq<CandidateWithId>, name: string): KanbanColumn
    requires HasName(columns, name)
  {
    LastNamed(columns, name).(candidates := InStage(candidates, name))
  }

  /** `Array.from(columnMap.values())` once every candidate has been pushed. */
  function FilledInOrder(columns: seq<KanbanColumn>, candidates: seq<CandidateWithId>): (r: seq<KanbanColumn>)
    ensures |r| == |NameOrder(columns)|
    ensures forall i :: 0 <= i < |r| ==> r[i] == Filled(columns, candidates, NameOrder(columns)[i])
  {
    var names := NameOrder(columns);
    seq(|names|, i requires 0 <= i < |names| => Filled(columns, candidates, names[i]))
  }

  /** What `organizeCandidatesIntoColumns` returns. */
  function Organize(columns: seq<KanbanColumn>, candidates: seq<CandidateWithId>): (organized: seq<KanbanColumn>)
    ensures |organized| == |NameOrder(columns)| <= |columns|
  {
    SortBy(FilledInOrder(columns, candidates), ColumnOrder)
  }

  /** How the map's keys and values change when one more column is set. */
  lemma ColumnPrefixStep(columns: seq<KanbanColumn>, i: int)
    requires 0 <= i < |columns|
    ensures forall n :: HasName(columns[..i + 1], n) <==> HasName(columns[..i], n) || n == columns[i].name
    ensures NameOrder(columns[..i + 1])
         == if HasName(columns[..i], columns[i].name) then NameOrder(columns[..i])
            else NameOrder(columns[..i]) + [columns[i].name]
    ensures forall n :: HasName(columns[..i + 1], n) ==>
      LastNamed(columns[..i + 1], n) == if n == columns[i].name then columns[i] else LastNamed(columns[..i], n)
  {
    var prefix := columns[..i + 1];
    assert prefix[..i] == columns[..i] && prefix[i] == columns[i];
    forall n | HasName(prefix, n)
      ensures LastNamed(prefix, n) == if n == columns[i].name then columns[i] else LastNamed(columns[..i], n)
    {
      assert LastNamed(prefix, n) == if n == prefix[i].name then prefix[i] else LastNamed(prefix[..i], n);
    }
  }

  /** How a stage's candidate list changes when one more candidate is pushed. */
  lemma CandidatePrefixStep(candidates: seq<CandidateWithId>, j: int, name: string)
    requires 0 <= j < |candidates|
    ensures InStage(candidates[..j + 1], name)
         == InStage(candidates[..j], name) + if candidates[j].currentInterviewStep == name then [candidates[j]] else []
  {
    assert candidates[..j + 1][..j] == candidates[..j];
  }

  /**
   * `organizeCandidatesIntoColumns`: copies each column into a name-keyed map
   * with its candidates emptied, pushes every candidate onto the entry named by
   * its stage (dropping the ones no entry matches), and returns the map's
   * values sorted by `orderIndex`.
   */
  method OrganizeCandidatesIntoColumns(columns: seq<KanbanColumn>, candidates: seq<CandidateWithId>)
    returns (organized: seq<KanbanColumn>)
    ensures organized == Organize(columns, candidates)
  {
    var columnMap, keys := EmptyColumnMap(columns);
    columnMap := PushCandidates(columns, columnMap, candidates);
    var values := seq(|keys|, k requires 0 <= k < |keys| => columnMap[keys[k]]);
    assert values == FilledInOrder(columns, candidates);
    var sorted := new KanbanColumn[|values|](k requires 0 <= k < |values| => values[k]);
    assert sorted[..] == values;
    SortInPlace(sorted, ColumnOrder);
    organized := sorted[..];
  }

  /**
   * The first loop of `organizeCandidatesIntoColumns`: `columnMap.set` for
   * each column, by name, with its candidates emptied; `keys` records the
   * map's insertion order.
   */
  method EmptyColumnMap(columns: seq<KanbanColumn>) returns (columnMap: map<string, KanbanColumn>, keys: seq<string>)
    ensures keys == NameOrder(columns)
    ensures forall n :: n in columnMap <==> HasName(columns, n)
    ensures forall n :: n in columnMap ==> columnMap[n] == LastNamed(columns, n).(candidates := [])
  {
    columnMap := map[];
    keys := [];
    for i := 0 to |columns|
      invariant keys == NameOrder(columns[..i])
      invariant forall n :: n in columnMap <==> HasName(columns[..i], n)
      invariant forall n :: n in columnMap ==> columnMap[n] == LastNamed(columns[..i], n).(candidates := [])
    {
      var column := columns[i];
      ColumnPrefixStep(columns, i);
      SetColumnStep(columns, i, columnMap);
      if column.name !in columnMap {
        keys := keys + [column.name];
      }
      columnMap := columnMap[column.name := column.(candidates := [])];
    }
    assert columns[..|columns|] == columns;
  }

  /** Setting one more column keeps the map in step with the longer prefix. */
  lemma SetColumnStep(columns: seq<KanbanColumn>, i: int, columnMap: map<string, KanbanColumn>)
    requires 0 <= i < |columns|
    requires forall n :: n in columnMap <==> HasName(columns[..i], n)
    requires forall n :: n in columnMap ==> columnMap[n] == LastNamed(columns[..i], n).(candidates := [])
    ensures var next := columnMap[columns[i].name := columns[i].(candidates := [])];
      && (forall n :: n in next <==> HasName(columns[..i + 1], n))
      && (forall n :: n in next ==> next[n] == LastNamed(columns[..i + 1], n).(candidates := []))
  {
    ColumnPrefixStep(columns, i);
  }

  /**
   * The second loop: each candidate is pushed onto the entry named by its
   * stage, and skipped when there is none.
   */
  method PushCandidates(columns: seq<KanbanColumn>, columnMap0: map<string, KanbanColumn>,
                        candidates: seq<CandidateWithId>) returns (columnMap: map<string, KanbanColumn>)
    requires forall n :: n in columnMap0 <==> HasName(columns, n)
    requires forall n :: n in columnMap0 ==> columnMap0[n] == LastNamed(columns, n).(candidates := [])
    ensures forall n :: n in columnMap <==> HasName(columns, n)
    ensures forall n :: n in columnMap ==> columnMap[n] == Filled(columns, candidates, n)
  {
    columnMap := columnMap0;
    for j := 0 to |candidates|
      invariant forall n :: n in columnMap <==> HasName(columns, n)
      invariant forall n :: n in columnMap ==> columnMap[n] == LastNamed(columns, n).(candidates := InStage(candidates[..j], n))
    {
      var candidate := candidates[j];
      forall n ensures InStage(candidates[..j + 1], n)
          == InStage(candidates[..j], n) + if candidate.currentInterviewStep == n then [candidate] else [] {
        CandidatePrefixStep(candidates, j, n);
      }
      if candidate.currentInterviewStep in columnMap {
        var column := columnMap[candidate.currentInterviewStep];
        columnMap := columnMap[candidate.currentInterviewStep := column.(candidates := column.candidates + [candidate])];
      }
    }
    assert candidates[..|candidates|] == candidates;
  }

  /** The organised columns are in ascending `orderIndex`. */
  lemma OrganizeIsSorted(columns: seq<KanbanColumn>, candidates: seq<CandidateWithId>)
    ensures SortedBy(Organize(columns, candidates), ColumnOrder)
  {
    SortByIsSorted(FilledInOrder(columns, candidates), ColumnOrder);
  }

  /**
   * Every organised column is the last input column with its name, holding
   * exactly the candidates whose stage is that name, in their input order;
   * whatever the input columns held before is discarded.
   */
  lemma OrganizePlacement(columns: seq<KanbanColumn>, candidates: seq<CandidateWithId>, column: KanbanColumn)
    requires column in Organize(columns, candidates)
    ensures HasName(columns, column.name)
    ensures column == LastNamed(columns, column.name).(candidates := InStage(candidates, column.name))
  {
    var filled := FilledInOrder(columns, candidates);
    SortByMembers(filled, ColumnOrder, column);
    var i :| 0 <= i < |filled| && filled[i] == column;
    assert NameOrder(columns)[i] in NameOrder(columns);
  }

  /**
   * A candidate sits in an organised column exactly when it is one of the
   * input candidates and its stage equals that column's name (case-sensitive).
   */
  lemma OrganizeMembership(columns: seq<KanbanColumn>, candidates: seq<CandidateWithId>,
                           column: KanbanColumn, c: CandidateWithId)
    requires column in Organize(columns, candidates)
    ensures c in column.candidates <==> c in candidates && c.currentInterviewStep == column.name
  {
    OrganizePlacement(columns, candidates, column);
    InStageMembers(candidates, column.name, c);
  }

  /** A candidate whose stage names no column appears in no organised column. */
  lemma OrganizeDropsUnmatched(columns: seq<KanbanColumn>, candidates: seq<CandidateWithId>, c: CandidateWithId)
    requires !HasName(columns, c.currentInterviewStep)
    ensures forall column :: column in Organize(columns, candidates) ==> c !in column.candidates
  {
    forall column | column in Organize(columns, candidates) ensures c !in column.candidates {
      OrganizePlacement(columns, candidates, column);
      OrganizeMembership(columns, candidates, column, c);
    }
  }

  /** Each input column name labels exactly one organised column: duplicates collapse. */
  lemma OrganizeNames(columns: seq<KanbanColumn>, candidates: seq<CandidateWithId>)
    ensures |Organize(columns, candidates)| == |NameOrder(columns)| <= |columns|
    ensures forall n :: HasName(Organize(columns, candidates), n) <==> HasName(columns, n)
    ensures forall i, j :: 0 <= i < j < |Organize(columns, candidates)| ==>
      Organize(columns, candidates)[i].name != Organize(columns, candidates)[j].name
  {
    var filled := FilledInOrder(columns, candidates);
    var r := Organize(columns, candidates);
    var names := NameOrder(columns);
    SortByIsPermutation(filled, ColumnOrder);
    forall n ensures HasName(r, n) <==> HasName(columns, n) {
      if HasName(r, n) {
        var i :| 0 <= i < |r| && r[i].name == n;
        OrganizePlacement(columns, candidates, r[i]);
      }
      if HasName(columns, n) {
        var k :| 0 <= k < |names| && names[k] == n;
        assert filled[k] in multiset(r);
        var i :| 0 <= i < |r| && r[i] == filled[k];
      }
    }
    assert forall a, b :: 0 <= a < b < |filled| ==> ColumnName(filled[a]) != ColumnName(filled[b]);
    forall i, j | 0 <= i < j < |r| ensures r[i].name != r[j].name {
      DistinctNamesInPermutation(filled, r, ColumnName, i, j);
    }
  }

  /**
   * When the input column names are distinct, organising keeps one column per
   * input column, each filled with the candidates of its stage, and sorts them.
   */
  lemma OrganizeDistinctNames(columns: seq<KanbanColumn>, candidates: seq<CandidateWithId>)
    requires forall i, j :: 0 <= i < j < |columns| ==> columns[i].name != columns[j].name
    ensures Organize(columns, candidates)
         == SortBy(seq(|columns|, i requires 0 <= i < |columns| =>
                        columns[i].(candidates := InStage(candidates, columns[i].name))), ColumnOrder)
  {
    NameOrderDistinct(columns);
    var filled := FilledInOrder(columns, candidates);
    var direct := seq(|columns|, i requires 0 <= i < |columns| =>
                        columns[i].(candidates := InStage(candidates, columns[i].name)));
    forall i | 0 <= i < |columns| ensures filled[i] == direct[i] {
      LastNamedDistinct(columns, i);
    }
    assert filled == direct;
  }

  lemma {:induction false} NameOrderDistinct(columns: seq<KanbanColumn>)
    requires forall i, j :: 0 <= i < j < |columns| ==> columns[i].name != columns[j].name
    ensures |NameOrder(columns)| == |columns|
    ensures forall i :: 0 <= i < |columns| ==> NameOrder(columns)[i] == columns[i].name
  {
    if columns != [] {
      var init := columns[..|columns| - 1];
      NameOrderDistinct(init);
      forall i | 0 <= i < |init| ensures init[i].name != columns[|columns| - 1].name {
        assert init[i] == columns[i];
      }
      assert !HasName(init, columns[|columns| - 1].name);
    }
  }

  lemma {:induction false} LastNamedDistinct(columns: seq<KanbanColumn>, i: int)
    requires forall a, b :: 0 <= a < b < |columns| ==> columns[a].name != columns[b].name
    requires 0 <= i < |columns|
    ensures HasName(columns, columns[i].name) && LastNamed(columns, columns[i].name) == columns[i]
  {
    if i < |columns| - 1 {
      var init := columns[..|columns| - 1];
      assert init[i] == columns[i];
      LastNamedDistinct(init, i);
    }
  }

  // ---------------------------------------------------------------------------
  // Replacing one column's candidates
  // ---------------------------------------------------------------------------

  /**
   * `updateColumnCandidates`: every column with the given id gets the new
   * candidate list; every other column, and every column's id, name and
   * order, are unchanged.
   */
  function UpdateColumnCandidates(columns: seq<KanbanColumn>, columnId: int,
                                  candidates: seq<CandidateWithId>): (r: seq<KanbanColumn>)
    ensures |r| == |columns|
    ensures forall i :: 0 <= i < |columns| ==>
      r[i].id == columns[i].id && r[i].name == columns[i].name && r[i].orderIndex == columns[i].orderIndex
    ensures forall i :: 0 <= i < |columns| && columns[i].id == columnId ==> r[i].candidates == candidates
    ensures forall i :: 0 <= i < |columns| && columns[i].id != columnId ==> r[i] == columns[i]
  {
    seq(|columns|, i requires 0 <= i < |columns| =>
      if columns[i].id == columnId then columns[i].(candidates := candidates) else columns[i])
  }

  /**
   * Updating a column with the list it already holds changes nothing, and a
   * second update of the same column overrides the first.
   */
  lemma UpdateColumnCandidatesLaws(columns: seq<KanbanColumn>, i: int,
                                   first: seq<CandidateWithId>, second: seq<CandidateWithId>)
    requires 0 <= i < |columns|
    requires forall j :: 0 <= j < |columns| && columns[j].id == columns[i].id ==> j == i
    ensures UpdateColumnCandidates(columns, columns[i].id, columns[i].candidates) == columns
    ensures UpdateColumnCandidates(UpdateColumnCandidates(columns, columns[i].id, first), columns[i].id, second)
         == UpdateColumnCandidates(columns, columns[i].id, second)
  {
    var same := UpdateColumnCandidates(columns, columns[i].id, columns[i].candidates);
    assert forall j :: 0 <= j < |columns| ==> same[j] == columns[j];
  }

  // ---------------------------------------------------------------------------
  // Moving a candidate
  // ---------------------------------------------------------------------------

  /** `candidates.filter(candidate => candidate.id !== candidateId)`. */
  function Without(candidates: seq<CandidateWithId>, candidateId: string): (r: seq<CandidateWithId>)
    ensures |r| <= |candidates|
  {
    if candidates == [] then []
    else
      var last := candidates[|candidates| - 1];
      Without(candidates[..|candidates| - 1], candidateId) + (if last.id != candidateId then [last] else [])
  }

  /** The filter keeps exactly the candidates with another id. */
  lemma {:induction false} WithoutMembers(candidates: seq<CandidateWithId>, candidateId: string, c: CandidateWithId)
    ensures c in Without(candidates, candidateId) <==> c in candidates && c.id != candidateId
  {
    if candidates != [] {
      WithoutMembers(candidates[..|candidates| - 1], candidateId, c);
      assert candidates == candidates[..|candidates| - 1] + [candidates[|candidates| - 1]];
    }
  }

  /** The last candidate with the given id: the one the filter callback assigns last. */
  function LastWithId(candidates: seq<CandidateWithId>, candidateId: string): (r: Option<CandidateWithId>)
    ensures r.None? <==> !HoldsId(candidates, candidateId)
    ensures r.Some? ==> r.value in candidates && r.value.id == candidateId
  {
    if candidates == [] then None
    else if candidates[|candidates| - 1].id == candidateId then Some(candidates[|candidates| - 1])
    else LastWithId(candidates[..|candidates| - 1], candidateId)
  }

  /** No candidate after the one `LastWithId` picks has the id: the last assignment wins. */
  lemma {:induction false} LastWithIdIsLast(candidates: seq<CandidateWithId>, candidateId: string)
    requires LastWithId(candidates, candidateId).Some?
    ensures exists i :: (0 <= i < |candidates| && candidates[i] == LastWithId(candidates, candidateId).value
      && forall j :: i < j < |candidates| ==> candidates[j].id != candidateId)
  {
    var n := |candidates|;
    if candidates[n - 1].id != candidateId {
      var init := candidates[..n - 1];
      assert LastWithId(candidates, candidateId) == LastWithId(init, candidateId);
      LastWithIdIsLast(init, candidateId);
      var i :| 0 <= i < |init| && init[i] == LastWithId(init, candidateId).value
        && forall j :: i < j < |init| ==> init[j].id != candidateId;
      assert candidates[i] == init[i];
      forall j | i < j < n ensures candidates[j].id != candidateId {
        if j < n - 1 { assert candidates[j] == init[j]; }
      }
      assert 0 <= i < n && candidates[i] == LastWithId(candidates, candidateId).value;
    } else {
      assert candidates[n - 1] == LastWithId(candidates, candidateId).value;
    }
  }

  /** Some column with id `sourceColumnId` holds a candidate with id `candidateId`. */
  predicate InSource(columns: seq<KanbanColumn>, candidateId: string, sourceColumnId: int) {
    exists k :: 0 <= k < |columns| && columns[k].id == sourceColumnId && HoldsId(columns[k].candidates, candidateId)
  }

  /**
   * The value `candidateToMove` holds after the filtering pass: the last
   * candidate with the id found in any column with the source id.
   */
  function Taken(columns: seq<KanbanColumn>, candidateId: string, sourceColumnId: int): (r: Option<CandidateWithId>)
    ensures r.Some? ==> r.value.id == candidateId
    ensures r.Some? ==> exists k :: 0 <= k < |columns| && columns[k].id == sourceColumnId && r.value in columns[k].candidates
  {
    if columns == [] then None
    else
      var init := columns[..|columns| - 1];
      var last := columns[|columns| - 1];
      var here := if last.id == sourceColumnId then LastWithId(last.candidates, candidateId) else None;
      if here.Some? then here
      else
        var before := Taken(init, candidateId, sourceColumnId);
        assert before.Some? ==> exists k :: 0 <= k < |columns| && columns[k].id == sourceColumnId && before.value in columns[k].candidates by {
          if before.Some? {
            var k :| 0 <= k < |init| && init[k].id == sourceColumnId && before.value in init[k].candidates;
            assert columns[k] == init[k];
          }
        }
        before
  }

  /**
   * `candidateToMove` ends as the last candidate with the id in the last
   * source column that holds one: no later source column holds the id.
   */
  lemma {:induction false} TakenIsLast(columns: seq<KanbanColumn>, candidateId: string, sourceColumnId: int)
    requires Taken(columns, candidateId, sourceColumnId).Some?
    ensures exists k :: (0 <= k < |columns| && columns[k].id == sourceColumnId
      && LastWithId(columns[k].candidates, candidateId) == Taken(columns, candidateId, sourceColumnId)
      && forall m :: k < m < |columns| && columns[m].id == sourceColumnId ==>
           LastWithId(columns[m].candidates, candidateId).None?)
  {
    var n := |columns|;
    var last, init := columns[n - 1], columns[..n - 1];
    var r := Taken(columns, candidateId, sourceColumnId);
    TakenUnfold(columns, candidateId, sourceColumnId, init, last);
    if !(last.id == sourceColumnId && LastWithId(last.candidates, candidateId).Some?) {
      TakenIsLast(init, candidateId, sourceColumnId);
      var k :| 0 <= k < |init| && init[k].id == sourceColumnId
        && LastWithId(init[k].candidates, candidateId) == r
        && forall m :: k < m < |init| && init[m].id == sourceColumnId ==>
             LastWithId(init[m].candidates, candidateId).None?;
      assert columns[k] == init[k];
      LaterColumnsLack(columns, init, k, candidateId, sourceColumnId);
    } else {
      assert columns[n - 1] == last;
    }
  }

  /** Extends "no later source column holds the id" from `init` to `init` plus a last column without it. */
  lemma LaterColumnsLack(columns: seq<KanbanColumn>, init: seq<KanbanColumn>, k: int,
                         candidateId: string, sourceColumnId: int)
    requires columns != [] && init == columns[..|columns| - 1] && 0 <= k < |init|
    requires forall m :: k < m < |init| && init[m].id == sourceColumnId ==>
      LastWithId(init[m].candidates, candidateId).None?
    requires columns[|columns| - 1].id == sourceColumnId ==>
      LastWithId(columns[|columns| - 1].candidates, candidateId).None?
    ensures forall m :: k < m < |columns| && columns[m].id == sourceColumnId ==>
      LastWithId(columns[m].candidates, candidateId).None?
  {
    forall m | k < m < |columns| - 1 ensures columns[m] == init[m] {}
  }

  /** One step of the filtering pass: the last column's find, else what the earlier columns gave. */
  lemma TakenUnfold(columns: seq<KanbanColumn>, candidateId: string, sourceColumnId: int,
                    init: seq<KanbanColumn>, last: KanbanColumn)
    requires columns != [] && init == columns[..|columns| - 1] && last == columns[|columns| - 1]
    ensures Taken(columns, candidateId, sourceColumnId)
      == if last.id == sourceColumnId && LastWithId(last.candidates, candidateId).Some?
         then LastWithId(last.candidates, candidateId)
         else Taken(init, candidateId, sourceColumnId)
  {
  }

  /** The filtering pass finds a candidate exactly when a source column holds one with the id. */
  lemma {:induction false} TakenNoneIffAbsent(columns: seq<KanbanColumn>, candidateId: string, sourceColumnId: int)
    ensures Taken(columns, candidateId, sourceColumnId).None? <==> !InSource(columns, candidateId, sourceColumnId)
  {
    if columns != [] {
      var init := columns[..|columns| - 1];
      var last := columns[|columns| - 1];
      TakenNoneIffAbsent(init, candidateId, sourceColumnId);
      if InSource(columns, candidateId, sourceColumnId) {
        var k, j :| 0 <= k < |columns| && columns[k].id == sourceColumnId
          && 0 <= j < |columns[k].candidates| && columns[k].candidates[j].id == candidateId;
        if k < |columns| - 1 {
          assert init[k] == columns[k];
          assert InSource(init, candidateId, sourceColumnId);
        }
      }
      if InSource(init, candidateId, sourceColumnId) {
        var k, j :| 0 <= k < |init| && init[k].id == sourceColumnId
          && 0 <= j < |init[k].candidates| && init[k].candidates[j].id == candidateId;
        assert columns[k] == init[k];
      }
      if last.id == sourceColumnId && LastWithId(last.candidates, candidateId).Some? {
        var j :| 0 <= j < |last.candidates| && last.candidates[j].id == candidateId;
        assert columns[|columns| - 1].candidates[j].id == candidateId;
      }
    }
  }

  /** One column after the filtering pass. */
  function StripColumn(column: KanbanColumn, candidateId: string, sourceColumnId: int): KanbanColumn {
    if column.id == sourceColumnId then column.(candidates := Without(column.candidates, candidateId)) else column
  }

  /** One column after the appending pass; a NaN target equals no column id. */
  function PlaceColumn(column: KanbanColumn, moved: CandidateWithId, targetColumnId: ColumnNumber): KanbanColumn {
    if targetColumnId == Num(column.id) then column.(candidates := column.candidates + [moved]) else column
  }

  function Strip(columns: seq<KanbanColumn>, candidateId: string, sourceColumnId: int): (r: seq<KanbanColumn>)
    ensures |r| == |columns|
    ensures forall i :: 0 <= i < |columns| ==> r[i] == StripColumn(columns[i], candidateId, sourceColumnId)
  {
    seq(|columns|, i requires 0 <= i < |columns| => StripColumn(columns[i], candidateId, sourceColumnId))
  }

  function Place(columns: seq<KanbanColumn>, moved: CandidateWithId, targetColumnId: ColumnNumber): (r: seq<KanbanColumn>)
    ensures |r| == |columns|
    ensures forall i :: 0 <= i < |columns| ==> r[i] == PlaceColumn(columns[i], moved, targetColumnId)
  {
    seq(|columns|, i requires 0 <= i < |columns| => PlaceColumn(columns[i], moved, targetColumnId))
  }

  /** What `moveCandidateBetweenColumns` returns. */
  function MoveCandidate(columns: seq<KanbanColumn>, candidateId: string,
                         sourceColumnId: int, targetColumnId: ColumnNumber): (moved: seq<KanbanColumn>)
    ensures |moved| == |columns|
  {
    match Taken(columns, candidateId, sourceColumnId)
    case None => columns
    case Some(moved) => Place(Strip(columns, candidateId, sourceColumnId), moved, targetColumnId)
  }

  lemma WithoutStep(candidates: seq<CandidateWithId>, k: int, candidateId: string)
    requires 0 <= k < |candidates|
    ensures Without(candidates[..k + 1], candidateId)
         == Without(candidates[..k], candidateId) + if candidates[k].id != candidateId then [candidates[k]] else []
    ensures LastWithId(candidates[..k + 1], candidateId)
         == if candidates[k].id == candidateId then Some(candidates[k]) else LastWithId(candidates[..k], candidateId)
  {
    assert candidates[..k + 1][..k] == candidates[..k];
  }

  lemma TakenStep(columns: seq<KanbanColumn>, i: int, candidateId: string, sourceColumnId: int)
    requires 0 <= i < |columns|
    ensures Taken(columns[..i + 1], candidateId, sourceColumnId)
         == var here := if columns[i].id == sourceColumnId then LastWithId(columns[i].candidates, candidateId) else None;
            if here.Some? then here else Taken(columns[..i], candidateId, sourceColumnId)
  {
    assert columns[..i + 1][..i] == columns[..i];
  }

  /**
   * The filter callback run over one source column: keeps the candidates
   * with other ids and assigns each removed candidate to `candidateToMove`.
   */
  method FilterOut(candidates: seq<CandidateWithId>, candidateId: string, before: Option<CandidateWithId>)
    returns (kept: seq<CandidateWithId>, candidateToMove: Option<CandidateWithId>)
    ensures kept == Without(candidates, candidateId)
    ensures candidateToMove == if LastWithId(candidates, candidateId).Some? then LastWithId(candidates, candidateId) else before
  {
    kept := [];
    candidateToMove := before;
    for k := 0 to |candidates|
      invariant kept == Without(candidates[..k], candidateId)
      invariant candidateToMove == if LastWithId(candidates[..k], candidateId).Some?
                                   then LastWithId(candidates[..k], candidateId) else before
    {
      WithoutStep(candidates, k, candidateId);
      var candidate := candidates[k];
      if candidate.id == candidateId {
        candidateToMove := Some(candidate);
      } else {
        kept := kept + [candidate];
      }
    }
    assert candidates[..|candidates|] == candidates;
  }

  /**
   * `moveCandidateBetweenColumns`: one pass copies the columns, filtering the
   * candidate id out of every column with the source id and remembering the
   * last candidate removed; if none was removed the input is returned as it
   * is, otherwise a second pass appends that candidate to every column with
   * the target id.
   */
  method MoveCandidateBetweenColumns(columns: seq<KanbanColumn>, candidateId: string,
                                     sourceColumnId: int, targetColumnId: ColumnNumber)
    returns (moved: seq<KanbanColumn>)
    ensures moved == MoveCandidate(columns, candidateId, sourceColumnId, targetColumnId)
  {
    var candidateToMove: Option<CandidateWithId> := None;
    var updatedColumns: seq<KanbanColumn> := [];
    for i := 0 to |columns|
      invariant |updatedColumns| == i
      invariant forall k :: 0 <= k < i ==> updatedColumns[k] == StripColumn(columns[k], candidateId, sourceColumnId)
      invariant candidateToMove == Taken(columns[..i], candidateId, sourceColumnId)
    {
      var column := columns[i];
      TakenStep(columns, i, candidateId, sourceColumnId);
      if column.id == sourceColumnId {
        var newCandidates;
        newCandidates, candidateToMove := FilterOut(column.candidates, candidateId, candidateToMove);
        updatedColumns := updatedColumns + [column.(candidates := newCandidates)];
      } else {
        updatedColumns := updatedColumns + [column];
      }
    }
    assert columns[..|columns|] == columns;
    assert updatedColumns == Strip(columns, candidateId, sourceColumnId);
    if candidateToMove.None? {
      return columns;
    }
    moved := AppendToTarget(updatedColumns, candidateToMove.value, targetColumnId);
  }

  /** The second pass of `moveCandidateBetweenColumns`: appends `x` to every column with the target id. */
  method AppendToTarget(columns: seq<KanbanColumn>, x: CandidateWithId, targetColumnId: ColumnNumber)
    returns (placed: seq<KanbanColumn>)
    ensures placed == Place(columns, x, targetColumnId)
  {
    placed := [];
    for i := 0 to |columns|
      invariant |placed| == i
      invariant forall k :: 0 <= k < i ==> placed[k] == PlaceColumn(columns[k], x, targetColumnId)
    {
      var column := columns[i];
      if targetColumnId == Num(column.id) {
        placed := placed + [column.(candidates := column.candidates + [x])];
      } else {
        placed := placed + [column];
      }
    }
  }

  /**
   * When no column with the source id holds a candidate with the id, the move
   * returns its input unchanged. For distinct source and target the converse
   * holds too; with equal ids, a candidate already last in its column stays put.
   */
  lemma MoveUnchangedIffAbsent(columns: seq<KanbanColumn>, candidateId: string,
                               sourceColumnId: int, targetColumnId: ColumnNumber)
    ensures !InSource(columns, candidateId, sourceColumnId)
        ==> MoveCandidate(columns, candidateId, sourceColumnId, targetColumnId) == columns
    ensures targetColumnId != Num(sourceColumnId)
        && MoveCandidate(columns, candidateId, sourceColumnId, targetColumnId) == columns
        ==> !InSource(columns, candidateId, sourceColumnId)
  {
    TakenNoneIffAbsent(columns, candidateId, sourceColumnId);
    if targetColumnId != Num(sourceColumnId) && InSource(columns, candidateId, sourceColumnId) {
      var k, j :| 0 <= k < |columns| && columns[k].id == sourceColumnId
        && 0 <= j < |columns[k].candidates| && columns[k].candidates[j].id == candidateId;
      var r := MoveCandidate(columns, candidateId, sourceColumnId, targetColumnId);
      assert r[k].candidates == Without(columns[k].candidates, candidateId);
      WithoutMembers(columns[k].candidates, candidateId, columns[k].candidates[j]);
      assert columns[k].candidates[j] in columns[k].candidates;
    }
  }

  /** Only the columns with the source or the target id change, and no column's id, name or order. */
  lemma MoveFrame(columns: seq<KanbanColumn>, candidateId: string,
                  sourceColumnId: int, targetColumnId: ColumnNumber, i: int)
    requires 0 <= i < |columns|
    ensures |MoveCandidate(columns, candidateId, sourceColumnId, targetColumnId)| == |columns|
    ensures MoveCandidate(columns, candidateId, sourceColumnId, targetColumnId)[i].id == columns[i].id
    ensures MoveCandidate(columns, candidateId, sourceColumnId, targetColumnId)[i].name == columns[i].name
    ensures MoveCandidate(columns, candidateId, sourceColumnId, targetColumnId)[i].orderIndex == columns[i].orderIndex
    ensures columns[i].id != sourceColumnId && targetColumnId != Num(columns[i].id)
        ==> MoveCandidate(columns, candidateId, sourceColumnId, targetColumnId)[i] == columns[i]
  {
  }

  /** Filtering out a present id shortens the list. */
  lemma {:induction false} LengthOfWithout(candidates: seq<CandidateWithId>, candidateId: string, j: int)
    requires 0 <= j < |candidates| && candidates[j].id == candidateId
    ensures |Without(candidates, candidateId)| < |candidates|
  {
    var n := |candidates|;
    var init := candidates[..n - 1];
    if j < n - 1 {
      assert init[j] == candidates[j];
      LengthOfWithout(init, candidateId, j);
    }
  }

  // ---------------------------------------------------------------------------
  // The move on a well-formed board
  // ---------------------------------------------------------------------------

  /** No two candidates of the list share a drag identity. */
  predicate IdsDistinct(candidates: seq<CandidateWithId>) {
    forall i, j :: 0 <= i < j < |candidates| ==> candidates[i].id != candidates[j].id
  }

  /**
   * A board as the hook keeps it: column ids are distinct, and each drag
   * identity occurs at most once on the whole board.
   */
  predicate WellFormed(columns: seq<KanbanColumn>) {
    && (forall i, j :: 0 <= i < |columns| && 0 <= j < |columns| && i != j ==> columns[i].id != columns[j].id)
    && (forall k :: 0 <= k < |columns| ==> IdsDistinct(columns[k].candidates))
    && (forall a, b, x, y ::
          (0 <= a < |columns| && 0 <= b < |columns| && a != b
           && x in columns[a].candidates && y in columns[b].candidates) ==> x.id != y.id)
  }

  lemma {:induction false} WithoutAbsent(candidates: seq<CandidateWithId>, candidateId: string)
    requires !HoldsId(candidates, candidateId)
    ensures Without(candidates, candidateId) == candidates
  {
    if candidates != [] {
      WithoutAbsent(candidates[..|candidates| - 1], candidateId);
    }
  }

  /** Filtering out an identity that occurs once removes exactly that position. */
  lemma {:induction false} WithoutUnique(candidates: seq<CandidateWithId>, p: int)
    requires IdsDistinct(candidates) && 0 <= p < |candidates|
    ensures Without(candidates, candidates[p].id) == candidates[..p] + candidates[p + 1..]
  {
    var n := |candidates|;
    var init := candidates[..n - 1];
    if p == n - 1 {
      WithoutAbsent(init, candidates[p].id);
    } else {
      assert init[p] == candidates[p];
      WithoutUnique(init, p);
      assert init[..p] + init[p + 1..] + [candidates[n - 1]] == candidates[..p] + candidates[p + 1..];
    }
  }

  /** On a well-formed board the filtering pass finds exactly the candidate at (s, p). */
  lemma TakenOnWellFormed(columns: seq<KanbanColumn>, s: int, p: int)
    requires WellFormed(columns) && 0 <= s < |columns| && 0 <= p < |columns[s].candidates|
    ensures Taken(columns, columns[s].candidates[p].id, columns[s].id) == Some(columns[s].candidates[p])
  {
    var c := columns[s].candidates[p];
    TakenNoneIffAbsent(columns, c.id, columns[s].id);
    assert InSource(columns, c.id, columns[s].id);
    var v := Taken(columns, c.id, columns[s].id).value;
    var k :| 0 <= k < |columns| && columns[k].id == columns[s].id && v in columns[k].candidates;
    UniqueHolder(columns, s, p, k, v);
  }

  /** On a well-formed board only one candidate in a column with that id carries the identity. */
  lemma UniqueHolder(columns: seq<KanbanColumn>, s: int, p: int, k: int, v: CandidateWithId)
    requires WellFormed(columns) && 0 <= s < |columns| && 0 <= p < |columns[s].candidates|
    requires 0 <= k < |columns| && columns[k].id == columns[s].id
    requires v in columns[k].candidates && v.id == columns[s].candidates[p].id
    ensures v == columns[s].candidates[p]
  {
    assert k == s;
    var q :| 0 <= q < |columns[s].candidates| && columns[s].candidates[q] == v;
    assert IdsDistinct(columns[s].candidates);
  }

  /**
   * On a well-formed board, moving the candidate at position `p` of column
   * `s` to another column `t` removes it from that one position of `s`,
   * appends it to the tail of `t`, and leaves every other column as it was.
   */
  lemma MoveEffect(columns: seq<KanbanColumn>, s: int, t: int, p: int)
    requires WellFormed(columns) && 0 <= s < |columns| && 0 <= t < |columns| && s != t
    requires 0 <= p < |columns[s].candidates|
    ensures var c := columns[s].candidates[p];
      var r := MoveCandidate(columns, c.id, columns[s].id, Num(columns[t].id));
      && |r| == |columns|
      && r[s] == columns[s].(candidates := columns[s].candidates[..p] + columns[s].candidates[p + 1..])
      && r[t] == columns[t].(candidates := columns[t].candidates + [c])
      && forall k :: 0 <= k < |columns| && k != s && k != t ==> r[k] == columns[k]
  {
    var c := columns[s].candidates[p];
    TakenOnWellFormed(columns, s, p);
    WithoutUnique(columns[s].candidates, p);
  }

  /**
   * `r` is `columns` with the candidate at position `p` of column `s` taken
   * out and appended to column `t`.
   */
  predicate Transferred(columns: seq<KanbanColumn>, s: int, t: int, p: int, r: seq<KanbanColumn>)
    requires 0 <= s < |columns| && 0 <= t < |columns| && 0 <= p < |columns[s].candidates|
  {
    && |r| == |columns|
    && r[s] == columns[s].(candidates := columns[s].candidates[..p] + columns[s].candidates[p + 1..])
    && r[t] == columns[t].(candidates := columns[t].candidates + [columns[s].candidates[p]])
    && forall k :: 0 <= k < |columns| && k != s && k != t ==> r[k] == columns[k]
  }

  /** What stays behind in a list after one position is removed. */
  lemma RemovedAt(candidates: seq<CandidateWithId>, p: int, x: CandidateWithId)
    requires IdsDistinct(candidates) && 0 <= p < |candidates|
    requires x in candidates[..p] + candidates[p + 1..]
    ensures x in candidates && x.id != candidates[p].id
  {
    var rest := candidates[..p] + candidates[p + 1..];
    var i :| 0 <= i < |rest| && rest[i] == x;
    if i < p {
      assert x == candidates[i];
    } else {
      assert x == candidates[i + 1];
    }
  }

  lemma IdsDistinctRemove(candidates: seq<CandidateWithId>, p: int)
    requires IdsDistinct(candidates) && 0 <= p < |candidates|
    ensures IdsDistinct(candidates[..p] + candidates[p + 1..])
  {
    var rest := candidates[..p] + candidates[p + 1..];
    forall i, j | 0 <= i < j < |rest| ensures rest[i].id != rest[j].id {
      var i' := if i < p then i else i + 1;
      var j' := if j < p then j else j + 1;
      assert rest[i] == candidates[i'] && rest[j] == candidates[j'];
    }
  }

  lemma IdsDistinctAppend(candidates: seq<CandidateWithId>, c: CandidateWithId)
    requires IdsDistinct(candidates)
    requires forall x :: x in candidates ==> x.id != c.id
    ensures IdsDistinct(candidates + [c])
  {
    var r := candidates + [c];
    forall i, j | 0 <= i < j < |r| ensures r[i].id != r[j].id {
      if j == |candidates| {
        assert r[i] in candidates;
      }
    }
  }

  /** A transfer between two columns of a well-formed board keeps it well-formed. */
  lemma TransferKeepsWellFormed(columns: seq<KanbanColumn>, s: int, t: int, p: int, r: seq<KanbanColumn>)
    requires WellFormed(columns) && 0 <= s < |columns| && 0 <= t < |columns| && s != t
    requires 0 <= p < |columns[s].candidates| && Transferred(columns, s, t, p, r)
    ensures WellFormed(r)
  {
    var cs := columns[s].candidates;
    var c := cs[p];
    assert forall k :: 0 <= k < |r| ==> r[k].id == columns[k].id;
    assert c in cs;
    IdsDistinctRemove(cs, p);
    IdsDistinctAppend(columns[t].candidates, c);
    assert forall k :: 0 <= k < |r| ==> IdsDistinct(r[k].candidates);
    forall a, b, x, y | 0 <= a < |r| && 0 <= b < |r| && a != b && x in r[a].candidates && y in r[b].candidates
      ensures x.id != y.id
    {
      TransferredMember(columns, s, t, p, r, a, x);
      TransferredMember(columns, s, t, p, r, b, y);
    }
  }

  /** Where a member of a transferred board came from. */
  lemma TransferredMember(columns: seq<KanbanColumn>, s: int, t: int, p: int, r: seq<KanbanColumn>,
                          a: int, x: CandidateWithId)
    requires WellFormed(columns) && 0 <= s < |columns| && 0 <= t < |columns| && s != t
    requires 0 <= p < |columns[s].candidates| && Transferred(columns, s, t, p, r)
    requires 0 <= a < |r| && x in r[a].candidates
    ensures x in columns[a].candidates || (a == t && x == columns[s].candidates[p])
    ensures a == s ==> x.id != columns[s].candidates[p].id
  {
    if a == s {
      RemovedAt(columns[s].candidates, p, x);
    }
  }

  /**
   * The move keeps a board well-formed and loses no candidate: the source and
   * target columns together hold the same candidates as before.
   */
  lemma MovePreservesWellFormed(columns: seq<KanbanColumn>, s: int, t: int, p: int)
    requires WellFormed(columns) && 0 <= s < |columns| && 0 <= t < |columns| && s != t
    requires 0 <= p < |columns[s].candidates|
    ensures var r := MoveCandidate(columns, columns[s].candidates[p].id, columns[s].id, Num(columns[t].id));
      && WellFormed(r)
      && multiset(r[s].candidates) + multiset(r[t].candidates)
         == multiset(columns[s].candidates) + multiset(columns[t].candidates)
  {
    var cs := columns[s].candidates;
    var r := MoveCandidate(columns, cs[p].id, columns[s].id, Num(columns[t].id));
    MoveEffect(columns, s, t, p);
    assert Transferred(columns, s, t, p, r);
    TransferKeepsWellFormed(columns, s, t, p, r);
    TransferKeepsCandidates(columns, s, t, p, r);
  }

  lemma TransferKeepsCandidates(columns: seq<KanbanColumn>, s: int, t: int, p: int, r: seq<KanbanColumn>)
    requires 0 <= s < |columns| && 0 <= t < |columns| && s != t
    requires 0 <= p < |columns[s].candidates| && Transferred(columns, s, t, p, r)
    ensures multiset(r[s].candidates) + multiset(r[t].candidates)
         == multiset(columns[s].candidates) + multiset(columns[t].candidates)
  {
    var cs := columns[s].candidates;
    assert cs == cs[..p] + [cs[p]] + cs[p + 1..];
  }

  /**
   * On a well-formed board, moving a candidate from `s` to `t` and back puts
   * every column back as it was, except that the candidate now sits at the
   * tail of `s`; `s` holds the same candidates as before.
   */
  lemma MoveRoundTrip(columns: seq<KanbanColumn>, s: int, t: int, p: int)
    requires WellFormed(columns) && 0 <= s < |columns| && 0 <= t < |columns| && s != t
    requires 0 <= p < |columns[s].candidates|
    ensures var c := columns[s].candidates[p];
      var there := MoveCandidate(columns, c.id, columns[s].id, Num(columns[t].id));
      var back := MoveCandidate(there, c.id, columns[t].id, Num(columns[s].id));
      && |back| == |columns|
      && back[s] == columns[s].(candidates := columns[s].candidates[..p] + columns[s].candidates[p + 1..] + [c])
      && multiset(back[s].candidates) == multiset(columns[s].candidates)
      && forall k :: 0 <= k < |columns| && k != s ==> back[k] == columns[k]
  {
    var c := columns[s].candidates[p];
    var there := MoveCandidate(columns, c.id, columns[s].id, Num(columns[t].id));
    MoveEffect(columns, s, t, p);
    assert Transferred(columns, s, t, p, there);
    MoveBack(columns, s, t, p, there);
  }

  /** The second half of the round trip, from a board the first move produced. */
  lemma MoveBack(columns: seq<KanbanColumn>, s: int, t: int, p: int, there: seq<KanbanColumn>)
    requires WellFormed(columns) && 0 <= s < |columns| && 0 <= t < |columns| && s != t
    requires 0 <= p < |columns[s].candidates| && Transferred(columns, s, t, p, there)
    ensures var c := columns[s].candidates[p];
      var back := MoveCandidate(there, c.id, columns[t].id, Num(columns[s].id));
      && |back| == |columns|
      && back[s] == columns[s].(candidates := columns[s].candidates[..p] + columns[s].candidates[p + 1..] + [c])
      && multiset(back[s].candidates) == multiset(columns[s].candidates)
      && forall k :: 0 <= k < |columns| && k != s ==> back[k] == columns[k]
  {
    var c := columns[s].candidates[p];
    TransferKeepsWellFormed(columns, s, t, p, there);
    var ct := columns[t].candidates;
    assert there[t].candidates[|ct|] == c;
    var back := MoveCandidate(there, c.id, columns[t].id, Num(columns[s].id));
    MoveEffect(there, t, s, |ct|);
    assert Transferred(there, t, s, |ct|, back);
    RoundTripShape(columns, s, t, p, there, back);
  }

  lemma RoundTripShape(columns: seq<KanbanColumn>, s: int, t: int, p: int,
                       there: seq<KanbanColumn>, back: seq<KanbanColumn>)
    requires 0 <= s < |columns| && 0 <= t < |columns| && s != t && 0 <= p < |columns[s].candidates|
    requires Transferred(columns, s, t, p, there)
    requires |columns[t].candidates| < |there[t].candidates|
    requires Transferred(there, t, s, |columns[t].candidates|, back)
    ensures var cs := columns[s].candidates;
      && |back| == |columns|
      && back[s] == columns[s].(candidates := cs[..p] + cs[p + 1..] + [cs[p]])
      && multiset(back[s].candidates) == multiset(cs)
      && forall k :: 0 <= k < |columns| && k != s ==> back[k] == columns[k]
  {
    var cs := columns[s].candidates;
    var ct := columns[t].candidates;
    assert (ct + [cs[p]])[..|ct|] == ct;
    assert (ct + [cs[p]])[|ct|] == cs[p];
    assert (ct + [cs[p]])[|ct| + 1..] == [];
    assert cs == cs[..p] + [cs[p]] + cs[p + 1..];
  }

  /**
   * A target that names no column (a NaN target included) makes the move a
   * deletion: the candidate leaves its source column and is put nowhere.
   */
  lemma MoveToMissingTargetDrops(columns: seq<KanbanColumn>, candidateId: string,
                                 sourceColumnId: int, targetColumnId: ColumnNumber)
    requires forall k :: 0 <= k < |columns| ==> targetColumnId != Num(columns[k].id)
    ensures MoveCandidate(columns, candidateId, sourceColumnId, targetColumnId) == Strip(columns, candidateId, sourceColumnId)
    ensures !InSource(MoveCandidate(columns, candidateId, sourceColumnId, targetColumnId), candidateId, sourceColumnId)
  {
    var r := MoveCandidate(columns, candidateId, sourceColumnId, targetColumnId);
    var stripped := Strip(columns, candidateId, sourceColumnId);
    TakenNoneIffAbsent(columns, candidateId, sourceColumnId);
    if !InSource(columns, candidateId, sourceColumnId) {
      forall k | 0 <= k < |columns| ensures stripped[k] == columns[k] {
        if columns[k].id == sourceColumnId {
          WithoutAbsent(columns[k].candidates, candidateId);
        }
      }
    }
    assert r == stripped;
    forall k, j | 0 <= k < |r| && r[k].id == sourceColumnId && 0 <= j < |r[k].candidates|
      ensures r[k].candidates[j].id != candidateId
    {
      assert r[k].candidates[j] in r[k].candidates;
      WithoutMembers(columns[k].candidates, candidateId, r[k].candidates[j]);
    }
  }
}
