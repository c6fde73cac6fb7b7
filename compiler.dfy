/** Statement compilation: the SELECT pipeline (index choice, lookups,
    flattening, residual filters, result columns), the UPDATE pipeline, the
    compiled result with its explain rendering, and the dispatch on the
    statement kind. */
module Compiler {
  import opened Types
  import opened IndexSelection
  import opened Lookup
  import opened Flattening

  /** A compiled statement.  A modifying statement has no result columns. */
  datatype CompileResult = CompileResult(
    resultOperator: Operator,
    resultRowType: RowType,
    resultColumns: Option<seq<Column>>,
    resultColumnOffsets: Option<seq<int>>,
    offset: int,
    limit: int)
  {
    predicate IsModify() {
      resultColumns.None?
    }
  }

  /** A result with result columns and their offsets, as a SELECT builds it. */
  function QueryResult(op: Operator, rowType: RowType, columns: seq<Column>, offsets: seq<int>,
                       offset: int, limit: int): CompileResult {
    CompileResult(op, rowType, Some(columns), Some(offsets), offset, limit)
  }

  /** A result of an operator and a row type only, as an UPDATE builds it:
      no result columns, offset 0 and no limit. */
  function ModifyResult(op: Operator, rowType: RowType): CompileResult {
    CompileResult(op, rowType, None, None, 0, -1)
  }

  /** `isModify` tells the two kinds of result apart. */
  lemma IsModifyTellsApart(op: Operator, rowType: RowType, columns: seq<Column>, offsets: seq<int>,
                           offset: int, limit: int)
    ensures ModifyResult(op, rowType).IsModify()
    ensures !QueryResult(op, rowType, columns, offsets, offset, limit).IsModify()
  {
  }

  // ---------------------------------------------------------------------
  // Explain rendering
  // ---------------------------------------------------------------------

  /** `depth` levels of two-space indentation. */
  function Indent(depth: nat): (s: string)
    ensures |s| == 2 * depth
    ensures forall k :: 0 <= k < |s| ==> s[k] == ' '
  {
    if depth == 0 then "" else Indent(depth - 1) + "  "
  }

  /** The input operators of an operator. */
  function InputsOf(op: Operator): (inputs: seq<Operator>)
    ensures op.HasInput() ==> inputs == [op.input]
    ensures !op.HasInput() ==> inputs == []
  {
    if op.HasInput() then [op.input] else []
  }

  /** Number of operators in the chain below and including `op`. */
  function ChainLength(op: Operator): nat {
    if op.HasInput() then 1 + ChainLength(op.input) else 1
  }

  /** The operator `k` steps below `op`. */
  function Below(op: Operator, k: nat): Operator
    requires k < ChainLength(op)
  {
    if k == 0 then op else Below(op.input, k - 1)
  }

  /** The explain lines of the plan rooted at `op` rendered at `depth`. */
  function ExplainLines(op: Operator, depth: nat, describe: Operator -> string): seq<string> {
    [Indent(depth) + describe(op)]
    + if op.HasInput() then ExplainLines(op.input, depth + 1, describe) else []
  }

  /** One line per operator, in pre-order: the k-th line shows the operator
      k steps down, indented by two spaces per level. */
  lemma {:induction false} ExplainLinesShape(op: Operator, depth: nat, describe: Operator -> string)
    ensures |ExplainLines(op, depth, describe)| == ChainLength(op)
    ensures forall k :: 0 <= k < ChainLength(op) ==> LineShows(op, depth, describe, k)
  {
    var lines := ExplainLines(op, depth, describe);
    assert LineShows(op, depth, describe, 0);
    if op.HasInput() {
      ExplainLinesShape(op.input, depth + 1, describe);
      var rest := ExplainLines(op.input, depth + 1, describe);
      assert lines == [Indent(depth) + describe(op)] + rest;
      forall k | 0 < k < ChainLength(op)
        ensures LineShows(op, depth, describe, k)
      {
        assert LineShows(op.input, depth + 1, describe, k - 1);
        assert lines[k] == rest[k - 1];
        assert Below(op, k) == Below(op.input, k - 1);
      }
    }
  }

  /** The k-th explain line of `op` shows the operator k steps down,
      indented by `depth + k` levels. */
  predicate LineShows(op: Operator, depth: nat, describe: Operator -> string, k: nat)
    requires k < ChainLength(op)
  {
    && k < |ExplainLines(op, depth, describe)|
    && ExplainLines(op, depth, describe)[k] == Indent(depth + k) + describe(Below(op, k))
  }

  /** Builds the indentation of one explain line. */
  method IndentString(depth: nat) returns (sb: string)
    ensures sb == Indent(depth)
  {
    sb := "";
    for i := 0 to depth
      invariant sb == Indent(i)
    {
      sb := sb + "  ";
    }
  }

  /** Appends the explain lines of `op` at `depth` to `into`. */
  method ExplainInto(op: Operator, into: seq<string>, depth: nat, describe: Operator -> string)
    returns (out: seq<string>)
    ensures out == into + ExplainLines(op, depth, describe)
    decreases op
  {
    var sb := IndentString(depth);
    sb := sb + describe(op);
    out := into + [sb];
    var inputs := InputsOf(op);
    for j := 0 to |inputs|
      invariant out == into + [sb] + (if j == 0 then [] else ExplainLines(op.input, depth + 1, describe))
    {
      out := ExplainInto(inputs[j], out, depth + 1, describe);
    }
    AppendOne(into, sb, if op.HasInput() then ExplainLines(op.input, depth + 1, describe) else []);
  }

  /** The explain rendering of a compiled statement. */
  method ExplainPlan(result: CompileResult, describe: Operator -> string) returns (lines: seq<string>)
    ensures lines == ExplainLines(result.resultOperator, 0, describe)
  {
    lines := ExplainInto(result.resultOperator, [], 0, describe);
  }

  // ---------------------------------------------------------------------
  // Residual conditions and used tables
  // ---------------------------------------------------------------------

  /** `conds` without the conditions in `removed`, in their order. */
  function RemoveConditions(conds: seq<ColumnCondition>, removed: set<ColumnCondition>): (rest: seq<ColumnCondition>)
    ensures |rest| <= |conds|
    ensures forall c :: c in rest <==> c in conds && c !in removed
  {
    if |conds| == 0 then []
    else RemoveConditions(conds[..|conds| - 1], removed)
         + (if conds[|conds| - 1] in removed then [] else [conds[|conds| - 1]])
  }

  /** Does the statement still reference table node `i`, from the select
      list or from a remaining condition? */
  predicate Referenced(q: SimplifiedQuery, i: nat) {
    || (exists e :: e in q.selectColumns && e.ColumnExpression? && e.table == i)
    || (exists c :: c in q.conditions && (c.table == i || (c.right.ColumnOperand? && c.right.table == i)))
  }

  /** The table nodes with their used flags recomputed. */
  function RecomputeUsed(q: SimplifiedQuery): (tables: seq<TableNode>)
    ensures |tables| == |q.tables|
    ensures forall i :: 0 <= i < |tables| ==> tables[i] == q.tables[i].(used := Referenced(q, i))
  {
    seq(|q.tables|, i requires 0 <= i < |q.tables| => q.tables[i].(used := Referenced(q, i)))
  }

  /** The query after the chosen index's conditions are taken out and the
      used flags recomputed; unchanged when no index is chosen. */
  function Prepared(q: SimplifiedQuery): (p: SimplifiedQuery)
    ensures |p.tables| == |q.tables| && p.joins == q.joins
  {
    match PickBest(q)
    case None => q
    case Some(u) =>
      var q1 := q.(conditions := RemoveConditions(q.conditions, IndexConditions(u)));
      q1.(tables := RecomputeUsed(q1))
  }

  /** The residual conditions are exactly the conditions the chosen index
      does not subsume, and recomputing the used flags changes nothing
      else about the table nodes. */
  lemma PreparedConditions(q: SimplifiedQuery)
    ensures PickBest(q).None? ==> Prepared(q) == q
    ensures PickBest(q).Some? ==>
      && (forall c :: c in Prepared(q).conditions <==>
            c in q.conditions && c !in IndexConditions(PickBest(q).value))
      && forall i :: 0 <= i < |q.tables| ==>
           && Prepared(q).tables[i].(used := q.tables[i].used) == q.tables[i]
           && (Prepared(q).tables[i].used <==> Referenced(Prepared(q), i))
  {
  }

  /** A constant equality on the column of the chosen index's i-th equality
      stays behind as a filter exactly when it is not the condition the
      lookup found for that column. */
  lemma LeadingEqualityResidual(q: SimplifiedQuery, i: nat, c: ColumnCondition)
    requires PickBest(q).Some? && i < |PickBest(q).value.equalityConditions|
    requires c in q.conditions
    requires IsColumnConstantCondition(c, PickBest(q).value.equalityConditions[i].column, EQ)
    ensures c in Prepared(q).conditions <==> c != PickBest(q).value.equalityConditions[i]
  {
    var u := PickBest(q).value;
    var eqs, columns := u.equalityConditions, u.index.columns;
    PickBestIsBest(q);
    EvaluateSound(q, u.table, u.index);
    EqualityRunIsMaximalPrefix(q.conditions, columns);
    PreparedConditions(q);
    if c != eqs[i] {
      forall j | 0 <= j < |eqs|
        ensures eqs[j] != c
      {
        if columns[j].column == columns[i].column {
          assert FindColumnConstantCondition(q.conditions, columns[j].column, EQ) == Some(eqs[j]);
          assert FindColumnConstantCondition(q.conditions, columns[i].column, EQ) == Some(eqs[i]);
        }
      }
      assert c !in IndexConditions(u);
    }
  }

  /** With at most one constant equality per column of the equality prefix,
      no constant equality on those columns is left to filter. */
  lemma SubsumedEqualitiesGone(q: SimplifiedQuery)
    requires PickBest(q).Some?
    requires var eqs := PickBest(q).value.equalityConditions;
      forall i, c1, c2 :: 0 <= i < |eqs| && c1 in q.conditions && c2 in q.conditions
        && IsColumnConstantCondition(c1, eqs[i].column, EQ) && IsColumnConstantCondition(c2, eqs[i].column, EQ)
        ==> c1 == c2
    ensures var eqs := PickBest(q).value.equalityConditions;
      forall i, c :: 0 <= i < |eqs| && c in Prepared(q).conditions ==> !IsColumnConstantCondition(c, eqs[i].column, EQ)
  {
    var eqs := PickBest(q).value.equalityConditions;
    PickBestIsBest(q);
    EvaluateSound(q, PickBest(q).value.table, PickBest(q).value.index);
    forall i, c | 0 <= i < |eqs| && c in Prepared(q).conditions
      ensures !IsColumnConstantCondition(c, eqs[i].column, EQ)
    {
      PreparedConditions(q);
    }
  }

  /** Column `a` of table 1, an index on it, and two constant equalities on it. */
  const ColumnA := Column(1, 0)
  const IndexOnA := TableIndex("a", 1, [IndexColumn(ColumnA, true)])
  const AEquals5 := ColumnCondition(1, 0, ColumnA, EQ, Constant(5))
  const AEquals6 := ColumnCondition(2, 0, ColumnA, EQ, Constant(6))

  function TwoEqualitiesOnA(): SimplifiedQuery {
    SimplifiedQuery(0, [TableNode(1, None, true, false, 1, [IndexOnA])], TableJoin(0),
                    [AEquals5, AEquals6], None, [], 0, -1)
  }

  /** Two constant equalities on the same indexed column: the index takes
      the first and the second one stays as a filter, so the residual
      conditions can still hold an equality on an equality-prefix column. */
  lemma DuplicateEqualityKept()
    ensures PickBest(TwoEqualitiesOnA()).Some?
    ensures PickBest(TwoEqualitiesOnA()).value.equalityConditions == [AEquals5]
    ensures AEquals6 in Prepared(TwoEqualitiesOnA()).conditions
  {
    var q := TwoEqualitiesOnA();
    var u := Evaluate(q, 0, IndexOnA);
    assert FindColumnConstantCondition(q.conditions, ColumnA, EQ) == Some(AEquals5);
    assert IndexOnA.columns[1..] == [];
    assert EqualityRun(q.conditions, IndexOnA.columns) == [AEquals5];
    assert IsUsable(u);
    assert UsableAmong(q, 0, [IndexOnA]) == [u] by {
      assert [IndexOnA][..0] == [];
    }
    assert Candidates(q, 1) == [u];
    assert FoldBest([u]) == Some(u) by {
      assert [u][..0] == [];
    }
    assert PickBest(q) == Some(u);
    LeadingEqualityResidual(q, 0, AEquals6);
  }

  // ---------------------------------------------------------------------
  // SELECT
  // ---------------------------------------------------------------------

  /** Shape of a SELECT handed over by the binding pipeline: a table tree,
      a join tree over its nodes, and select columns of joined tables. */
  predicate SelectWellFormed(q: SimplifiedQuery) {
    && WellFormedTree(q.tables)
    && RefersTo(q.tables, q.joins)
    && forall e :: e in q.selectColumns && e.ColumnExpression? ==> e.table in Leaves(q.joins)
  }

  lemma PreparedWellFormed(q: SimplifiedQuery)
    requires SelectWellFormed(q)
    ensures SelectWellFormed(Prepared(q))
    ensures Prepared(q).selectColumns == q.selectColumns
  {
    var p := Prepared(q);
    assert forall i :: 0 <= i < |p.tables| ==> p.tables[i].parent == q.tables[i].parent;
    RefersToSameLength(q.tables, p.tables, q.joins);
  }

  lemma {:induction false} RefersToSameLength(tables: seq<TableNode>, tables': seq<TableNode>, j: JoinNode)
    requires RefersTo(tables, j) && |tables'| == |tables|
    ensures RefersTo(tables', j)
  {
    match j
    case TableJoin(_) =>
    case JoinJoin(l, r, _) =>
      RefersToSameLength(tables, tables', l);
      RefersToSameLength(tables, tables', r);
  }

  /** The row type of the chosen index. */
  function IndexTypeOf(tables: seq<TableNode>, u: Usage): RowType
    requires u.table < |tables|
  {
    IndexRowType(tables[u.table].tableId, u.index.name)
  }

  /** Does the statement ask for an order that the chosen index does not
      deliver? */
  predicate SortUnsupported(q: SimplifiedQuery) {
    q.sortColumns.Some? && !(PickBest(q).Some? && PickBest(q).value.sorting)
  }

  /** ORDER BY is rejected exactly when no usable index of a used, non-outer
      table delivers the requested order. */
  lemma SortUnsupportedIff(q: SimplifiedQuery)
    ensures SortUnsupported(q) <==>
      q.sortColumns.Some? && !exists u :: u in Candidates(q, |q.tables|) && u.sorting
  {
    PickBestIsBest(q);
    if PickBest(q).Some? {
      var k := FoldBestIsFirstMaximum(Candidates(q, |q.tables|));
    }
  }

  /** The access path: a group scan without an index; with one, an index
      scan over the chosen key range followed by the lookups. */
  function AccessPlan(q: SimplifiedQuery): Operator
    requires SelectWellFormed(q)
  {
    match PickBest(q)
    case None => GroupScan(q.group)
    case Some(u) =>
      PickBestIsBest(q);
      EvaluateSound(q, u.table, u.index);
      PreparedWellFormed(q);
      var p := Prepared(q);
      var indexType := IndexTypeOf(p.tables, u);
      LookupPlan(p.tables, u.table, q.group, indexType, IndexScan(indexType, u.reverse, KeyRange(u)))
  }

  /** The access path reads the chosen index when there is one and the
      whole group otherwise; a branch lookup is part of it iff a strict
      descendant of the index table is still used. */
  lemma AccessPlanShape(q: SimplifiedQuery)
    requires SelectWellFormed(q)
    ensures PickBest(q).None? ==> AccessPlan(q) == GroupScan(q.group)
    ensures PickBest(q).Some? ==>
      var u := PickBest(q).value;
      && u.table < |Prepared(q).tables|
      && AccessPlan(q).Source().IndexScan?
      && AccessPlan(q).Source().indexType == IndexTypeOf(Prepared(q).tables, u)
      && AccessPlan(q).Source().reverse == u.reverse
      && (AccessPlan(q).HasBranchLookup() <==> DescendantUsed(Prepared(q).tables, u.table))
  {
    if PickBest(q).Some? {
      var u := PickBest(q).value;
      PickBestIsBest(q);
      EvaluateSound(q, u.table, u.index);
      PreparedWellFormed(q);
      var p := Prepared(q);
      var indexType := IndexTypeOf(p.tables, u);
      LookupPlanShape(p.tables, u.table, q.group, indexType, IndexScan(indexType, u.reverse, KeyRange(u)));
    }
  }

  /** One select operator per condition, in the order of the conditions,
      each testing the flattened row. */
  function FilterChain(op: Operator, rowType: RowType, offsets: map<nat, int>, conds: seq<ColumnCondition>): Operator {
    if |conds| == 0 then op
    else SelectHKeyOrdered(FilterChain(op, rowType, offsets, conds[..|conds| - 1]), rowType,
                           ConditionPredicate(conds[|conds| - 1], offsets))
  }

  /** Filters stack on top of the plan without changing its source or its
      lookups, and there is one per condition. */
  lemma {:induction false} FilterChainShape(op: Operator, rowType: RowType, offsets: map<nat, int>, conds: seq<ColumnCondition>)
    ensures FilterChain(op, rowType, offsets, conds).Source() == op.Source()
    ensures FilterChain(op, rowType, offsets, conds).HasBranchLookup() <==> op.HasBranchLookup()
    ensures ChainLength(FilterChain(op, rowType, offsets, conds)) == ChainLength(op) + |conds|
    decreases |conds|
  {
    if |conds| > 0 {
      FilterChainShape(op, rowType, offsets, conds[..|conds| - 1]);
    }
  }

  method AddFilters(op: Operator, rowType: RowType, offsets: map<nat, int>, conds: seq<ColumnCondition>)
    returns (res: Operator)
    ensures res == FilterChain(op, rowType, offsets, conds)
  {
    res := op;
    for i := 0 to |conds|
      invariant res == FilterChain(op, rowType, offsets, conds[..i])
    {
      assert conds[..i + 1][..i] == conds[..i];
      res := SelectHKeyOrdered(res, rowType, ConditionPredicate(conds[i], offsets));
    }
    assert conds[..|conds|] == conds;
  }

  /** Position of the first select expression that is not a column. */
  function FirstNonColumn(exprs: seq<SimpleExpression>): (k: Option<nat>)
    ensures k.Some? ==>
      && k.value < |exprs| && !exprs[k.value].ColumnExpression?
      && forall i :: 0 <= i < k.value ==> exprs[i].ColumnExpression?
    ensures k.None? ==> forall i :: 0 <= i < |exprs| ==> exprs[i].ColumnExpression?
  {
    if |exprs| == 0 then None
    else if !exprs[0].ColumnExpression? then Some(0)
    else match FirstNonColumn(exprs[1..])
      case None => None
      case Some(k) => Some(k + 1)
  }

  /** The result column offset of a column of a joined table. */
  function ColumnOffset(offsets: map<nat, int>, e: SimpleExpression): int
    requires e.ColumnExpression? && e.table in offsets
  {
    offsets[e.table] + e.column.position
  }

  /** The result columns and their offsets in the flattened row, or the
      error for the first select expression that is not a column. */
  method ResultColumns(exprs: seq<SimpleExpression>, offsets: map<nat, int>)
    returns (r: Result<(seq<Column>, seq<int>), Error>)
    requires forall e :: e in exprs && e.ColumnExpression? ==> e.table in offsets
    ensures FirstNonColumn(exprs).Some? ==>
      r == Failure(Unsupported("Unsupported result column: " + exprs[FirstNonColumn(exprs).value].text))
    ensures FirstNonColumn(exprs).None? ==>
      && r.Success?
      && |r.value.0| == |exprs| && |r.value.1| == |exprs|
      && forall i :: 0 <= i < |exprs| ==>
           r.value.0[i] == exprs[i].column && r.value.1[i] == ColumnOffset(offsets, exprs[i])
  {
    var ncols := |exprs|;
    var columns: seq<Column> := [];
    var columnOffsets := new int[ncols];
    for i := 0 to ncols
      invariant |columns| == i
      invariant forall k :: 0 <= k < i ==> exprs[k].ColumnExpression?
      invariant forall k :: 0 <= k < i ==>
        columns[k] == exprs[k].column && columnOffsets[k] == ColumnOffset(offsets, exprs[k])
    {
      var selectExpr := exprs[i];
      if !selectExpr.ColumnExpression? {
        return Failure(Unsupported("Unsupported result column: " + selectExpr.text));
      }
      columns := columns + [selectExpr.column];
      columnOffsets[i] := offsets[selectExpr.table] + selectExpr.column.position;
    }
    r := Success((columns, columnOffsets[..]));
  }

  /** Compiles a SELECT.  It fails with "Unsupported ORDER BY" when an order
      is asked for and the chosen index does not deliver it, and otherwise
      with "Unsupported result column: ..." for the first select expression
      that is not a column.  On success the plan is the access path, then
      one flatten operator per join, then one filter per residual condition;
      each result column's offset is its table's offset in the flattened row
      plus the column's position. */
  method CompileSelect(q: SimplifiedQuery) returns (r: Result<CompileResult, Error>)
    requires SelectWellFormed(q)
    ensures SortUnsupported(q) ==> r == Failure(Unsupported("Unsupported ORDER BY"))
    ensures !SortUnsupported(q) && FirstNonColumn(q.selectColumns).Some? ==>
      r == Failure(Unsupported("Unsupported result column: " + q.selectColumns[FirstNonColumn(q.selectColumns).value].text))
    ensures !SortUnsupported(q) && FirstNonColumn(q.selectColumns).None? ==>
      && r.Success?
      && var p := Prepared(q);
      && RefersTo(p.tables, q.joins)
      && var offsets := Offsets(p.tables, q.joins);
      && var rowType := RowTypeOf(p.tables, q.joins);
      && r.value.resultOperator == FilterChain(FlattenPlan(p.tables, AccessPlan(q), q.joins), rowType, offsets, p.conditions)
      && r.value.resultRowType == rowType
      && r.value.resultColumns.Some? && r.value.resultColumnOffsets.Some?
      && |r.value.resultColumns.value| == |q.selectColumns| == |r.value.resultColumnOffsets.value|
      && (forall i :: 0 <= i < |q.selectColumns| ==>
            && q.selectColumns[i].table in offsets
            && r.value.resultColumns.value[i] == q.selectColumns[i].column
            && r.value.resultColumnOffsets.value[i] == offsets[q.selectColumns[i].table] + q.selectColumns[i].column.position)
      && r.value.offset == q.offset && r.value.limit == q.limit
  {
    var index := PickBestIndex(q);
    if q.sortColumns.Some? && !(index != null && index.sorting) {
      return Failure(Unsupported("Unsupported ORDER BY"));
    }
    PreparedWellFormed(q);
    var squery := q;
    var resultOperator: Operator;
    if index != null {
      ghost var u := index.Value();
      PickBestIsBest(q);
      EvaluateSound(q, u.table, u.index);
      squery := squery.(conditions := RemoveConditions(squery.conditions, IndexConditions(index.Value())));
      squery := squery.(tables := RecomputeUsed(squery));
      assert squery == Prepared(q);
      var indexTable := index.table;
      var indexType := IndexRowType(squery.tables[indexTable].tableId, index.index.name);
      var range := index.GetIndexKeyRange();
      resultOperator := IndexScan(indexType, index.reverse, range);
      resultOperator := AddLookups(squery.tables, indexTable, q.group, indexType, resultOperator);
    } else {
      resultOperator := GroupScan(q.group);
    }
    assert resultOperator == AccessPlan(q);
    var fl := new Flattener(resultOperator);
    var fls := fl.Flatten(squery.tables, squery.joins);
    resultOperator := fl.resultOperator;
    var resultRowType := fls.resultRowType;
    var fieldOffsets := fls.fieldOffsets;
    OffsetsKeys(squery.tables, squery.joins);
    resultOperator := AddFilters(resultOperator, resultRowType, fieldOffsets, squery.conditions);
    var columns := ResultColumns(squery.selectColumns, fieldOffsets);
    if columns.Failure? {
      return Failure(columns.error);
    }
    r := Success(QueryResult(resultOperator, resultRowType, columns.value.0, columns.value.1,
                               squery.offset, squery.limit));
  }

  /** A result column of a SELECT lands inside the flattened row, and
      columns of different tables land on different fields. */
  lemma SelectColumnOffsets(q: SimplifiedQuery, i: nat, k: nat)
    requires SelectWellFormed(q) && DistinctLeaves(q.joins)
    requires i < |q.selectColumns| && k < |q.selectColumns|
    requires q.selectColumns[i].ColumnExpression? && q.selectColumns[k].ColumnExpression?
    requires q.selectColumns[i].table < |q.tables| && q.selectColumns[k].table < |q.tables|
    requires q.selectColumns[i].column.position < q.tables[q.selectColumns[i].table].nfields
    requires q.selectColumns[k].column.position < q.tables[q.selectColumns[k].table].nfields
    ensures var p := Prepared(q);
      && RefersTo(p.tables, q.joins)
      && var offsets := Offsets(p.tables, q.joins);
      && var a, b := q.selectColumns[i], q.selectColumns[k];
      && a.table in offsets && b.table in offsets
      && 0 <= offsets[a.table] + a.column.position < FieldCount(p.tables, q.joins)
      && (a.table != b.table ==> offsets[a.table] + a.column.position != offsets[b.table] + b.column.position)
  {
    PreparedWellFormed(q);
    var p := Prepared(q);
    var a, b := q.selectColumns[i], q.selectColumns[k];
    assert a in q.selectColumns && b in q.selectColumns;
    PreparedConditions(q);
    ColumnFieldsDisjoint(p.tables, q.joins, a.table, a.column.position, b.table, b.column.position);
  }

  // ---------------------------------------------------------------------
  // UPDATE
  // ---------------------------------------------------------------------

  /** `column = value` in the SET list. */
  datatype UpdateColumn = UpdateColumn(column: Column, value: Operand)

  /** An UPDATE: its query part, the target table node and the SET list. */
  datatype SimplifiedUpdate = SimplifiedUpdate(query: SimplifiedQuery, target: nat, updateColumns: seq<UpdateColumn>)

  /** The value a SET list gives to field `p`: that of the last entry for
      that position, if any. */
  function UpdateAt(cols: seq<UpdateColumn>, p: nat, offsets: map<nat, int>): Option<Expression> {
    if |cols| == 0 then None
    else if cols[|cols| - 1].column.position == p then Some(ValueExpression(cols[|cols| - 1].value, offsets))
    else UpdateAt(cols[..|cols| - 1], p, offsets)
  }

  /** A field gets a value iff some SET entry names its position, and then
      the value of the last such entry. */
  lemma {:induction false} UpdateAtExactly(cols: seq<UpdateColumn>, p: nat, offsets: map<nat, int>)
    ensures UpdateAt(cols, p, offsets).Some? <==> exists i :: 0 <= i < |cols| && cols[i].column.position == p
    ensures UpdateAt(cols, p, offsets).Some? ==>
      exists i :: 0 <= i < |cols| && cols[i].column.position == p
        && UpdateAt(cols, p, offsets) == Some(ValueExpression(cols[i].value, offsets))
        && forall k :: i < k < |cols| ==> cols[k].column.position != p
    decreases |cols|
  {
    if |cols| > 0 {
      var init := cols[..|cols| - 1];
      UpdateAtExactly(init, p, offsets);
      if cols[|cols| - 1].column.position != p {
        assert forall i :: 0 <= i < |init| ==> init[i] == cols[i];
        if UpdateAt(cols, p, offsets).Some? {
          var i :| 0 <= i < |init| && init[i].column.position == p
            && UpdateAt(init, p, offsets) == Some(ValueExpression(init[i].value, offsets))
            && forall k :: i < k < |init| ==> init[k].column.position != p;
          assert cols[i] == init[i];
        }
      }
    }
  }

  /** The update vector: one slot per field of the target row, filled by
      position from the SET list. */
  method UpdateVector(nFields: nat, cols: seq<UpdateColumn>, offsets: map<nat, int>)
    returns (updates: seq<Option<Expression>>)
    requires forall i :: 0 <= i < |cols| ==> cols[i].column.position < nFields
    ensures |updates| == nFields
    ensures forall p :: 0 <= p < nFields ==> updates[p] == UpdateAt(cols, p, offsets)
  {
    var a := new Option<Expression>[nFields](_ => None);
    for i := 0 to |cols|
      invariant forall p :: 0 <= p < nFields ==> a[p] == UpdateAt(cols[..i], p, offsets)
    {
      assert cols[..i + 1][..i] == cols[..i];
      a[cols[i].column.position] := Some(ValueExpression(cols[i].value, offsets));
    }
    assert cols[..|cols|] == cols;
    updates := a[..];
  }

  /** The access path of an UPDATE: the chosen index scan followed by a
      branch lookup of the target rows, or a group scan. */
  function UpdateAccessPlan(s: SimplifiedUpdate): Operator
    requires s.target < |s.query.tables|
  {
    var q := s.query;
    var targetRowType := TableRowType(q.tables[s.target].tableId);
    match PickBest(q)
    case None => GroupScan(q.group)
    case Some(u) =>
      PickBestIsBest(q);
      EvaluateSound(q, u.table, u.index);
      var indexType := IndexRowType(q.tables[s.target].tableId, u.index.name);
      BranchLookup(IndexScan(indexType, u.reverse, KeyRange(u)), q.group, indexType, targetRowType, false)
  }

  /** The conditions an UPDATE still filters on. */
  function UpdateResidual(q: SimplifiedQuery): seq<ColumnCondition> {
    match PickBest(q)
    case None => q.conditions
    case Some(u) => RemoveConditions(q.conditions, IndexConditions(u))
  }

  /** Compiles an UPDATE: access path, one filter per residual condition
      over the target row (the target at offset 0), then the update
      operator with the update vector.  The result has no result columns,
      offset 0 and no limit. */
  method CompileUpdate(s: SimplifiedUpdate) returns (r: CompileResult)
    requires s.target < |s.query.tables|
    requires forall i :: 0 <= i < |s.updateColumns| ==>
      s.updateColumns[i].column.position < s.query.tables[s.target].nfields
    ensures r.IsModify() && r.resultColumnOffsets.None?
    ensures r.resultRowType == TableRowType(s.query.tables[s.target].tableId)
    ensures r.offset == 0 && r.limit == -1
    ensures r.resultOperator.UpdateDefault?
    ensures r.resultOperator.input ==
      FilterChain(UpdateAccessPlan(s), r.resultRowType, map[s.target := 0], UpdateResidual(s.query))
    ensures |r.resultOperator.updates| == s.query.tables[s.target].nfields
    ensures forall p :: 0 <= p < |r.resultOperator.updates| ==>
      r.resultOperator.updates[p] == UpdateAt(s.updateColumns, p, map[s.target := 0])
  {
    var supdate := s.query;
    var targetTable := s.target;
    var targetRowType := TableRowType(supdate.tables[targetTable].tableId);
    var index := PickBestIndex(supdate);
    var resultOperator: Operator;
    if index != null {
      ghost var u := index.Value();
      PickBestIsBest(supdate);
      EvaluateSound(supdate, u.table, u.index);
      supdate := supdate.(conditions := RemoveConditions(supdate.conditions, IndexConditions(index.Value())));
      var indexType := IndexRowType(s.query.tables[targetTable].tableId, index.index.name);
      var range := index.GetIndexKeyRange();
      resultOperator := IndexScan(indexType, index.reverse, range);
      resultOperator := BranchLookup(resultOperator, supdate.group, indexType, targetRowType, false);
    } else {
      resultOperator := GroupScan(supdate.group);
    }
    assert resultOperator == UpdateAccessPlan(s);
    assert supdate.conditions == UpdateResidual(s.query);
    var fieldOffsets := map[targetTable := 0];
    resultOperator := AddFilters(resultOperator, targetRowType, fieldOffsets, supdate.conditions);
    var updates := UpdateVector(s.query.tables[targetTable].nfields, s.updateColumns, fieldOffsets);
    resultOperator := UpdateDefault(resultOperator, updates);
    r := ModifyResult(resultOperator, targetRowType);
  }

  // ---------------------------------------------------------------------
  // Dispatch
  // ---------------------------------------------------------------------

  /** A bound DML statement by kind; any other kind carries its text. */
  datatype Statement =
    | CursorStatement(select: SimplifiedQuery)
    | UpdateStatement(update: SimplifiedUpdate)
    | InsertStatement
    | DeleteStatement
    | OtherStatement(text: string)

  predicate StatementWellFormed(stmt: Statement) {
    match stmt
    case CursorStatement(q) => SelectWellFormed(q)
    case UpdateStatement(s) =>
      && s.target < |s.query.tables|
      && forall i :: 0 <= i < |s.updateColumns| ==>
           s.updateColumns[i].column.position < s.query.tables[s.target].nfields
    case _ => true
  }

  /** Compiles a statement by kind.  INSERT and DELETE are not supported yet
      and any other kind is rejected; a successful result is a modifying
      one iff the statement is an UPDATE. */
  method Compile(stmt: Statement) returns (r: Result<CompileResult, Error>)
    requires StatementWellFormed(stmt)
    ensures stmt.InsertStatement? ==> r == Failure(Unsupported("No Insert operators yet"))
    ensures stmt.DeleteStatement? ==> r == Failure(Unsupported("No Delete operators yet"))
    ensures stmt.OtherStatement? ==> r == Failure(Unsupported("Unsupported statement type: " + stmt.text))
    ensures stmt.UpdateStatement? ==> r.Success?
    ensures stmt.CursorStatement? ==>
      (r.Success? <==> !SortUnsupported(stmt.select) && FirstNonColumn(stmt.select.selectColumns).None?)
    ensures r.Success? ==> (r.value.IsModify() <==> stmt.UpdateStatement?)
  {
    match stmt
    case CursorStatement(q) =>
      r := CompileSelect(q);
    case UpdateStatement(s) =>
      var u := CompileUpdate(s);
      r := Success(u);
    case InsertStatement =>
      r := Failure(Unsupported("No Insert operators yet"));
    case DeleteStatement =>
      r := Failure(Unsupported("No Delete operators yet"));
    case OtherStatement(text) =>
      r := Failure(Unsupported("Unsupported statement type: " + text));
  }
}
