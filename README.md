# Operator compiler of the Akiban SQL layer, modelled in Dafny

This project models the core of the Akiban SQL operator compiler: the part
that turns an already bound, grouped and join-reordered statement (the
"simplified query") into a tree of physical operators, together with the
visitor protocol and copy of the `Filter` plan node.

What is modelled:

- **Index selection** (`IndexSelection`, `index_selection.dfy`). For each
  index of each used, non-outer table node, an `IndexUsage` candidate is
  evaluated: the longest run of leading index columns that have an
  equality-to-constant condition, at most one low (GT/GE) and one high
  (LT/LE) bound on the next column, and whether the index delivers the
  requested ORDER BY and in which direction. Candidates are ranked
  lexicographically (sorting, equalities, bounds, owning table id) and the
  first maximal one is chosen. The chosen candidate yields its subsumed
  conditions and its index key range.
- **Lookup decision** (`Lookup`, `lookup.dfy`). After an index scan of a
  table node, a branch lookup is added iff a strict descendant of that
  table node is used, and an ancestor lookup fetches the used tables above
  it (and the table itself when no branch lookup brings it in).
- **Join flattening** (`Flattening`, `flatten.dfy`). A post-order walk of
  the binary join tree adds one flatten operator per join node and assigns
  each table node the offset of its first field in the flattened row.
- **Statement glue** (`Compiler`, `compiler.dfy`). SELECT and UPDATE
  compilation with their error cases, the result columns and their
  offsets, the update vector, the modify flag of a result, the
  depth-indented explain rendering and the dispatch on statement kind.
- **Filter plan node** (`PlanFilter`, `filter.dfy`). `accept` with enter
  and leave gating, the in-place rewrite of the condition list, the early
  exit of read-only visitors, and `deepCopy`, which replaces the shared
  condition list by a copy.

Shared data (table nodes, conditions, indexes, join trees, row types and
operators) is in `Types` (`types.dfy`). Catalog objects, row types,
generated expressions and physical operators are opaque values built by
constructors. The table nodes of a statement are a sequence in which a
parent always comes before its children: a parent link, an object
reference in the source, is the position of the parent node here, so
every parent chain ends. The join tree names table nodes by position.

Modelling choices:

- The query's `findColumnConstantCondition` is not part of this model's
  sources. It is modelled as returning the first condition of the query on
  that column with a constant right-hand side and an operator in the
  requested family: EQ finds EQ, GT finds GT or GE, LT finds LT or LE. The
  key-range code tests for GE and LE on conditions found by a GT or LT
  lookup, which is why the families include them.
- A candidate with no equality conditions has an empty list; the source
  leaves the list unallocated (null) in that case, and every test of it
  for null is a test for emptiness here.
- Object identity of conditions and columns is value equality.
- `SimplifiedQuery.removeConditions` and `recomputeUsed` are not part of
  this model's sources. Removal keeps the order of the remaining
  conditions. A table node is used after recomputation iff a select column
  or a remaining condition refers to it. `reorderJoins` is taken as
  already applied to the join tree.
- Removing the chosen index's conditions takes out exactly the conditions
  the index subsumes. An equality on a column of the equality prefix is
  removed only when it is the condition the lookup found for that column:
  a second constant equality on the same column stays behind as a filter
  (`Compiler.DuplicateEqualityKept`). So "no equality remains on those
  columns" holds only when each of them has at most one constant equality
  (`Compiler.SubsumedEqualitiesGone`); keeping the second condition as a
  filter is what makes the query still correct.
- The visitor is a class with fixed answers (to enter, to leave, for the
  input's traversal, per condition) and a trace of what it was shown.
  Whether it is a rewrite visitor or an expression visitor is fixed too.
- `toString` of an operator is a function parameter of the explain
  rendering.

## Model

| member | source | states |
|---|---|---|
| IndexSelection.FindColumnConstantCondition | src/main/java/com/akiban/sql/optimizer/OperatorCompiler.java:459-474 | a found condition is a query condition on that column, with a constant operand and an operator of the requested family; none is found iff no condition qualifies |
| IndexSelection.EqualityRunIsMaximalPrefix | src/main/java/com/akiban/sql/optimizer/OperatorCompiler.java:458-469 | the equality run holds, column by column, the condition found for each leading index column, and stops only at a column with no equality condition |
| IndexSelection.EvaluateSound | src/main/java/com/akiban/sql/optimizer/OperatorCompiler.java:454-475 | every recorded condition is a constant condition of the query on the index column it claims: equalities on the leading columns, a GT/GE low bound and an LT/LE high bound on the next one |
| IndexSelection.BoundsOnlyOnNextColumn | src/main/java/com/akiban/sql/optimizer/OperatorCompiler.java:470-475 | bounds are sought only on the column at position `nequals`, and not at all when every index column has an equality |
| IndexSelection.IndexUsage.Usable | src/main/java/com/akiban/sql/optimizer/OperatorCompiler.java:454-506 | sets the candidate's fields to the equality run, the bounds, the sorting flag (every sort column i is index column nequals+i with one shared direction mismatch) and the reverse flag (mismatch of the first sort column); returns true iff there is an equality, a bound or sorting |
| IndexSelection.Compare | src/main/java/com/akiban/sql/optimizer/OperatorCompiler.java:423-451 | the comparison is the lexicographic comparison of (sorting, number of equalities, number of bounds, owning table id), and is 0 exactly on equal ranks |
| IndexSelection.CompareIsTotalPreorder | src/main/java/com/akiban/sql/optimizer/OperatorCompiler.java:423-451 | the comparison is antisymmetric and transitive |
| IndexSelection.CompareCriteria | src/main/java/com/akiban/sql/optimizer/OperatorCompiler.java:423-451 | sorting beats not sorting; then more equalities win; then more bounds; a tie needs equal owning table ids |
| IndexSelection.FoldBestIsFirstMaximum | src/main/java/com/akiban/sql/optimizer/OperatorCompiler.java:568-573 | replacing the best only on a strictly greater candidate keeps the first candidate of maximal rank |
| IndexSelection.PickBestIsBest | src/main/java/com/akiban/sql/optimizer/OperatorCompiler.java:558-577 | the choice is a usable index of a used, non-outer table node; no candidate ranks above it; it sorts whenever some candidate sorts; there is none iff the query has no conditions and no ORDER BY, or no candidate is usable |
| IndexSelection.PickBestIndex | src/main/java/com/akiban/sql/optimizer/OperatorCompiler.java:558-577 | the loop over table nodes and indexes returns the candidate of the selection rule, and null when the query has no conditions and no ORDER BY |
| IndexSelection.IndexConditions | src/main/java/com/akiban/sql/optimizer/OperatorCompiler.java:400-409 | the subsumed conditions are exactly the equalities, the low bound and the high bound |
| IndexSelection.IndexConditionsFromQuery | src/main/java/com/akiban/sql/optimizer/OperatorCompiler.java:400-409 | every subsumed condition is a constant condition of the query on a column of the index |
| IndexSelection.IndexUsage.GetIndexKeyRange | src/main/java/com/akiban/sql/optimizer/OperatorCompiler.java:509-554 | unbounded with both flags false when there are no conditions; with equalities only, one bound used as inclusive low and high; otherwise equality keys in slots 0..kidx-1, the bound value in slot kidx, low inclusive iff GE, high inclusive iff LE, and no bound on an absent side |
| Lookup.Subtree | src/main/java/com/akiban/sql/optimizer/OperatorCompiler.java:223 | the subtree starts with the index table, followed by its strict descendants, and every strict descendant is in it |
| Lookup.ScanSubtree | src/main/java/com/akiban/sql/optimizer/OperatorCompiler.java:222-231 | `tableUsed` is the index table's flag and `descendantUsed` holds iff some strict descendant is used |
| Lookup.WantedAncestorMember | src/main/java/com/akiban/sql/optimizer/OperatorCompiler.java:241-249 | a table is collected iff it is on the parent chain and wanted: the index table only when asked for, the others when used |
| Lookup.WantedAncestorsDecreasing | src/main/java/com/akiban/sql/optimizer/OperatorCompiler.java:241-249 | the collected tables are in child-to-root order |
| Lookup.AncestorLookupTypes | src/main/java/com/akiban/sql/optimizer/OperatorCompiler.java:240-249 | the walk up the parent chain collects the row types of the wanted tables, child first |
| Lookup.AddLookups | src/main/java/com/akiban/sql/optimizer/OperatorCompiler.java:222-253 | builds the lookup plan: branch lookup iff a descendant is used; ancestor lookup iff some table is wanted, from the table type after a branch lookup and from the index type otherwise, keeping its input iff descendant and table are both used |
| Lookup.LookupRule | src/main/java/com/akiban/sql/optimizer/OperatorCompiler.java:240-253 | the ancestor targets are the used strict ancestors plus the index table iff it is used and no branch lookup brings it in, child before parent |
| Lookup.LookupPlanShape | src/main/java/com/akiban/sql/optimizer/OperatorCompiler.java:232-253 | the plan holds a branch lookup iff a strict descendant is used, an ancestor lookup iff some table is wanted, and the scan stays its source |
| Flattening.FlagsFor | src/main/java/com/akiban/sql/optimizer/OperatorCompiler.java:643-651 | LEFT gives the left-join flag, RIGHT the right-join flag, any other join type the default |
| Flattening.FlattenState.MergeFields | src/main/java/com/akiban/sql/optimizer/OperatorCompiler.java:607-612 | every offset of the other state is added shifted by this state's field count, the rest is kept, and the field counts add |
| Flattening.Flattener.Flatten | src/main/java/com/akiban/sql/optimizer/OperatorCompiler.java:628-660 | a leaf gets offset 0 and its own field count; a join shifts the right side's offsets by the left side's field count and adds one flatten operator after both sides, with the flattened row type |
| Flattening.OffsetsKeys | src/main/java/com/akiban/sql/optimizer/OperatorCompiler.java:628-660 | the offset map has an entry exactly for the table nodes of the join tree |
| Flattening.OffsetsArePrefixSums | src/main/java/com/akiban/sql/optimizer/OperatorCompiler.java:628-660 | the offset of the k-th table of the join tree is the total field count of the tables before it, and the row is as wide as all of them |
| Flattening.ColumnFieldsDisjoint | src/main/java/com/akiban/sql/optimizer/OperatorCompiler.java:291 | a column's field (table offset plus position) lies inside the flattened row, and columns of different tables get different fields |
| Flattening.FlattenPlanSource | src/main/java/com/akiban/sql/optimizer/OperatorCompiler.java:641-655 | flattening only stacks operators on its input: the source and the lookups of the plan are unchanged |
| PlanFilter.Filter.Accept | src/main/java/com/akiban/sql/optimizer/plan/Filter.java:37-55 | returns the visitor's leave answer; the visitor sees enter, then the input iff entered, then the conditions iff the input's traversal went on, and leave in every case; conditions change only under a rewrite visitor, in place |
| PlanFilter.Filter.RewriteConditions | src/main/java/com/akiban/sql/optimizer/plan/Filter.java:40-43 | each condition is replaced in place by its rewritten form, in order, keeping the length |
| PlanFilter.Filter.VisitConditions | src/main/java/com/akiban/sql/optimizer/plan/Filter.java:45-50 | a read-only visitor is shown the conditions in order up to and including the first one after which it does not go on |
| PlanFilter.Rewritten | src/main/java/com/akiban/sql/optimizer/plan/Filter.java:40-43 | the rewritten list has the same length and holds the rewrite of each condition at its position |
| PlanFilter.VisitedUntilStopExactly | src/main/java/com/akiban/sql/optimizer/plan/Filter.java:45-50 | the visited conditions form a prefix, non-empty when there are conditions, every one but the last lets the visit go on, and a shorter prefix ends at one that stops it |
| PlanFilter.VisitedUntilStopAt | src/main/java/com/akiban/sql/optimizer/plan/Filter.java:45-50 | when the first i conditions go on and the next one stops, exactly i+1 conditions are visited; all of them when none stops |
| PlanFilter.AcceptTraceGating | src/main/java/com/akiban/sql/optimizer/plan/Filter.java:37-55 | leave is always the last event, the input is visited iff the visitor entered, and no condition is shown unless the visitor entered and the input went on |
| PlanFilter.Filter.DeepCopy | src/main/java/com/akiban/sql/optimizer/plan/Filter.java:63-66 | the node gets a new condition list with the same contents |
| PlanFilter.Filter.Duplicate | src/main/java/com/akiban/sql/optimizer/plan/Filter.java:63-66 | a duplicate has the same input and conditions in a list of its own |
| PlanFilter.RewriteDuplicate | src/main/java/com/akiban/sql/optimizer/plan/Filter.java:63-66 | rewriting the conditions of a duplicate leaves the original's conditions as they were |
| Compiler.Indent | src/main/java/com/akiban/sql/optimizer/OperatorCompiler.java:155-156 | the indentation of depth d is 2·d spaces |
| Compiler.IndentString | src/main/java/com/akiban/sql/optimizer/OperatorCompiler.java:155-156 | the loop appends two spaces per level, giving exactly the indentation of the depth |
| Compiler.ExplainLinesShape | src/main/java/com/akiban/sql/optimizer/OperatorCompiler.java:151-162 | one line per operator in pre-order; the k-th line is the operator k levels down, indented by 2·(depth+k) spaces |
| Compiler.ExplainInto | src/main/java/com/akiban/sql/optimizer/OperatorCompiler.java:151-162 | appends exactly the explain lines of the plan at the given depth |
| Compiler.ExplainPlan | src/main/java/com/akiban/sql/optimizer/OperatorCompiler.java:145-149 | the rendering of a result is the explain lines of its operator at depth 0 |
| Compiler.RemoveConditions | src/main/java/com/akiban/sql/optimizer/OperatorCompiler.java:208 | the remaining conditions are exactly those not subsumed by the index |
| Compiler.RecomputeUsed | src/main/java/com/akiban/sql/optimizer/OperatorCompiler.java:209 | a table node is used iff a select column or a remaining condition refers to it; nothing else about it changes |
| Compiler.PreparedConditions | src/main/java/com/akiban/sql/optimizer/OperatorCompiler.java:207-209 | with an index the residual conditions are the query's conditions the index does not subsume, and only the used flags of table nodes change; without one the query is unchanged |
| Compiler.LeadingEqualityResidual | src/main/java/com/akiban/sql/optimizer/OperatorCompiler.java:207-208 | a constant equality on the column of the i-th equality of the chosen index stays among the residual conditions iff it is not the condition the lookup found for that column |
| Compiler.SubsumedEqualitiesGone | src/main/java/com/akiban/sql/optimizer/OperatorCompiler.java:207-208 | when each equality-prefix column has at most one constant equality, no residual condition is a constant equality on those columns |
| Compiler.DuplicateEqualityKept | src/main/java/com/akiban/sql/optimizer/OperatorCompiler.java:459-462 | with `a = 5` and `a = 6` and an index on `a`, the index takes `a = 5` and `a = 6` stays as a residual condition |
| Compiler.SortUnsupportedIff | src/main/java/com/akiban/sql/optimizer/OperatorCompiler.java:200-204 | ORDER BY is rejected iff no usable index of a used, non-outer table delivers the order |
| Compiler.AccessPlanShape | src/main/java/com/akiban/sql/optimizer/OperatorCompiler.java:207-259 | with an index the plan starts with a scan of that index in its direction and holds a branch lookup iff a descendant of its table is used; without one it is a group scan |
| Compiler.FilterChainShape | src/main/java/com/akiban/sql/optimizer/OperatorCompiler.java:272-277 | one select operator per residual condition on top of the plan, whose source and lookups are unchanged |
| Compiler.AddFilters | src/main/java/com/akiban/sql/optimizer/OperatorCompiler.java:272-277 | the loop stacks one select operator per condition, in condition order |
| Compiler.FirstNonColumn | src/main/java/com/akiban/sql/optimizer/OperatorCompiler.java:283-286 | finds the first select expression that is not a column, or none when all are columns |
| Compiler.ResultColumns | src/main/java/com/akiban/sql/optimizer/OperatorCompiler.java:280-292 | fails on the first non-column expression with its text; otherwise each result column is the selected column and its offset is its table's offset plus its position |
| Compiler.CompileSelect | src/main/java/com/akiban/sql/optimizer/OperatorCompiler.java:191-300 | "Unsupported ORDER BY" when the order is not delivered, else "Unsupported result column: ..." for a non-column; otherwise the plan is access path, flattening, then residual filters, with result column offsets as above and the query's offset and limit |
| Compiler.SelectColumnOffsets | src/main/java/com/akiban/sql/optimizer/OperatorCompiler.java:291 | a result column's offset lies inside the flattened row, and columns of different tables get different offsets |
| Compiler.UpdateAtExactly | src/main/java/com/akiban/sql/optimizer/OperatorCompiler.java:349-354 | a field is set iff some SET entry names its position, and then holds the value of the last such entry |
| Compiler.UpdateVector | src/main/java/com/akiban/sql/optimizer/OperatorCompiler.java:349-354 | the vector has one slot per field of the target row and each slot holds what the SET list gives that position |
| Compiler.CompileUpdate | src/main/java/com/akiban/sql/optimizer/OperatorCompiler.java:302-360 | the plan is the index scan with a branch lookup of the target (or a group scan), one filter per residual condition with the target at offset 0, then the update operator; the result is a modify result with offset 0 and limit -1 |
| Compiler.Compile | src/main/java/com/akiban/sql/optimizer/OperatorCompiler.java:165-178 | SELECT and UPDATE are compiled, INSERT and DELETE fail with their messages, any other kind fails with its text; a successful result is a modify result iff the statement is an UPDATE |
| Compiler.IsModifyTellsApart | src/main/java/com/akiban/sql/optimizer/OperatorCompiler.java:131-133 | `isModify` holds for a result built from an operator and a row type only (an UPDATE's) and fails for one built with result columns (a SELECT's); with `Compiler.Compile`, a compiled result is a modify result iff the statement is an UPDATE |

## Left out

- Binding, boolean normalisation, type computation, subquery flattening and grouping (`bindAndGroup`), and the construction of the simplified query and its join reordering: the model starts from their output.
- `addView`, the compiler's constructor and its collaborators: they only wire the external passes.
- The physical operator factories, the schema's row types, index bounds, expression rows and `generateExpression`: they are opaque constructors, so nothing about their runtime behaviour is modelled.
- `Result.toString`, which joins the explain lines with newlines, and `Filter.summaryString` and `getConditions`: string formatting and a getter.
- `setLeftBranch`, called once an index is chosen, is not part of this model's sources and is not modelled: the join tree is the same whichever index is chosen, so the flatten order and the field offsets follow the join tree as given.
- Orders the model fixes where the called code is not part of this model's sources: `subtree()` lists the index table first, then its strict descendants (otherwise the early exit of the scan could leave `tableUsed` false); `getTables()` and `getIndexes()` are iterated in sequence order, which decides ties between equally ranked candidates.
- The dead `if (false)` ancestor-lookup branch of `compileUpdate`.
- The Java `assert` in `compileUpdate` that the chosen index is on the target table: assertions are a debugging aid; the model follows the code that runs without them.
- Failures the source does not handle: a select column of a table outside the join tree (a null offset), a SET column position outside the target row. The members that would hit them require well-formed input instead.
- PlanFilter.Visitor: a real visitor keeps its own state and answers depending on it; here its answers are fixed per visitor and per condition.
- PlanFilter.Filter.DeepCopy: the copy of each condition through the duplicate map and the duplication of the input by the base class are not modelled; conditions are values, so only the new list is.
- Flattening.FlattenState.MergeFields: requires that the other state is a different object; the source never merges a state into itself.
- Integer widths: offsets, field counts and table ids are unbounded integers; the source's 32-bit arithmetic never comes near overflow for real schemas.
