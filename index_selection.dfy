/** Cost-free index selection: for one (table node, index) pair, the
    equality prefix, the range bounds on the next column and whether the
    index delivers the requested order; the ranking of candidates, the
    choice of the best one and the key range of its scan. */
module IndexSelection {
  import opened Types

  // ---------------------------------------------------------------------
  // Looking up constant conditions on a column
  // ---------------------------------------------------------------------

  /** Operators a lookup for `requested` accepts: an EQ lookup finds only
      equalities, a GT lookup finds GT or GE, an LT lookup finds LT or LE. */
  predicate InFamily(requested: Comparison, op: Comparison) {
    match requested
    case GT => op == GT || op == GE
    case LT => op == LT || op == LE
    case _ => op == requested
  }

  /** `c` compares `column` with a constant using an operator of the
      requested family. */
  predicate IsColumnConstantCondition(c: ColumnCondition, column: Column, requested: Comparison) {
    c.column == column && c.right.Constant? && InFamily(requested, c.op)
  }

  /** The first condition of the query comparing `column` with a constant in
      the family of `requested`, if any. */
  function FindColumnConstantCondition(conditions: seq<ColumnCondition>, column: Column, requested: Comparison)
    : (r: Option<ColumnCondition>)
    ensures r.Some? ==> r.value in conditions && IsColumnConstantCondition(r.value, column, requested)
    ensures r.None? <==> forall c :: c in conditions ==> !IsColumnConstantCondition(c, column, requested)
  {
    if |conditions| == 0 then None
    else if IsColumnConstantCondition(conditions[0], column, requested) then Some(conditions[0])
    else FindColumnConstantCondition(conditions[1..], column, requested)
  }

  // ---------------------------------------------------------------------
  // What `usable` computes, stated declaratively
  // ---------------------------------------------------------------------

  /** Equality conditions found for the leading index columns, stopping at
      the first column that has none. */
  function EqualityRun(conditions: seq<ColumnCondition>, columns: seq<IndexColumn>): (run: seq<ColumnCondition>)
    ensures |run| <= |columns|
  {
    if |columns| == 0 then []
    else match FindColumnConstantCondition(conditions, columns[0].column, EQ)
      case None => []
      case Some(c) => [c] + EqualityRun(conditions, columns[1..])
  }

  /** The equality run is the longest prefix of index columns that all have
      an equality condition, and holds, column by column, the condition the
      lookup finds for it. */
  lemma {:induction false} EqualityRunIsMaximalPrefix(conditions: seq<ColumnCondition>, columns: seq<IndexColumn>)
    ensures forall i :: 0 <= i < |EqualityRun(conditions, columns)| ==>
      FindColumnConstantCondition(conditions, columns[i].column, EQ) == Some(EqualityRun(conditions, columns)[i])
    ensures |EqualityRun(conditions, columns)| < |columns| ==>
      FindColumnConstantCondition(conditions, columns[|EqualityRun(conditions, columns)|].column, EQ).None?
  {
    if |columns| > 0 {
      EqualityRunIsMaximalPrefix(conditions, columns[1..]);
      var run := EqualityRun(conditions, columns);
      match FindColumnConstantCondition(conditions, columns[0].column, EQ)
      case None =>
      case Some(c) =>
        assert run == [c] + EqualityRun(conditions, columns[1..]);
        forall i | 0 <= i < |run|
          ensures FindColumnConstantCondition(conditions, columns[i].column, EQ) == Some(run[i])
        {
          if i > 0 {
            assert columns[i] == columns[1..][i - 1];
          }
        }
        if |run| < |columns| {
          assert columns[|run|] == columns[1..][|run| - 1];
        }
    }
  }

  /** Would scanning the index backwards mean a different direction for
      this sort column? */
  predicate DirMismatch(sort: SortColumn, indexColumn: IndexColumn) {
    sort.ascending != indexColumn.ascending
  }

  /** The requested sort columns are, column for column, the index columns
      that follow the first `nequals`, all with the direction mismatch of
      the first one. */
  predicate SortsByIndex(sorts: seq<SortColumn>, columns: seq<IndexColumn>, nequals: nat) {
    && nequals <= |columns|
    && |sorts| <= |columns| - nequals
    && forall i :: 0 <= i < |sorts| ==>
         && sorts[i].column == columns[nequals + i].column
         && DirMismatch(sorts[i], columns[nequals + i]) == DirMismatch(sorts[0], columns[nequals])
  }

  /** The scan direction recorded while matching: set from the first sort
      column as soon as it matches its index column, whatever happens to
      the later ones. */
  predicate ReverseFlag(sorts: seq<SortColumn>, columns: seq<IndexColumn>, nequals: nat) {
    && nequals <= |columns|
    && 0 < |sorts| <= |columns| - nequals
    && sorts[0].column == columns[nequals].column
    && DirMismatch(sorts[0], columns[nequals])
  }

  /** The observable state of an index candidate.  No equality conditions
      is the empty sequence (the source leaves its list unallocated). */
  datatype Usage = Usage(
    table: nat,
    index: TableIndex,
    equalityConditions: seq<ColumnCondition>,
    lowCondition: Option<ColumnCondition>,
    highCondition: Option<ColumnCondition>,
    sorting: bool,
    reverse: bool)

  /** The state of a candidate for `index` on table node `table` once its
      usability has been evaluated against `q`. */
  function Evaluate(q: SimplifiedQuery, table: nat, index: TableIndex): Usage {
    var columns := index.columns;
    var eqs := EqualityRun(q.conditions, columns);
    var n := |eqs|;
    var low := if n < |columns| then FindColumnConstantCondition(q.conditions, columns[n].column, GT) else None;
    var high := if n < |columns| then FindColumnConstantCondition(q.conditions, columns[n].column, LT) else None;
    var sorting := q.sortColumns.Some? && SortsByIndex(q.sortColumns.value, columns, n);
    var reverse := q.sortColumns.Some? && ReverseFlag(q.sortColumns.value, columns, n);
    Usage(table, index, eqs, low, high, sorting, reverse)
  }

  /** A candidate helps iff it has an equality, a bound, or delivers the order. */
  predicate IsUsable(u: Usage) {
    |u.equalityConditions| > 0 || u.lowCondition.Some? || u.highCondition.Some? || u.sorting
  }

  /** Shape guaranteed by evaluation: at most one condition per index column,
      and bounds only when a column is left after the equality prefix. */
  predicate WellFormedUsage(u: Usage) {
    && |u.equalityConditions| <= |u.index.columns|
    && ((u.lowCondition.Some? || u.highCondition.Some?) ==> |u.equalityConditions| < |u.index.columns|)
  }

  /** Everything `usable` records is a constant condition of the query on the
      index column it claims: equalities on the leading columns, the low
      bound a GT/GE and the high bound an LT/LE condition on the next one. */
  lemma EvaluateSound(q: SimplifiedQuery, table: nat, index: TableIndex)
    ensures WellFormedUsage(Evaluate(q, table, index))
    ensures var u := Evaluate(q, table, index);
      && (forall i :: 0 <= i < |u.equalityConditions| ==>
            && u.equalityConditions[i] in q.conditions
            && IsColumnConstantCondition(u.equalityConditions[i], index.columns[i].column, EQ))
      && (u.lowCondition.Some? ==>
            && u.lowCondition.value in q.conditions
            && IsColumnConstantCondition(u.lowCondition.value, index.columns[|u.equalityConditions|].column, GT))
      && (u.highCondition.Some? ==>
            && u.highCondition.value in q.conditions
            && IsColumnConstantCondition(u.highCondition.value, index.columns[|u.equalityConditions|].column, LT))
  {
    EqualityRunIsMaximalPrefix(q.conditions, index.columns);
  }

  /** Bounds are looked for only on the column right after the equality
      prefix, and whenever that column has a GT/GE (LT/LE) constant
      condition, a low (high) bound is recorded. */
  lemma BoundsOnlyOnNextColumn(q: SimplifiedQuery, table: nat, index: TableIndex)
    ensures var u := Evaluate(q, table, index);
      var n := |u.equalityConditions|;
      && (n == |index.columns| ==> u.lowCondition.None? && u.highCondition.None?)
      && (n < |index.columns| ==>
            && (u.lowCondition.None? <==>
                  forall c :: c in q.conditions ==> !IsColumnConstantCondition(c, index.columns[n].column, GT))
            && (u.highCondition.None? <==>
                  forall c :: c in q.conditions ==> !IsColumnConstantCondition(c, index.columns[n].column, LT)))
  {
  }

  // ---------------------------------------------------------------------
  // Ranking candidates
  // ---------------------------------------------------------------------

  /** Number of range bounds, 0 to 2. */
  function BoundCount(u: Usage): nat {
    (if u.lowCondition.Some? then 1 else 0) + (if u.highCondition.Some? then 1 else 0)
  }

  /** -1, 0 or +1 as `a` is below, equal to or above `b`. */
  function Sign(a: int, b: int): int {
    if a < b then -1 else if a > b then 1 else 0
  }

  /** The key candidates are ranked by, most significant first. */
  function Rank(u: Usage): (int, int, int, int) {
    (if u.sorting then 1 else 0, |u.equalityConditions|, BoundCount(u), u.index.tableId)
  }

  /** Lexicographic comparison of ranks. */
  function LexCompare(a: (int, int, int, int), b: (int, int, int, int)): int {
    if a.0 != b.0 then Sign(a.0, b.0)
    else if a.1 != b.1 then Sign(a.1, b.1)
    else if a.2 != b.2 then Sign(a.2, b.2)
    else Sign(a.3, b.3)
  }

  /** Is `a` a better index than `b`?  Positive when it is, negative when `b`
      is, zero on a complete tie.  The result is the lexicographic comparison
      of (sorting, number of equalities, number of bounds, owning table id). */
  function Compare(a: Usage, b: Usage): (r: int)
    ensures r == LexCompare(Rank(a), Rank(b))
    ensures r == 0 <==> Rank(a) == Rank(b)
  {
    if a.sorting && !b.sorting then 1
    else if !a.sorting && b.sorting then -1
    else if |a.equalityConditions| > 0 && |b.equalityConditions| == 0 then 1
    else if |a.equalityConditions| > 0 && |a.equalityConditions| != |b.equalityConditions| then
      (if |a.equalityConditions| > |b.equalityConditions| then 1 else -1)
    else if |a.equalityConditions| == 0 && |b.equalityConditions| > 0 then -1
    else if BoundCount(a) != BoundCount(b) then (if BoundCount(a) > BoundCount(b) then 1 else -1)
    else Sign(a.index.tableId, b.index.tableId)
  }

  /** The comparison is antisymmetric and transitive: a total preorder. */
  lemma CompareIsTotalPreorder(a: Usage, b: Usage, c: Usage)
    ensures Compare(a, b) == -Compare(b, a)
    ensures Compare(a, b) <= 0 && Compare(b, c) <= 0 ==> Compare(a, c) <= 0
    ensures Compare(a, b) < 0 && Compare(b, c) <= 0 ==> Compare(a, c) < 0
    ensures Compare(a, b) <= 0 && Compare(b, c) < 0 ==> Compare(a, c) < 0
  {
  }

  /** A sorting candidate beats every non-sorting one; among candidates that
      agree on sorting, more equalities win; then more bounds; a complete tie
      needs the same owning table id. */
  lemma CompareCriteria(a: Usage, b: Usage)
    ensures a.sorting && !b.sorting ==> Compare(a, b) > 0
    ensures a.sorting == b.sorting && |a.equalityConditions| > |b.equalityConditions| ==> Compare(a, b) > 0
    ensures (a.sorting == b.sorting && |a.equalityConditions| == |b.equalityConditions|
             && BoundCount(a) > BoundCount(b)) ==> Compare(a, b) > 0
    ensures Compare(a, b) == 0 ==> a.index.tableId == b.index.tableId
  {
  }

  // ---------------------------------------------------------------------
  // Choosing the best candidate
  // ---------------------------------------------------------------------

  /** Only tables that are used and not on the optional side of an outer
      join are searched for indexes. */
  predicate Eligible(t: TableNode) {
    t.used && !t.outer
  }

  /** The usable candidate for `index`, if it is usable. */
  function UsableCandidate(q: SimplifiedQuery, table: nat, index: TableIndex): seq<Usage> {
    var u := Evaluate(q, table, index);
    if IsUsable(u) then [u] else []
  }

  /** Usable candidates of table node `table` among `indexes`, in order. */
  function UsableAmong(q: SimplifiedQuery, table: nat, indexes: seq<TableIndex>): seq<Usage>
    decreases |indexes|
  {
    if |indexes| == 0 then []
    else UsableAmong(q, table, indexes[..|indexes| - 1]) + UsableCandidate(q, table, indexes[|indexes| - 1])
  }

  /** Usable candidates of the first `n` table nodes, in the order they are
      examined. */
  function Candidates(q: SimplifiedQuery, n: nat): seq<Usage>
    requires n <= |q.tables|
  {
    if n == 0 then []
    else Candidates(q, n - 1)
         + (if Eligible(q.tables[n - 1]) then UsableAmong(q, n - 1, q.tables[n - 1].indexes) else [])
  }

  /** One step of the scan: a candidate replaces the current best only when
      it compares strictly greater. */
  function Better(best: Option<Usage>, candidate: Usage): Option<Usage> {
    if best.None? || Compare(candidate, best.value) > 0 then Some(candidate) else best
  }

  /** The best of a sequence of candidates, scanning left to right. */
  function FoldBest(cs: seq<Usage>): Option<Usage> {
    if |cs| == 0 then None else Better(FoldBest(cs[..|cs| - 1]), cs[|cs| - 1])
  }

  /** The candidate selection chooses: none when the query has neither
      conditions nor an ORDER BY. */
  function PickBest(q: SimplifiedQuery): Option<Usage> {
    if |q.conditions| == 0 && q.sortColumns.None? then None
    else FoldBest(Candidates(q, |q.tables|))
  }

  /** The scan keeps the FIRST candidate of maximal rank: it is at least as
      good as every candidate and strictly better than every earlier one. */
  lemma {:induction false} FoldBestIsFirstMaximum(cs: seq<Usage>) returns (k: nat)
    requires |cs| > 0
    ensures k < |cs| && FoldBest(cs) == Some(cs[k])
    ensures forall j :: 0 <= j < |cs| ==> Compare(cs[j], cs[k]) <= 0
    ensures forall j :: 0 <= j < k ==> Compare(cs[j], cs[k]) < 0
  {
    var n := |cs|;
    var c := cs[n - 1];
    if n == 1 {
      k := 0;
      assert FoldBest(cs[..0]) == None;
    } else {
      var prefix := cs[..n - 1];
      var k' := FoldBestIsFirstMaximum(prefix);
      assert FoldBest(cs) == Better(Some(prefix[k']), c);
      if Compare(c, prefix[k']) > 0 {
        k := n - 1;
        forall j | 0 <= j < n - 1
          ensures Compare(cs[j], cs[k]) < 0
        {
          assert cs[j] == prefix[j];
          CompareIsTotalPreorder(cs[j], prefix[k'], c);
        }
      } else {
        k := k';
        forall j | 0 <= j < n
          ensures Compare(cs[j], cs[k]) <= 0
        {
          if j < n - 1 {
            assert cs[j] == prefix[j];
          }
        }
      }
    }
  }

  /** Every candidate belongs to an eligible table node, is the evaluation
      of one of that table's indexes, and is usable. */
  predicate FromQuery(q: SimplifiedQuery, u: Usage) {
    && u.table < |q.tables|
    && Eligible(q.tables[u.table])
    && u.index in q.tables[u.table].indexes
    && u == Evaluate(q, u.table, u.index)
    && IsUsable(u)
  }

  lemma {:induction false} UsableAmongFromQuery(q: SimplifiedQuery, table: nat, indexes: seq<TableIndex>)
    requires table < |q.tables| && Eligible(q.tables[table])
    requires forall x :: x in indexes ==> x in q.tables[table].indexes
    ensures forall u :: u in UsableAmong(q, table, indexes) ==> FromQuery(q, u)
    decreases |indexes|
  {
    if |indexes| > 0 {
      UsableAmongFromQuery(q, table, indexes[..|indexes| - 1]);
    }
  }

  lemma {:induction false} CandidatesFromQuery(q: SimplifiedQuery, n: nat)
    requires n <= |q.tables|
    ensures forall u :: u in Candidates(q, n) ==> FromQuery(q, u)
  {
    if n > 0 {
      CandidatesFromQuery(q, n - 1);
      if Eligible(q.tables[n - 1]) {
        UsableAmongFromQuery(q, n - 1, q.tables[n - 1].indexes);
      }
    }
  }

  /** The chosen index, if any, is a usable index of a used, non-outer table
      of the query, and no usable candidate ranks above it.  When some usable
      candidate delivers the requested order, so does the chosen one. */
  lemma PickBestIsBest(q: SimplifiedQuery)
    ensures PickBest(q).Some? ==>
      && FromQuery(q, PickBest(q).value)
      && forall u :: u in Candidates(q, |q.tables|) ==> Compare(u, PickBest(q).value) <= 0
    ensures PickBest(q).Some? && (exists u :: u in Candidates(q, |q.tables|) && u.sorting) ==>
      PickBest(q).value.sorting
    ensures PickBest(q).None? <==>
      (|q.conditions| == 0 && q.sortColumns.None?) || |Candidates(q, |q.tables|)| == 0
  {
    var cs := Candidates(q, |q.tables|);
    if !(|q.conditions| == 0 && q.sortColumns.None?) && |cs| > 0 {
      var k := FoldBestIsFirstMaximum(cs);
      CandidatesFromQuery(q, |q.tables|);
      assert cs[k] in cs;
    }
  }

  /** The conditions a candidate subsumes: its equalities and its bounds. */
  function IndexConditions(u: Usage): (s: set<ColumnCondition>)
    ensures forall c :: c in s <==>
      c in u.equalityConditions || u.lowCondition == Some(c) || u.highCondition == Some(c)
  {
    (set c | c in u.equalityConditions)
    + (if u.lowCondition.Some? then {u.lowCondition.value} else {})
    + (if u.highCondition.Some? then {u.highCondition.value} else {})
  }

  /** The subsumed conditions of an evaluated candidate are conditions of
      the query, each a constant comparison on a column of the index. */
  lemma IndexConditionsFromQuery(q: SimplifiedQuery, table: nat, index: TableIndex)
    ensures forall c :: c in IndexConditions(Evaluate(q, table, index)) ==>
      && c in q.conditions
      && c.right.Constant?
      && exists i :: 0 <= i < |index.columns| && index.columns[i].column == c.column
  {
    var u := Evaluate(q, table, index);
    EvaluateSound(q, table, index);
    forall c | c in IndexConditions(u)
      ensures exists i :: 0 <= i < |index.columns| && index.columns[i].column == c.column
    {
      if c in u.equalityConditions {
        var i :| 0 <= i < |u.equalityConditions| && u.equalityConditions[i] == c;
        assert index.columns[i].column == c.column;
      } else {
        assert index.columns[|u.equalityConditions|].column == c.column;
      }
    }
  }

  // ---------------------------------------------------------------------
  // Key ranges
  // ---------------------------------------------------------------------

  /** The equality keys, in index-column order. */
  function EqualityKeys(u: Usage): (keys: seq<Option<Expression>>)
    ensures |keys| == |u.equalityConditions|
  {
    seq(|u.equalityConditions|, k requires 0 <= k < |u.equalityConditions| =>
      Some(KeyValue(u.equalityConditions[k].right)))
  }

  /** `prefix` filled up to `n` slots with unset keys. */
  function Padded(prefix: seq<Option<Expression>>, n: nat): (keys: seq<Option<Expression>>)
    requires |prefix| <= n
    ensures |keys| == n
  {
    prefix + seq(n - |prefix|, _ => None)
  }

  /** The key vector of a bound on the column after the equality prefix. */
  function BoundKeys(u: Usage, bound: ColumnCondition): seq<Option<Expression>>
    requires |u.equalityConditions| < |u.index.columns|
  {
    Padded(EqualityKeys(u) + [Some(KeyValue(bound.right))], |u.index.columns|)
  }

  /** The key range of a candidate: unbounded without conditions, one
      inclusive bound on both sides with equalities only, and otherwise a
      bound per present side, inclusive for GE and LE. */
  function KeyRange(u: Usage): IndexKeyRange
    requires WellFormedUsage(u)
  {
    if u.lowCondition.None? && u.highCondition.None? then
      if |u.equalityConditions| == 0 then IndexKeyRange(None, false, None, false)
      else
        var eq := IndexBound(u.index, Padded(EqualityKeys(u), |u.index.columns|));
        IndexKeyRange(Some(eq), true, Some(eq), true)
    else
      IndexKeyRange(
        if u.lowCondition.Some? then Some(IndexBound(u.index, BoundKeys(u, u.lowCondition.value))) else None,
        u.lowCondition.Some? && u.lowCondition.value.op == GE,
        if u.highCondition.Some? then Some(IndexBound(u.index, BoundKeys(u, u.highCondition.value))) else None,
        u.highCondition.Some? && u.highCondition.value.op == LE)
  }

  /** Setting the first unset slot of a padded key vector extends its prefix. */
  lemma PaddedSet(prefix: seq<Option<Expression>>, n: nat, x: Option<Expression>)
    requires |prefix| < n
    ensures Padded(prefix, n)[|prefix| := x] == Padded(prefix + [x], n)
  {
    assert forall j :: 0 <= j < n ==> Padded(prefix, n)[|prefix| := x][j] == Padded(prefix + [x], n)[j];
  }

  // ---------------------------------------------------------------------
  // The candidate object
  // ---------------------------------------------------------------------

  /** A possible index for one table node of the query. */
  class IndexUsage {
    const table: nat
    const index: TableIndex
    var equalityConditions: seq<ColumnCondition>
    var lowCondition: Option<ColumnCondition>
    var highCondition: Option<ColumnCondition>
    var sorting: bool
    var reverse: bool

    constructor (table: nat, index: TableIndex)
      ensures this.table == table && this.index == index
      ensures Unevaluated()
    {
      this.table := table;
      this.index := index;
      equalityConditions := [];
      lowCondition := None;
      highCondition := None;
      sorting := false;
      reverse := false;
    }

    /** The fields as a freshly built candidate has them. */
    predicate Unevaluated()
      reads this
    {
      equalityConditions == [] && lowCondition.None? && highCondition.None? && !sorting && !reverse
    }

    /** The candidate's current state as a value. */
    function Value(): Usage
      reads this
    {
      Usage(table, index, equalityConditions, lowCondition, highCondition, sorting, reverse)
    }

    /** Can this index be used for part of the query?  Records the equality
      prefix, the bounds on the next column and the sort decision. */
    method Usable(q: SimplifiedQuery) returns (ok: bool)
      requires Unevaluated()
      modifies this
      ensures Value() == Evaluate(q, table, index)
      ensures ok == IsUsable(Value())
    {
      var indexColumns := index.columns;
      var ncols := |indexColumns|;
      ghost var run := EqualityRun(q.conditions, indexColumns);
      EqualityRunIsMaximalPrefix(q.conditions, indexColumns);
      var nequals := 0;
      while nequals < ncols
        invariant nequals <= |run|
        invariant equalityConditions == run[..nequals]
        invariant lowCondition.None? && highCondition.None? && !sorting && !reverse
      {
        var equalityCondition := FindColumnConstantCondition(q.conditions, indexColumns[nequals].column, EQ);
        if equalityCondition.None? {
          break;
        }
        assert run[..nequals + 1] == run[..nequals] + [equalityCondition.value];
        equalityConditions := equalityConditions + [equalityCondition.value];
        nequals := nequals + 1;
      }
      assert nequals == |run|;
      assert equalityConditions == run;
      if nequals < ncols {
        lowCondition := FindColumnConstantCondition(q.conditions, indexColumns[nequals].column, GT);
        highCondition := FindColumnConstantCondition(q.conditions, indexColumns[nequals].column, LT);
      }
      ghost var low, high := lowCondition, highCondition;
      if q.sortColumns.Some? {
        var sorts := q.sortColumns.value;
        var nsort := |sorts|;
        if nsort <= ncols - nequals {
          label found: {
            for i := 0 to nsort
              invariant !sorting
              invariant equalityConditions == run && lowCondition == low && highCondition == high
              invariant forall j :: 0 <= j < i ==>
                && sorts[j].column == indexColumns[nequals + j].column
                && DirMismatch(sorts[j], indexColumns[nequals + j]) == DirMismatch(sorts[0], indexColumns[nequals])
              invariant reverse == (i > 0 && DirMismatch(sorts[0], indexColumns[nequals]))
            {
              var sort := sorts[i];
              var indexColumn := indexColumns[nequals + i];
              if sort.column != indexColumn.column {
                assert !SortsByIndex(sorts, indexColumns, nequals);
                assert reverse == ReverseFlag(sorts, indexColumns, nequals);
                break found;
              }
              var dirMismatch := sort.ascending != indexColumn.ascending;
              if i == 0 {
                reverse := dirMismatch;
              } else if reverse != dirMismatch {
                assert !SortsByIndex(sorts, indexColumns, nequals);
                assert reverse == ReverseFlag(sorts, indexColumns, nequals);
                break found;
              }
            }
            assert SortsByIndex(sorts, indexColumns, nequals);
            assert reverse == ReverseFlag(sorts, indexColumns, nequals);
            sorting := true;
          }
        }
        assert sorting == SortsByIndex(sorts, indexColumns, nequals);
        assert reverse == ReverseFlag(sorts, indexColumns, nequals);
      }
      assert equalityConditions == EqualityRun(q.conditions, indexColumns);
      assert sorting == Evaluate(q, table, index).sorting;
      assert reverse == Evaluate(q, table, index).reverse;
      assert lowCondition == Evaluate(q, table, index).lowCondition;
      ok := |equalityConditions| > 0 || lowCondition.Some? || highCondition.Some? || sorting;
    }

    /** The key range of the index scan.  Without equalities or bounds the
        range is unbounded; with equalities only, the same inclusive bound
        serves as low and high; otherwise each present bound holds the
        equality keys followed by its own value, in its own key vector. */
    method GetIndexKeyRange() returns (r: IndexKeyRange)
      requires WellFormedUsage(Value())
      ensures r == KeyRange(Value())
      ensures var u := Value();
        |u.equalityConditions| == 0 && u.lowCondition.None? && u.highCondition.None? ==>
          r == IndexKeyRange(None, false, None, false)
      ensures var u := Value();
        |u.equalityConditions| > 0 && u.lowCondition.None? && u.highCondition.None? ==>
          var eq := IndexBound(index, Padded(EqualityKeys(u), |index.columns|));
          r == IndexKeyRange(Some(eq), true, Some(eq), true)
      ensures var u := Value();
        (u.lowCondition.Some? || u.highCondition.Some?) ==>
          && r.loInclusive == (u.lowCondition.Some? && u.lowCondition.value.op == GE)
          && r.hiInclusive == (u.highCondition.Some? && u.highCondition.value.op == LE)
          && r.lo == (if u.lowCondition.Some? then Some(IndexBound(index, BoundKeys(u, u.lowCondition.value))) else None)
          && r.hi == (if u.highCondition.Some? then Some(IndexBound(index, BoundKeys(u, u.highCondition.value))) else None)
    {
      if |equalityConditions| == 0 && lowCondition.None? && highCondition.None? {
        return IndexKeyRange(None, false, None, false);
      }
      ghost var u := Value();
      var nkeys := |index.columns|;
      var keys := new Option<Expression>[nkeys](_ => None);
      var kidx := 0;
      while kidx < |equalityConditions|
        invariant kidx <= |equalityConditions|
        invariant keys[..] == Padded(EqualityKeys(u)[..kidx], nkeys)
      {
        keys[kidx] := Some(KeyValue(equalityConditions[kidx].right));
        kidx := kidx + 1;
      }
      assert EqualityKeys(u)[..kidx] == EqualityKeys(u);
      if lowCondition.None? && highCondition.None? {
        var eq := IndexBound(index, keys[..]);
        return IndexKeyRange(Some(eq), true, Some(eq), true);
      }
      var lowKeys: array?<Option<Expression>> := null;
      var highKeys: array?<Option<Expression>> := null;
      var lowInc, highInc := false, false;
      if lowCondition.Some? {
        lowKeys := keys;
        if highCondition.Some? {
          highKeys := new Option<Expression>[nkeys](_ => None);
          forall j | 0 <= j < kidx {
            highKeys[j] := keys[j];
          }
        }
      } else if highCondition.Some? {
        highKeys := keys;
      }
      assert highKeys != null ==> highKeys[..] == Padded(EqualityKeys(u), nkeys);
      if lowCondition.Some? {
        lowKeys[kidx] := Some(KeyValue(lowCondition.value.right));
        lowInc := lowCondition.value.op == GE;
      }
      if highCondition.Some? {
        highKeys[kidx] := Some(KeyValue(highCondition.value.right));
        highInc := highCondition.value.op == LE;
      }
      assert lowKeys != null ==> lowKeys[..] == BoundKeys(u, lowCondition.value) by {
        if lowKeys != null {
          PaddedSet(EqualityKeys(u), nkeys, Some(KeyValue(lowCondition.value.right)));
        }
      }
      assert highKeys != null ==> highKeys[..] == BoundKeys(u, highCondition.value) by {
        if highKeys != null {
          PaddedSet(EqualityKeys(u), nkeys, Some(KeyValue(highCondition.value.right)));
        }
      }
      var lo := if lowKeys == null then None else Some(IndexBound(index, lowKeys[..]));
      var hi := if highKeys == null then None else Some(IndexBound(index, highKeys[..]));
      r := IndexKeyRange(lo, lowInc, hi, highInc);
    }
  }

  /** Pick the index to use: every index of every used, non-outer table node
      is evaluated, and a usable candidate replaces the best so far only
      when it compares strictly greater. */
  method PickBestIndex(q: SimplifiedQuery) returns (best: IndexUsage?)
    ensures best == null <==> PickBest(q).None?
    ensures best != null ==> best.Value() == PickBest(q).value
    ensures |q.conditions| == 0 && q.sortColumns.None? ==> best == null
  {
    if |q.conditions| == 0 && q.sortColumns.None? {
      return null;
    }
    best := null;
    ghost var seen: seq<Usage> := [];
    for i := 0 to |q.tables|
      invariant seen == Candidates(q, i)
      invariant best == null <==> FoldBest(seen).None?
      invariant best != null ==> best.Value() == FoldBest(seen).value
    {
      var table := q.tables[i];
      if table.used && !table.outer {
        var indexes := table.indexes;
        ghost var before := seen;
        for j := 0 to |indexes|
          invariant seen == before + UsableAmong(q, i, indexes[..j])
          invariant best == null <==> FoldBest(seen).None?
          invariant best != null ==> best.Value() == FoldBest(seen).value
        {
          var candidate := new IndexUsage(i, indexes[j]);
          var ok := candidate.Usable(q);
          ScanStep(q, i, indexes, j, before, seen, candidate.Value(), ok);
          if ok {
            if best == null || Compare(candidate.Value(), best.Value()) > 0 {
              best := candidate;
            }
            seen := seen + [candidate.Value()];
          }
        }
        assert indexes[..|indexes|] == indexes;
      }
      CandidatesStep(q, i);
    }
  }

  lemma CandidatesStep(q: SimplifiedQuery, i: nat)
    requires i < |q.tables|
    ensures Candidates(q, i + 1) ==
      Candidates(q, i) + if Eligible(q.tables[i]) then UsableAmong(q, i, q.tables[i].indexes) else []
  {
  }

  /** One candidate examined: the candidates seen grow by it when it is
      usable, and the best so far changes as `Better` says. */
  lemma ScanStep(q: SimplifiedQuery, table: nat, indexes: seq<TableIndex>, j: nat,
                 before: seq<Usage>, seen: seq<Usage>, candidate: Usage, ok: bool)
    requires j < |indexes|
    requires seen == before + UsableAmong(q, table, indexes[..j])
    requires candidate == Evaluate(q, table, indexes[j]) && ok == IsUsable(candidate)
    ensures ok ==> seen + [candidate] == before + UsableAmong(q, table, indexes[..j + 1])
    ensures ok ==> FoldBest(seen + [candidate]) == Better(FoldBest(seen), candidate)
    ensures !ok ==> seen == before + UsableAmong(q, table, indexes[..j + 1])
  {
    UsableAmongStep(q, table, indexes, j);
    FoldBestStep(seen, candidate);
  }

  lemma UsableAmongStep(q: SimplifiedQuery, table: nat, indexes: seq<TableIndex>, j: nat)
    requires j < |indexes|
    ensures UsableAmong(q, table, indexes[..j + 1]) == UsableAmong(q, table, indexes[..j]) + UsableCandidate(q, table, indexes[j])
  {
    assert indexes[..j + 1][..j] == indexes[..j];
  }

  lemma FoldBestStep(cs: seq<Usage>, c: Usage)
    ensures FoldBest(cs + [c]) == Better(FoldBest(cs), c)
  {
    assert (cs + [c])[..|cs|] == cs;
  }
}
