/** Flattening of the join tree: every join node becomes a flatten operator
    over the operator built so far, and every table of the join tree gets
    the offset of its first field in the flattened row. */
module Flattening {
  import opened Types

  /** The table nodes at the leaves of a join tree, left to right. */
  function Leaves(j: JoinNode): (ls: seq<nat>)
    ensures |ls| > 0
  {
    match j
    case TableJoin(t) => [t]
    case JoinJoin(l, r, _) => Leaves(l) + Leaves(r)
  }

  /** Every leaf names a table node of the query. */
  predicate RefersTo(tables: seq<TableNode>, j: JoinNode) {
    match j
    case TableJoin(t) => t < |tables|
    case JoinJoin(l, r, _) => RefersTo(tables, l) && RefersTo(tables, r)
  }

  /** Join flags passed to the flatten operator for a join type. */
  function FlagsFor(jt: JoinType): (f: JoinFlags)
    ensures f == LeftJoin <==> jt == LeftOuter
    ensures f == RightJoin <==> jt == RightOuter
    ensures f == DefaultJoin <==> jt == Inner || jt == FullOuter
  {
    match jt
    case LeftOuter => LeftJoin
    case RightOuter => RightJoin
    case _ => DefaultJoin
  }

  /** Field count of the table node at position `t` (none outside the
      statement's table nodes). */
  function FieldsOf(tables: seq<TableNode>, t: nat): nat {
    if t < |tables| then tables[t].nfields else 0
  }

  /** Total field count of the first `k` tables of `ts`. */
  function SumTo(tables: seq<TableNode>, ts: seq<nat>, k: nat): nat
    requires k <= |ts|
  {
    if k == 0 then 0 else SumTo(tables, ts, k - 1) + FieldsOf(tables, ts[k - 1])
  }

  /** Total field count of a list of table nodes. */
  function SumFields(tables: seq<TableNode>, ts: seq<nat>): nat {
    SumTo(tables, ts, |ts|)
  }

  /** A prefix of `a + b` inside `a` sums as in `a`. */
  lemma {:induction false} SumToLeft(tables: seq<TableNode>, a: seq<nat>, b: seq<nat>, k: nat)
    requires k <= |a|
    ensures SumTo(tables, a + b, k) == SumTo(tables, a, k)
    decreases k
  {
    if k > 0 {
      SumToLeft(tables, a, b, k - 1);
      assert (a + b)[k - 1] == a[k - 1];
    }
  }

  /** A prefix of `a + b` reaching into `b` sums all of `a` and a prefix of `b`. */
  lemma {:induction false} SumToRight(tables: seq<TableNode>, a: seq<nat>, b: seq<nat>, m: nat)
    requires m <= |b|
    ensures SumTo(tables, a + b, |a| + m) == SumFields(tables, a) + SumTo(tables, b, m)
    decreases m
  {
    if m == 0 {
      SumToLeft(tables, a, b, |a|);
    } else {
      SumToRight(tables, a, b, m - 1);
      assert (a + b)[|a| + m - 1] == b[m - 1];
    }
  }

  /** Number of fields of the flattened row of a join tree. */
  function FieldCount(tables: seq<TableNode>, j: JoinNode): nat
    requires RefersTo(tables, j)
  {
    match j
    case TableJoin(t) => tables[t].nfields
    case JoinJoin(l, r, jt) =>
      FieldCount(tables, l) + FieldCount(tables, r)
  }

  /** `base` updated with every entry of `other` shifted by `shift`. */
  function Merged(base: map<nat, int>, other: map<nat, int>, shift: int): (m: map<nat, int>)
    ensures m.Keys == base.Keys + other.Keys
    ensures forall k :: k in other ==> m[k] == other[k] + shift
    ensures forall k :: k in base && k !in other ==> m[k] == base[k]
  {
    map k | k in base.Keys + other.Keys :: if k in other then other[k] + shift else base[k]
  }

  /** Offset of the first field of every table in the flattened row. */
  function Offsets(tables: seq<TableNode>, j: JoinNode): map<nat, int>
    requires RefersTo(tables, j)
  {
    match j
    case TableJoin(t) => map[t := 0]
    case JoinJoin(l, r, jt) =>
      Merged(Offsets(tables, l), Offsets(tables, r), FieldCount(tables, l))
  }

  /** Row type of the flattened rows of a join tree. */
  function RowTypeOf(tables: seq<TableNode>, j: JoinNode): RowType
    requires RefersTo(tables, j)
  {
    match j
    case TableJoin(t) => TableRowType(tables[t].tableId)
    case JoinJoin(l, r, jt) =>
      FlattenedRowType(RowTypeOf(tables, l), RowTypeOf(tables, r))
  }

  /** The operator tree after flattening `j` on top of `input`: the left
      subtree first, then the right one, then a flatten operator for the
      join node itself. */
  function FlattenPlan(tables: seq<TableNode>, input: Operator, j: JoinNode): Operator
    requires RefersTo(tables, j)
    decreases j
  {
    match j
    case TableJoin(_) => input
    case JoinJoin(l, r, jt) =>
      FlattenHKeyOrdered(FlattenPlan(tables, FlattenPlan(tables, input, l), r),
                         RowTypeOf(tables, l), RowTypeOf(tables, r), FlagsFor(jt))
  }

  /** Each table of the join tree appears once. */
  predicate DistinctLeaves(j: JoinNode) {
    Distinct(Leaves(j))
  }

  predicate Distinct(s: seq<nat>) {
    forall i, k :: 0 <= i < k < |s| ==> s[i] != s[k]
  }

  /** The offsets map has an entry exactly for the tables of the join tree. */
  lemma {:induction false} OffsetsKeys(tables: seq<TableNode>, j: JoinNode)
    requires RefersTo(tables, j)
    ensures forall t :: t in Offsets(tables, j) <==> t in Leaves(j)
  {
    match j
    case TableJoin(_) =>
    case JoinJoin(l, r, jt) =>
      OffsetsKeys(tables, l);
      OffsetsKeys(tables, r);
  }

  /** Offsets of the tables of `j` as prefix sums of the leaves' field
      counts. */
  predicate PrefixSumOffsets(tables: seq<TableNode>, ls: seq<nat>, offs: map<nat, int>) {
    forall k :: 0 <= k < |ls| ==> OffsetAt(tables, ls, offs, k)
  }

  /** The k-th table of `ls` starts after the fields of the tables before it. */
  predicate OffsetAt(tables: seq<TableNode>, ls: seq<nat>, offs: map<nat, int>, k: nat)
    requires k < |ls|
  {
    ls[k] in offs && offs[ls[k]] == SumTo(tables, ls, k)
  }

  /** Independent description of the offsets: the offset of the k-th table
      is the total field count of the tables before it, and the flattened
      row is as wide as all tables together. */
  lemma {:induction false} OffsetsArePrefixSums(tables: seq<TableNode>, j: JoinNode)
    requires RefersTo(tables, j) && DistinctLeaves(j)
    ensures FieldCount(tables, j) == SumFields(tables, Leaves(j))
    ensures PrefixSumOffsets(tables, Leaves(j), Offsets(tables, j))
  {
    match j
    case TableJoin(t) =>
      assert Leaves(j) == [t];
      assert SumTo(tables, [t], 1) == SumTo(tables, [t], 0) + FieldsOf(tables, t);
      assert OffsetAt(tables, [t], Offsets(tables, j), 0);
    case JoinJoin(l, r, jt) =>
      DistinctParts(Leaves(l), Leaves(r));
      OffsetsArePrefixSums(tables, l);
      OffsetsArePrefixSums(tables, r);
      JoinPrefixSums(tables, l, r, jt);
  }

  /** The join step of `OffsetsArePrefixSums`. */
  lemma JoinPrefixSums(tables: seq<TableNode>, l: JoinNode, r: JoinNode, jt: JoinType)
    requires RefersTo(tables, l) && RefersTo(tables, r)
    requires forall i, k :: 0 <= i < |Leaves(l)| && 0 <= k < |Leaves(r)| ==> Leaves(l)[i] != Leaves(r)[k]
    requires FieldCount(tables, l) == SumFields(tables, Leaves(l))
    requires FieldCount(tables, r) == SumFields(tables, Leaves(r))
    requires PrefixSumOffsets(tables, Leaves(l), Offsets(tables, l))
    requires PrefixSumOffsets(tables, Leaves(r), Offsets(tables, r))
    ensures FieldCount(tables, JoinJoin(l, r, jt)) == SumFields(tables, Leaves(JoinJoin(l, r, jt)))
    ensures PrefixSumOffsets(tables, Leaves(JoinJoin(l, r, jt)), Offsets(tables, JoinJoin(l, r, jt)))
  {
    var lsL, lsR := Leaves(l), Leaves(r);
    OffsetsKeys(tables, r);
    forall i | 0 <= i < |lsL| ensures lsL[i] !in Offsets(tables, r) {
      assert lsL[i] !in lsR;
    }
    SumToRight(tables, lsL, lsR, |lsR|);
    MergedPrefixSums(tables, lsL, lsR, Offsets(tables, l), Offsets(tables, r));
  }

  lemma DistinctParts(a: seq<nat>, b: seq<nat>)
    requires Distinct(a + b)
    ensures Distinct(a) && Distinct(b)
    ensures forall i, k :: 0 <= i < |a| && 0 <= k < |b| ==> a[i] != b[k]
  {
    var ab := a + b;
    forall i, k | 0 <= i < k < |a| ensures a[i] != a[k] {
      assert a[i] == ab[i] && a[k] == ab[k];
    }
    forall i, k | 0 <= i < k < |b| ensures b[i] != b[k] {
      assert b[i] == ab[|a| + i] && b[k] == ab[|a| + k];
    }
    forall i, k | 0 <= i < |a| && 0 <= k < |b| ensures a[i] != b[k] {
      assert a[i] == ab[i] && b[k] == ab[|a| + k];
    }
  }

  /** The merge step of the offsets keeps the prefix-sum description. */
  lemma MergedPrefixSums(tables: seq<TableNode>, lsL: seq<nat>, lsR: seq<nat>, offL: map<nat, int>, offR: map<nat, int>)
    requires PrefixSumOffsets(tables, lsL, offL) && PrefixSumOffsets(tables, lsR, offR)
    requires forall i :: 0 <= i < |lsL| ==> lsL[i] !in offR
    ensures PrefixSumOffsets(tables, lsL + lsR, Merged(offL, offR, SumFields(tables, lsL)))
  {
    var ls := lsL + lsR;
    var offs := Merged(offL, offR, SumFields(tables, lsL));
    forall k | 0 <= k < |ls|
      ensures OffsetAt(tables, ls, offs, k)
    {
      if k < |lsL| {
        assert OffsetAt(tables, lsL, offL, k);
        MergedLeftEntry(tables, lsL, lsR, offL, offR, k);
      } else {
        assert OffsetAt(tables, lsR, offR, k - |lsL|);
        MergedRightEntry(tables, lsL, lsR, offL, offR, k - |lsL|);
      }
    }
  }

  /** A table of the left subtree keeps its offset. */
  lemma MergedLeftEntry(tables: seq<TableNode>, lsL: seq<nat>, lsR: seq<nat>, offL: map<nat, int>, offR: map<nat, int>, k: nat)
    requires k < |lsL|
    requires OffsetAt(tables, lsL, offL, k)
    requires lsL[k] !in offR
    ensures OffsetAt(tables, lsL + lsR, Merged(offL, offR, SumFields(tables, lsL)), k)
  {
    SumToLeft(tables, lsL, lsR, k);
    assert (lsL + lsR)[k] == lsL[k];
  }

  /** A table of the right subtree is shifted past the left subtree. */
  lemma MergedRightEntry(tables: seq<TableNode>, lsL: seq<nat>, lsR: seq<nat>, offL: map<nat, int>, offR: map<nat, int>, m: nat)
    requires m < |lsR|
    requires OffsetAt(tables, lsR, offR, m)
    ensures OffsetAt(tables, lsL + lsR, Merged(offL, offR, SumFields(tables, lsL)), |lsL| + m)
  {
    SumToRight(tables, lsL, lsR, m);
    assert (lsL + lsR)[|lsL| + m] == lsR[m];
  }

  /** Prefix sums never decrease. */
  lemma {:induction false} PrefixMonotone(tables: seq<TableNode>, ls: seq<nat>, i: nat, k: nat)
    requires i <= k <= |ls|
    ensures SumTo(tables, ls, i) <= SumTo(tables, ls, k)
    decreases k
  {
    if i < k {
      PrefixMonotone(tables, ls, i, k - 1);
    }
  }

  /** A column of a table of the join tree lands inside the flattened row,
      and columns of different tables land on different fields. */
  lemma ColumnFieldsDisjoint(tables: seq<TableNode>, j: JoinNode, a: nat, pa: nat, b: nat, pb: nat)
    requires RefersTo(tables, j) && DistinctLeaves(j)
    requires a in Leaves(j) && a < |tables| && pa < tables[a].nfields
    requires b in Leaves(j) && b < |tables| && pb < tables[b].nfields
    ensures a in Offsets(tables, j) && b in Offsets(tables, j)
    ensures 0 <= Offsets(tables, j)[a] + pa < FieldCount(tables, j)
    ensures a != b ==> Offsets(tables, j)[a] + pa != Offsets(tables, j)[b] + pb
  {
    var ls := Leaves(j);
    OffsetsArePrefixSums(tables, j);
    var ka :| 0 <= ka < |ls| && ls[ka] == a;
    var kb :| 0 <= kb < |ls| && ls[kb] == b;
    assert OffsetAt(tables, ls, Offsets(tables, j), ka);
    assert OffsetAt(tables, ls, Offsets(tables, j), kb);
    PrefixMonotone(tables, ls, ka + 1, |ls|);
    if ka < kb {
      PrefixMonotone(tables, ls, ka + 1, kb);
    } else if kb < ka {
      PrefixMonotone(tables, ls, kb + 1, ka);
    }
  }

  /** Flattening only stacks operators on top of its input. */
  lemma {:induction false} FlattenPlanSource(tables: seq<TableNode>, input: Operator, j: JoinNode)
    requires RefersTo(tables, j)
    ensures FlattenPlan(tables, input, j).Source() == input.Source()
    ensures FlattenPlan(tables, input, j).HasBranchLookup() <==> input.HasBranchLookup()
    decreases j
  {
    match j
    case TableJoin(_) =>
    case JoinJoin(l, r, jt) =>
      FlattenPlanSource(tables, input, l);
      FlattenPlanSource(tables, FlattenPlan(tables, input, l), r);
  }

  /** The state of a flattened subtree: its row type, the offset of every
      table in it, and its field count. */
  class FlattenState {
    var resultRowType: RowType
    var fieldOffsets: map<nat, int>
    var nfields: int

    constructor(resultRowType: RowType, fieldOffsets: map<nat, int>, nfields: int)
      ensures this.resultRowType == resultRowType
      ensures this.fieldOffsets == fieldOffsets
      ensures this.nfields == nfields
    {
      this.resultRowType := resultRowType;
      this.fieldOffsets := fieldOffsets;
      this.nfields := nfields;
    }

    /** Appends the fields of `other` after this state's fields. */
    method MergeFields(other: FlattenState)
      requires other != this
      modifies this
      ensures fieldOffsets == Merged(old(fieldOffsets), other.fieldOffsets, old(nfields))
      ensures nfields == old(nfields) + other.nfields
      ensures resultRowType == old(resultRowType)
    {
      var keys := other.fieldOffsets.Keys;
      ghost var done: set<nat> := {};
      while keys != {}
        invariant keys + done == other.fieldOffsets.Keys && keys !! done
        invariant nfields == old(nfields) && resultRowType == old(resultRowType)
        invariant fieldOffsets.Keys == old(fieldOffsets).Keys + done
        invariant forall k :: k in done ==> fieldOffsets[k] == other.fieldOffsets[k] + nfields
        invariant forall k :: k in old(fieldOffsets) && k !in done ==> fieldOffsets[k] == old(fieldOffsets)[k]
        decreases keys
      {
        var table :| table in keys;
        fieldOffsets := fieldOffsets[table := other.fieldOffsets[table] + nfields];
        keys := keys - {table};
        done := done + {table};
      }
      nfields := nfields + other.nfields;
    }
  }

  /** Builds the flatten operators while walking the join tree; the operator
      built so far is threaded through the walk. */
  class Flattener {
    var resultOperator: Operator

    constructor(resultOperator: Operator)
      ensures this.resultOperator == resultOperator
    {
      this.resultOperator := resultOperator;
    }

    /** Flattens `join`: the returned state holds the row type, offsets and
        field count of the join tree, and the operator tree has grown by one
        flatten operator per join node, in post-order. */
    method Flatten(tables: seq<TableNode>, join: JoinNode) returns (st: FlattenState)
      requires RefersTo(tables, join)
      modifies this
      ensures fresh(st)
      ensures st.resultRowType == RowTypeOf(tables, join)
      ensures st.fieldOffsets == Offsets(tables, join)
      ensures st.nfields == FieldCount(tables, join)
      ensures resultOperator == FlattenPlan(tables, old(resultOperator), join)
      decreases join
    {
      match join
      case TableJoin(table) =>
        st := new FlattenState(TableRowType(tables[table].tableId), map[table := 0], tables[table].nfields);
      case JoinJoin(left, right, joinType) =>
        var fleft := Flatten(tables, left);
        var fright := Flatten(tables, right);
        var flags := FlagsFor(joinType);
        resultOperator := FlattenHKeyOrdered(resultOperator, fleft.resultRowType, fright.resultRowType, flags);
        fleft.resultRowType := FlattenedRowType(fleft.resultRowType, fright.resultRowType);
        fleft.MergeFields(fright);
        st := fleft;
    }
  }
}
