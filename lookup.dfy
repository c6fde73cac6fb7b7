/** The lookup strategy after an index scan on a table node: a branch
    lookup when some table below the index table is used, and an ancestor
    lookup for the used tables above it (and for the index table itself
    when no branch lookup brings it in). */
module Lookup {
  import opened Types

  /** Parent links point to earlier positions, so every parent chain ends. */
  predicate WellFormedTree(tables: seq<TableNode>) {
    forall i :: 0 <= i < |tables| && tables[i].parent.Some? ==> tables[i].parent.value < i
  }

  /** `d` lies strictly below `t` in the table hierarchy. */
  predicate IsStrictDescendant(tables: seq<TableNode>, d: nat, t: nat)
    decreases d
  {
    && d < |tables|
    && tables[d].parent.Some?
    && var p := tables[d].parent.value;
       p < d && (p == t || IsStrictDescendant(tables, p, t))
  }

  /** Descendants lie at later positions than their ancestors. */
  lemma {:induction false} DescendantComesLater(tables: seq<TableNode>, d: nat, t: nat)
    requires IsStrictDescendant(tables, d, t)
    ensures t < d
    decreases d
  {
    var p := tables[d].parent.value;
    if p != t {
      DescendantComesLater(tables, p, t);
    }
  }

  /** Strict descendants of `t` at positions `k` and beyond, in order. */
  function DescendantsFrom(tables: seq<TableNode>, t: nat, k: nat): (ds: seq<nat>)
    decreases |tables| - k
    ensures forall d :: d in ds <==> k <= d < |tables| && IsStrictDescendant(tables, d, t)
  {
    if k >= |tables| then []
    else (if IsStrictDescendant(tables, k, t) then [k] else []) + DescendantsFrom(tables, t, k + 1)
  }

  /** The subtree of `t`: `t` first, then its strict descendants. */
  function Subtree(tables: seq<TableNode>, t: nat): (s: seq<nat>)
    ensures |s| > 0 && s[0] == t
    ensures forall i :: 0 < i < |s| ==> s[i] < |tables| && IsStrictDescendant(tables, s[i], t)
    ensures forall d: nat :: d < |tables| && IsStrictDescendant(tables, d, t) ==> d in s
  {
    var ds := DescendantsFrom(tables, t, t + 1);
    assert forall i :: 0 <= i < |ds| ==> ds[i] in ds;
    assert forall d: nat :: d < |tables| && IsStrictDescendant(tables, d, t) ==> d in ds by {
      forall d: nat | d < |tables| && IsStrictDescendant(tables, d, t) ensures d in ds {
        DescendantComesLater(tables, d, t);
      }
    }
    [t] + ds
  }

  /** Walks the subtree of the index table: records whether the index table
      itself is used and stops at the first used strict descendant. */
  method ScanSubtree(tables: seq<TableNode>, t: nat) returns (tableUsed: bool, descendantUsed: bool)
    requires t < |tables|
    ensures tableUsed == tables[t].used
    ensures descendantUsed <==> DescendantUsed(tables, t)
  {
    tableUsed, descendantUsed := false, false;
    var subtree := Subtree(tables, t);
    for k := 0 to |subtree|
      invariant k > 0 ==> tableUsed == tables[t].used
      invariant !descendantUsed
      invariant forall m :: 1 <= m < k ==> !tables[subtree[m]].used
    {
      var table := subtree[k];
      if table == t {
        tableUsed := tables[table].used;
      } else if tables[table].used {
        descendantUsed := true;
        break;
      }
    }
    if !descendantUsed {
      forall d | 0 <= d < |tables| && IsStrictDescendant(tables, d, t)
        ensures !tables[d].used
      {
        DescendantComesLater(tables, d, t);
        assert d in subtree[1..];
      }
    }
  }

  /** Is `cur`, met while walking up from the index table `t`, wanted as an
      ancestor-lookup target?  The index table only when `includeIndexTable`,
      the tables above it when they are used. */
  predicate WantedAt(tables: seq<TableNode>, t: nat, cur: nat, includeIndexTable: bool)
    requires cur < |tables|
  {
    if cur == t then includeIndexTable else tables[cur].used
  }

  /** The wanted tables met on the parent chain from `cur` to the root. */
  function WantedAncestors(tables: seq<TableNode>, t: nat, cur: nat, includeIndexTable: bool): (w: seq<nat>)
    requires WellFormedTree(tables) && cur < |tables|
    ensures forall i :: 0 <= i < |w| ==> w[i] <= cur
    decreases cur
  {
    (if WantedAt(tables, t, cur, includeIndexTable) then [cur] else [])
    + match tables[cur].parent
      case None => []
      case Some(p) => WantedAncestors(tables, t, p, includeIndexTable)
  }

  /** The chain from `cur` holds exactly the wanted tables among `cur` and
      its ancestors. */
  lemma {:induction false} WantedAncestorMember(tables: seq<TableNode>, t: nat, cur: nat, includeIndexTable: bool, a: nat)
    requires WellFormedTree(tables) && cur < |tables|
    ensures a in WantedAncestors(tables, t, cur, includeIndexTable) <==>
      && (a == cur || IsStrictDescendant(tables, cur, a))
      && a < |tables|
      && WantedAt(tables, t, a, includeIndexTable)
    decreases cur
  {
    match tables[cur].parent
    case None =>
    case Some(p) =>
      WantedAncestorMember(tables, t, p, includeIndexTable, a);
  }

  /** Positions listed child before parent. */
  predicate StrictlyDecreasing(s: seq<nat>) {
    forall i, j :: 0 <= i < j < |s| ==> s[i] > s[j]
  }

  /** The chain lists its tables child before parent. */
  lemma {:induction false} WantedAncestorsDecreasing(tables: seq<TableNode>, t: nat, cur: nat, includeIndexTable: bool)
    requires WellFormedTree(tables) && cur < |tables|
    ensures StrictlyDecreasing(WantedAncestors(tables, t, cur, includeIndexTable))
    decreases cur
  {
    var w := WantedAncestors(tables, t, cur, includeIndexTable);
    match tables[cur].parent
    case None =>
    case Some(p) =>
      WantedAncestorsDecreasing(tables, t, p, includeIndexTable);
      var rest := WantedAncestors(tables, t, p, includeIndexTable);
      assert p < cur;
      assert w == (if WantedAt(tables, t, cur, includeIndexTable) then [cur] else []) + rest;
      if WantedAt(tables, t, cur, includeIndexTable) {
        forall i, j | 0 <= i < j < |w|
          ensures w[i] > w[j]
        {
          assert w[j] == rest[j - 1] <= p;
          if i > 0 {
            assert w[i] == rest[i - 1];
          }
        }
      }
  }

  /** The row types of the wanted tables, in the same order. */
  function RowTypesOf(tables: seq<TableNode>, nodes: seq<nat>): (types: seq<RowType>)
    requires forall i :: 0 <= i < |nodes| ==> nodes[i] < |tables|
    ensures |types| == |nodes|
    ensures forall i :: 0 <= i < |nodes| ==> types[i] == TableRowType(tables[nodes[i]].tableId)
  {
    if |nodes| == 0 then [] else [TableRowType(tables[nodes[0]].tableId)] + RowTypesOf(tables, nodes[1..])
  }

  /** Row types extend one node at a time. */
  lemma RowTypesOfSnoc(tables: seq<TableNode>, nodes: seq<nat>, x: nat)
    requires forall i :: 0 <= i < |nodes| ==> nodes[i] < |tables|
    requires x < |tables|
    ensures forall i :: 0 <= i < |nodes + [x]| ==> (nodes + [x])[i] < |tables|
    ensures RowTypesOf(tables, nodes + [x]) == RowTypesOf(tables, nodes) + [TableRowType(tables[x].tableId)]
  {
  }

  /** Walks the parent chain from the index table to the root and collects
      the row types to fetch by ancestor lookup. */
  method AncestorLookupTypes(tables: seq<TableNode>, t: nat, tableUsed: bool, descendantUsed: bool)
    returns (addAncestors: seq<RowType>)
    requires WellFormedTree(tables) && t < |tables|
    ensures addAncestors == RowTypesOf(tables, WantedAncestors(tables, t, t, !descendantUsed && tableUsed))
  {
    var withIndexTable := !descendantUsed && tableUsed;
    ghost var all := WantedAncestors(tables, t, t, withIndexTable);
    ghost var visited: seq<nat> := [];
    addAncestors := [];
    var table: Option<nat> := Some(t);
    while table.Some?
      invariant forall i :: 0 <= i < |visited| ==> visited[i] < |tables|
      invariant addAncestors == RowTypesOf(tables, visited)
      invariant table.Some? ==> table.value < |tables| && visited + WantedAncestors(tables, t, table.value, withIndexTable) == all
      invariant table.None? ==> visited == all
      decreases if table.Some? then table.value + 1 else 0
    {
      var cur := table.value;
      ghost var rest := match tables[cur].parent
        case None => []
        case Some(p) => WantedAncestors(tables, t, p, withIndexTable);
      ghost var here := WantedAncestors(tables, t, cur, withIndexTable);
      if (if cur == t then !descendantUsed && tableUsed else tables[cur].used) {
        assert here == [cur] + rest;
        AppendOne(visited, cur, rest);
        RowTypesOfSnoc(tables, visited, cur);
        visited := visited + [cur];
        addAncestors := addAncestors + [TableRowType(tables[cur].tableId)];
      } else {
        assert here == rest;
      }
      table := tables[cur].parent;
    }
  }

  /** Is some strict descendant of `t` used? */
  predicate DescendantUsed(tables: seq<TableNode>, t: nat) {
    exists d :: 0 <= d < |tables| && IsStrictDescendant(tables, d, t) && tables[d].used
  }

  /** The lookups after an index scan `scan` of `indexType` on table node
      `t`: a branch lookup iff some strict descendant of `t` is used, then an
      ancestor lookup for the wanted tables iff there are any, reading the
      table's rows after a branch lookup and the index rows otherwise. */
  function LookupPlan(tables: seq<TableNode>, t: nat, group: nat, indexType: RowType, scan: Operator): Operator
    requires WellFormedTree(tables) && t < |tables|
  {
    var descendantUsed := DescendantUsed(tables, t);
    var tableType := TableRowType(tables[t].tableId);
    var afterBranch := if descendantUsed then BranchLookup(scan, group, indexType, tableType, false) else scan;
    var ancestors := RowTypesOf(tables, WantedAncestors(tables, t, t, !descendantUsed && tables[t].used));
    if |ancestors| == 0 then afterBranch
    else AncestorLookup(afterBranch, group, if descendantUsed then tableType else indexType,
                        ancestors, descendantUsed && tables[t].used)
  }

  /** Adds the lookups after the index scan `scan`. */
  method AddLookups(tables: seq<TableNode>, t: nat, group: nat, indexType: RowType, scan: Operator)
    returns (op: Operator)
    requires WellFormedTree(tables) && t < |tables|
    ensures op == LookupPlan(tables, t, group, indexType, scan)
  {
    var tableUsed, descendantUsed := ScanSubtree(tables, t);
    op := scan;
    var tableType := TableRowType(tables[t].tableId);
    var ancestorType := indexType;
    if descendantUsed {
      op := BranchLookup(op, group, indexType, tableType, false);
      ancestorType := tableType;
    }
    var addAncestors := AncestorLookupTypes(tables, t, tableUsed, descendantUsed);
    if |addAncestors| > 0 {
      op := AncestorLookup(op, group, ancestorType, addAncestors, descendantUsed && tableUsed);
    }
  }

  /** The lookup rule in terms of the hierarchy: a branch lookup appears iff
      a strict descendant of the index table is used; the ancestor-lookup
      targets are the used strict ancestors plus the index table itself iff
      it is used and no branch lookup brings it in, child before parent; and
      no ancestor lookup is added when there is no target. */
  lemma LookupRule(tables: seq<TableNode>, t: nat, descendantUsed: bool)
    requires WellFormedTree(tables) && t < |tables|
    ensures var w := WantedAncestors(tables, t, t, !descendantUsed && tables[t].used);
      && (forall a: nat :: a in w <==>
            (a == t && !descendantUsed && tables[t].used)
            || (IsStrictDescendant(tables, t, a) && a < |tables| && tables[a].used))
      && StrictlyDecreasing(w)
  {
    var withIndexTable := !descendantUsed && tables[t].used;
    WantedAncestorsDecreasing(tables, t, t, withIndexTable);
    forall a: nat
      ensures a in WantedAncestors(tables, t, t, withIndexTable) <==>
        (a == t && withIndexTable) || (IsStrictDescendant(tables, t, a) && a < |tables| && tables[a].used)
    {
      WantedAncestorMember(tables, t, t, withIndexTable, a);
      if IsStrictDescendant(tables, t, a) {
        DescendantComesLater(tables, t, a);
      }
    }
  }

  /** With a scan at the bottom, the lookups hold a branch lookup iff a
      strict descendant of the index table is used, an ancestor lookup iff
      some table is wanted, and the scan stays the source of the chain. */
  lemma LookupPlanShape(tables: seq<TableNode>, t: nat, group: nat, indexType: RowType, scan: Operator)
    requires WellFormedTree(tables) && t < |tables|
    requires !scan.HasInput()
    ensures var op := LookupPlan(tables, t, group, indexType, scan);
      && (op.HasBranchLookup() <==> DescendantUsed(tables, t))
      && (op.AncestorLookup? <==> |WantedAncestors(tables, t, t, !DescendantUsed(tables, t) && tables[t].used)| > 0)
      && op.Source() == scan
  {
    var descendantUsed := DescendantUsed(tables, t);
    var tableType := TableRowType(tables[t].tableId);
    var afterBranch := if descendantUsed then BranchLookup(scan, group, indexType, tableType, false) else scan;
    assert afterBranch.HasBranchLookup() <==> descendantUsed;
    assert afterBranch.Source() == scan;
  }
}
