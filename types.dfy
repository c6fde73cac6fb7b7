/** Shared data model of the operator compiler: schema handles, the
    simplified query handed over by the binding/grouping pipeline, and the
    physical operator tree the compiler builds.  Catalog objects and
    physical operators are opaque here: they are represented by the
    constructor call that creates them. */
module Types {

  datatype Option<+T> = None | Some(value: T)

  datatype Result<+R, +E> = Success(value: R) | Failure(error: E)

  /** The compilation error raised synchronously by the compiler. */
  datatype Error = Unsupported(message: string)

  /** Comparison operators a column condition can carry. */
  datatype Comparison = EQ | GT | GE | LT | LE

  /** A schema column: the id of the table that owns it and its position
      in that table's row. */
  datatype Column = Column(tableId: int, position: nat)

  /** Right-hand side of a column condition. */
  datatype Operand =
    | Constant(value: int)
    | ColumnOperand(table: nat, column: Column)

  /** `column op right`, where `column` is read from the table node `table`
      of the query.  `id` stands for the identity of the condition object:
      two conditions are the same condition iff they are equal values. */
  datatype ColumnCondition = ColumnCondition(id: nat, table: nat, column: Column, op: Comparison, right: Operand)

  /** A requested ORDER BY column. */
  datatype SortColumn = SortColumn(column: Column, ascending: bool)

  /** One column of an index, with its declared direction. */
  datatype IndexColumn = IndexColumn(column: Column, ascending: bool)

  /** An index of a table: the owning table's id and its ordered columns. */
  datatype TableIndex = TableIndex(name: string, tableId: int, columns: seq<IndexColumn>)

  /** A table reference of one statement.  Table nodes live in a sequence;
      `parent` is the position of the parent node in the same sequence. */
  datatype TableNode = TableNode(
    tableId: int,
    parent: Option<nat>,
    used: bool,
    outer: bool,
    nfields: nat,
    indexes: seq<TableIndex>)

  datatype JoinType = Inner | LeftOuter | RightOuter | FullOuter

  /** The binary join tree produced by join reordering; leaves name table
      nodes by position. */
  datatype JoinNode =
    | TableJoin(table: nat)
    | JoinJoin(left: JoinNode, right: JoinNode, joinType: JoinType)

  /** A select-list expression: a plain column reference or anything else. */
  datatype SimpleExpression =
    | ColumnExpression(table: nat, column: Column)
    | OtherExpression(text: string)

  /** The simplified query: tables, join tree, conditions, ORDER BY
      (`None` when the statement has none), select list and pagination. */
  datatype SimplifiedQuery = SimplifiedQuery(
    group: nat,
    tables: seq<TableNode>,
    joins: JoinNode,
    conditions: seq<ColumnCondition>,
    sortColumns: Option<seq<SortColumn>>,
    selectColumns: seq<SimpleExpression>,
    offset: int,
    limit: int)

  /** Row types handed out by the schema. */
  datatype RowType =
    | TableRowType(tableId: int)
    | IndexRowType(tableId: int, indexName: string)
    | FlattenedRowType(left: RowType, right: RowType)

  /** Generated expressions; their evaluation is not part of the model. */
  datatype Expression =
    | KeyValue(operand: Operand)
    | ConditionPredicate(condition: ColumnCondition, fieldOffsets: map<nat, int>)
    | ValueExpression(operand: Operand, fieldOffsets: map<nat, int>)

  /** A bound of an index scan: the index and its key slots (`None` for an
      unset slot). */
  datatype IndexBound = IndexBound(index: TableIndex, keys: seq<Option<Expression>>)

  datatype IndexKeyRange = IndexKeyRange(
    lo: Option<IndexBound>, loInclusive: bool,
    hi: Option<IndexBound>, hiInclusive: bool)

  /** Join flags passed to the flatten operator. */
  datatype JoinFlags = DefaultJoin | LeftJoin | RightJoin

  /** The physical operators the compiler constructs, by factory. */
  datatype Operator =
    | IndexScan(indexType: RowType, reverse: bool, range: IndexKeyRange)
    | GroupScan(group: nat)
    | BranchLookup(input: Operator, group: nat, sourceType: RowType, targetType: RowType, keepInput: bool)
    | AncestorLookup(input: Operator, group: nat, sourceType: RowType, ancestorTypes: seq<RowType>, keepInput: bool)
    | FlattenHKeyOrdered(input: Operator, leftType: RowType, rightType: RowType, flags: JoinFlags)
    | SelectHKeyOrdered(input: Operator, rowType: RowType, test: Expression)
    | UpdateDefault(input: Operator, updates: seq<Option<Expression>>)
  {
    /** Does the operator read from an input operator? */
    predicate HasInput() {
      !IndexScan? && !GroupScan?
    }

    /** The scan at the bottom of the operator chain. */
    function Source(): (s: Operator)
      ensures !s.HasInput()
    {
      if HasInput() then input.Source() else this
    }

    /** Does the chain contain a branch lookup? */
    predicate HasBranchLookup() {
      BranchLookup? || (HasInput() && input.HasBranchLookup())
    }
  }

  /** Regrouping an append of one element. */
  lemma AppendOne<T>(a: seq<T>, x: T, b: seq<T>)
    ensures a + ([x] + b) == (a + [x]) + b
  {
  }
}
