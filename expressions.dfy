/**
 * The inputs of the projection compiler: the parsed SELECT list, what the
 * (unseen) expression compiler reports about each ordinary item, the compiled
 * expressions, the aggregate functions with their registry, and the errors.
 */
module Expressions {
  import opened Wrappers
  import opened Schema

  /** The expression compiler's output for one parse node; opaque here. */
  type CompiledExpression(==)

  /**
   * One single-row aggregate function (e.g. SUM(x)). Equality is the
   * structural equality the collecting hash set deduplicates by.
   */
  type AggFunc(==, !new)

  /** An evaluable expression as the projection compiler builds or receives it. */
  datatype Expr =
    | Compiled(compiled: CompiledExpression)     // `node.accept(selectVisitor)`
    | ColumnExpression(position: nat)            // `new ColumnRef(tableRef, position).newColumnExpression()`
    | Coerce(child: Expr, targetType: DataType)  // `CoerceExpression.create(child, targetType)`

  /**
   * The behaviour of aggregate functions that lives outside this file:
   * the aggregates an expression contains (the SingleAggregateFunctionVisitor
   * walk, which does not descend into an aggregate), the schema comparator as
   * a "less than or equal" relation, and the two nullability questions.
   */
  datatype AggregateRegistry = AggregateRegistry(
    containedAggregates: Expr -> set<AggFunc>,
    schemaLeq: (AggFunc, AggFunc) -> bool,
    aggregatorIsNullable: AggFunc -> bool,
    aggregatedExpressionIsNullable: AggFunc -> bool)
  {
    /** What a Java Comparator promises: a total preorder. */
    ghost predicate ComparatorIsTotalPreorder() {
      && (forall a, b :: schemaLeq(a, b) || schemaLeq(b, a))
      && (forall a, b, c :: schemaLeq(a, b) && schemaLeq(b, c) ==> schemaLeq(a, c))
    }

    /** A comparator that is also antisymmetric orders the functions uniquely. */
    ghost predicate ComparatorIsAntisymmetric() {
      forall a, b :: schemaLeq(a, b) && schemaLeq(b, a) ==> a == b
    }
  }

  /** A callback the expression compiler makes on the select-clause visitor. */
  datatype VisitorEvent =
    | ResolveColumn(nodeIsCaseSensitive: bool)   // `resolveColumn(node)` for one column reference
    | AddElement                                 // `addElement(l, element)`

  /** What compiling one ordinary select item with the visitor yields. */
  datatype Compilation = Compilation(
    expression: CompiledExpression,
    dataType: Option<DataType>,   // `getDataType()`, None for null
    visitorIsAggregate: bool,     // `selectVisitor.isAggregate()` afterwards
    events: seq<VisitorEvent>)    // the callbacks, in the order they were made

  /** The parse node of one select item. */
  datatype ParseNode =
    | Wildcard                              // `*`
    | FamilyWildcard(familyName: FamilyName)  // `cf.*`
    | Expression(text: string, isConstant: bool, compilation: Compilation)

  /** One entry of the SELECT list: a node with an optional alias. */
  datatype AliasedNode = AliasedNode(alias: Option<string>, isCaseSensitive: bool, node: ParseNode)

  datatype SelectStatement = SelectStatement(select: seq<AliasedNode>, isAggregate: bool)

  datatype GroupBy = GroupBy(keyExpressions: seq<Expr>) {
    predicate IsEmpty() {
      keyExpressions == []
    }
  }

  /** The SQLExceptions the projection compiler raises (message text left out). */
  datatype CompileError =
    | NonAggregateInAggregate                            // `throwNonAggExpressionInAggException`
    | ArgumentTypeMismatch(expected: DataType, actual: DataType, targetColumn: string)
    | ColumnFamilyNotFound(familyName: FamilyName)

  datatype Projector = ExpressionProjector(name: string, tableName: string, expression: Expr, isCaseSensitive: bool)

  datatype RowProjector = RowProjector(projectors: seq<Projector>, estimatedByteSize: int, isProjectEmptyKeyValue: bool)
}
