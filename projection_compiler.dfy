/**
 * The projection compiler: walks the SELECT list once, building the
 * projectors, then estimates the row size, compiles the aggregate plan and
 * finalises which column families the scan reads.
 */
module ProjectionCompiler {
  import opened Wrappers
  import opened Schema
  import opened Expressions
  import opened Aggregates
  import opened Scans
  import opened SelectClause
  import opened ByteSize
  import opened ReadSet
  import opened Projection

  /** `projectAllColumnFamilies`: the read-set becomes every declared family, whole. */
  method ProjectAllColumnFamilies(table: PTable, scan: Scan)
    modifies scan
    ensures scan.familyMap == AllFamiliesWhole(table)
    ensures scan.aggregators == old(scan.aggregators)
  {
    scan.ClearFamilyMap();
    var i := 0;
    while i < |table.families|
      invariant 0 <= i <= |table.families|
      invariant scan.familyMap == map f | f in FamilyNames(table.families[..i]) :: None
      invariant scan.aggregators == old(scan.aggregators)
    {
      assert forall g :: g in table.families[..i + 1] <==> g in table.families[..i] || g == table.families[i];
      scan.AddFamily(table.families[i].name);
      i := i + 1;
    }
    assert table.families[..i] == table.families;
  }

  /** `projectColumnFamily`: read one family whole. */
  method ProjectColumnFamily(table: PTable, scan: Scan, family: FamilyName)
    modifies scan
    ensures scan.familyMap == old(scan.familyMap)[family := None]
    ensures scan.aggregators == old(scan.aggregators)
  {
    scan.AddFamily(family);
  }

  /**
   * `buildAliasMap`: each alias of the select list maps to the node of the
   * last item that carries it.
   */
  method BuildAliasMap(statement: SelectStatement) returns (aliasParseNodeMap: map<string, ParseNode>)
    ensures forall a :: a in aliasParseNodeMap <==> exists i :: 0 <= i < |statement.select| && statement.select[i].alias == Some(a)
    ensures forall a :: a in aliasParseNodeMap ==>
      exists i :: 0 <= i < |statement.select| && statement.select[i].alias == Some(a)
        && aliasParseNodeMap[a] == statement.select[i].node
        && forall j :: i < j < |statement.select| ==> statement.select[j].alias != Some(a)
  {
    var aliasedNodes := statement.select;
    aliasParseNodeMap := map[];
    var k := 0;
    while k < |aliasedNodes|
      invariant 0 <= k <= |aliasedNodes|
      invariant forall a :: a in aliasParseNodeMap <==> exists i :: 0 <= i < k && aliasedNodes[i].alias == Some(a)
      invariant forall a :: a in aliasParseNodeMap ==>
        exists i :: 0 <= i < k && aliasedNodes[i].alias == Some(a)
          && aliasParseNodeMap[a] == aliasedNodes[i].node
          && forall j :: i < j < k ==> aliasedNodes[j].alias != Some(a)
    {
      var aliasedNode := aliasedNodes[k];
      var alias := aliasedNode.alias;
      if alias.Some? {
        aliasParseNodeMap := aliasParseNodeMap[alias.value := aliasedNode.node];
      }
      k := k + 1;
    }
  }

  /**
   * The `*` branch: one column projector per table column from the first
   * non-salt position on, in position order, named by its column and never
   * case-sensitive.
   */
  method ProjectWildcard(table: PTable) returns (projectedExpressions: seq<Expr>, projectedColumns: seq<Projector>)
    ensures |projectedColumns| == |projectedExpressions| == WildcardCount(table)
    ensures WildcardStart(table) + |projectedColumns| == |table.columns| || (|projectedColumns| == 0 && WildcardStart(table) > |table.columns|)
    ensures forall k :: 0 <= k < |projectedColumns| ==>
      var position := WildcardStart(table) + k;
      && projectedExpressions[k] == ColumnExpression(position)
      && projectedColumns[k] == ExpressionProjector(table.columns[position].name, table.name, ColumnExpression(position), false)
    ensures projectedColumns == WildcardProjectors(table) && projectedExpressions == WildcardExpressions(table)
  {
    projectedExpressions, projectedColumns := [], [];
    var i := WildcardStart(table);
    while i < |table.columns|
      invariant WildcardStart(table) <= i
      invariant i <= |table.columns| || i == WildcardStart(table)
      invariant |projectedColumns| == |projectedExpressions| == i - WildcardStart(table)
      invariant forall k :: 0 <= k < |projectedColumns| ==>
        var position := WildcardStart(table) + k;
        && projectedExpressions[k] == ColumnExpression(position)
        && projectedColumns[k] == ExpressionProjector(table.columns[position].name, table.name, ColumnExpression(position), false)
    {
      var expression := ColumnExpression(i);
      projectedExpressions := projectedExpressions + [expression];
      projectedColumns := projectedColumns + [ExpressionProjector(table.columns[i].name, table.name, expression, false)];
      i := i + 1;
    }
  }

  /**
   * The `cf.*` branch after the family is found: one column projector per
   * column of the family, in the family's order, never case-sensitive.
   */
  method ProjectFamily(table: PTable, pfamily: PColumnFamily) returns (projectedExpressions: seq<Expr>, projectedColumns: seq<Projector>)
    ensures |projectedColumns| == |projectedExpressions| == |pfamily.columns|
    ensures forall k :: 0 <= k < |pfamily.columns| ==>
      var column := pfamily.columns[k];
      && projectedExpressions[k] == ColumnExpression(column.position)
      && projectedColumns[k] == ExpressionProjector(column.name, table.name, ColumnExpression(column.position), false)
    ensures projectedColumns == FamilyProjectors(table, pfamily) && projectedExpressions == FamilyExpressions(pfamily)
  {
    projectedExpressions, projectedColumns := [], [];
    var k := 0;
    while k < |pfamily.columns|
      invariant 0 <= k <= |pfamily.columns|
      invariant |projectedColumns| == |projectedExpressions| == k
      invariant forall j :: 0 <= j < k ==>
        var column := pfamily.columns[j];
        && projectedExpressions[j] == ColumnExpression(column.position)
        && projectedColumns[j] == ExpressionProjector(column.name, table.name, ColumnExpression(column.position), false)
    {
      var column := pfamily.columns[k];
      var expression := ColumnExpression(column.position);
      projectedExpressions := projectedExpressions + [expression];
      projectedColumns := projectedColumns + [ExpressionProjector(column.name, table.name, expression, false)];
      k := k + 1;
    }
  }

  /** `node.accept(selectVisitor)`, as far as the visitor sees it: its callbacks, in order. */
  method Accept(selectVisitor: SelectClauseVisitor, events: seq<VisitorEvent>)
    requires selectVisitor.isCaseSensitive && selectVisitor.elementCount == 0
    modifies selectVisitor
    ensures selectVisitor.State() == Replay(ResetState, events)
    ensures selectVisitor.isCaseSensitive == TrackedCaseSensitive(events)
  {
    var i := 0;
    while i < |events|
      invariant 0 <= i <= |events|
      invariant selectVisitor.State() == Replay(ResetState, events[..i])
    {
      assert events[..i + 1][..i] == events[..i];
      match events[i] {
        case ResolveColumn(cs) => selectVisitor.ResolveColumn(cs);
        case AddElement => selectVisitor.AddElement();
      }
      i := i + 1;
    }
    assert events[..i] == events;
  }

  /** The branch for an ordinary expression item at position `index`. */
  method CompileExpression(selectVisitor: SelectClauseVisitor, table: PTable, aliasedNode: AliasedNode, index: nat,
                           targetColumns: Option<seq<PColumn>>, isAggregate: bool,
                           isComparableTo: (DataType, DataType) -> bool)
    returns (r: Result<Expansion, CompileError>)
    requires aliasedNode.node.Expression?
    requires selectVisitor.isCaseSensitive && selectVisitor.elementCount == 0
    modifies selectVisitor
    ensures r == ExpandExpression(table, aliasedNode, index, targetColumns, isAggregate, isComparableTo)
  {
    var node := aliasedNode.node;
    var compilation := node.compilation;
    Accept(selectVisitor, compilation.events);
    var expression := Compiled(compilation.expression);
    var projectedExpression := expression;
    if targetColumns.Some? && index < |targetColumns.value| && Some(targetColumns.value[index].dataType) != compilation.dataType {
      var targetType := targetColumns.value[index].dataType;
      if compilation.dataType.Some? && !isComparableTo(compilation.dataType.value, targetType) {
        return Failure(ArgumentTypeMismatch(targetType, compilation.dataType.value, targetColumns.value[index].name));
      }
      expression := Coerce(expression, targetType);
    }
    if !node.isConstant {
      if !compilation.visitorIsAggregate && isAggregate {
        return Failure(NonAggregateInAggregate);
      }
    }
    var columnAlias := aliasedNode.alias;
    var isCaseSensitive := aliasedNode.isCaseSensitive || selectVisitor.isCaseSensitive;
    var name := if columnAlias.None? then node.text else columnAlias.value;
    r := Success(Expansion([ExpressionProjector(name, table.name, expression, isCaseSensitive)], [projectedExpression], [], false));
  }

  /** One pass of the select loop, before the visitor is reset. */
  method CompileItem(selectVisitor: SelectClauseVisitor, table: PTable, aliasedNode: AliasedNode, index: nat,
                     targetColumns: Option<seq<PColumn>>, isAggregate: bool,
                     isComparableTo: (DataType, DataType) -> bool)
    returns (r: Result<Expansion, CompileError>)
    requires selectVisitor.isCaseSensitive && selectVisitor.elementCount == 0
    modifies selectVisitor
    ensures r == ExpandItem(table, aliasedNode, index, targetColumns, isAggregate, isComparableTo)
  {
    match aliasedNode.node {
      case Wildcard =>
        if isAggregate {
          return Failure(NonAggregateInAggregate);
        }
        var projectedExpressions, projectedColumns := ProjectWildcard(table);
        r := Success(Expansion(projectedColumns, projectedExpressions, [], true));
      case FamilyWildcard(familyName) =>
        var found := FindFamily(table.families, familyName);
        if found.None? {
          return Failure(ColumnFamilyNotFound(familyName));
        }
        var pfamily := found.value;
        var projectedExpressions, projectedColumns := ProjectFamily(table, pfamily);
        r := Success(Expansion(projectedColumns, projectedExpressions, [pfamily.name], false));
      case Expression(_, _, _) =>
        r := CompileExpression(selectVisitor, table, aliasedNode, index, targetColumns, isAggregate, isComparableTo);
    }
  }

  /**
   * The select loop of `compile`: every item in order, the visitor reset
   * after each; the first error ends the loop.
   */
  method CompileSelectList(selectVisitor: SelectClauseVisitor, table: PTable, statement: SelectStatement,
                           targetColumns: Option<seq<PColumn>>, isComparableTo: (DataType, DataType) -> bool)
    returns (r: Result<Expansion, CompileError>)
    requires selectVisitor.isCaseSensitive && selectVisitor.elementCount == 0
    modifies selectVisitor
    ensures r == ExpandSelect(table, statement.select, targetColumns, statement.isAggregate, isComparableTo)
  {
    var aliasedNodes := statement.select;
    var isWildcard := false;
    var index := 0;
    var projectedColumns: seq<Projector> := [];
    var projectedExpressions: seq<Expr> := [];
    var projectedFamilies: seq<FamilyName> := [];
    while index < |aliasedNodes|
      invariant 0 <= index <= |aliasedNodes|
      invariant ExpandSelect(table, aliasedNodes[..index], targetColumns, statement.isAggregate, isComparableTo)
             == Success(Expansion(projectedColumns, projectedExpressions, projectedFamilies, isWildcard))
      invariant selectVisitor.isCaseSensitive && selectVisitor.elementCount == 0
    {
      assert aliasedNodes[..index + 1][..index] == aliasedNodes[..index];
      var item := CompileItem(selectVisitor, table, aliasedNodes[index], index, targetColumns, statement.isAggregate, isComparableTo);
      if item.Failure? {
        PrefixFailureIsFinal(table, aliasedNodes, index + 1, targetColumns, statement.isAggregate, isComparableTo);
        return Failure(item.error);
      }
      ghost var acc := Expansion(projectedColumns, projectedExpressions, projectedFamilies, isWildcard);
      assert ExpandSelect(table, aliasedNodes[..index + 1], targetColumns, statement.isAggregate, isComparableTo)
          == Success(Append(acc, item.value));
      projectedColumns := projectedColumns + item.value.projectors;
      projectedExpressions := projectedExpressions + item.value.expressions;
      projectedFamilies := projectedFamilies + item.value.families;
      isWildcard := isWildcard || item.value.isWildcard;
      selectVisitor.Reset();
      index := index + 1;
    }
    assert aliasedNodes[..index] == aliasedNodes;
    r := Success(Expansion(projectedColumns, projectedExpressions, projectedFamilies, isWildcard));
  }

  /**
   * The end of `compile`: with `isProjectEmptyKeyValue`, each recorded family
   * is read whole; otherwise every declared family is.
   */
  method FinalizeFamilies(table: PTable, scan: Scan, projectedFamilies: seq<FamilyName>, isProjectEmptyKeyValue: bool)
    modifies scan
    ensures scan.familyMap == FinalFamilyMap(table, old(scan.familyMap), projectedFamilies, isProjectEmptyKeyValue)
    ensures scan.aggregators == old(scan.aggregators)
  {
    if isProjectEmptyKeyValue {
      var i := 0;
      while i < |projectedFamilies|
        invariant 0 <= i <= |projectedFamilies|
        invariant scan.familyMap == WithWholeFamilies(old(scan.familyMap), projectedFamilies[..i])
        invariant scan.aggregators == old(scan.aggregators)
      {
        assert projectedFamilies[..i + 1][..i] == projectedFamilies[..i];
        ProjectColumnFamily(table, scan, projectedFamilies[i]);
        i := i + 1;
      }
      assert projectedFamilies[..i] == projectedFamilies;
    } else {
      ProjectAllColumnFamilies(table, scan);
    }
  }

  /**
   * `compile(context, statement, groupBy, targetColumns)`: the projectors in
   * select-list order, the row-size estimate over the read-set as the loop
   * left it, and whether an empty key value must be projected; the aggregate
   * plan is attached and the read-set finalised. On an error nothing is
   * changed.
   */
  method Compile(context: StatementContext, statement: SelectStatement, groupBy: GroupBy,
                 targetColumns: Option<seq<PColumn>>, registry: AggregateRegistry,
                 isComparableTo: (DataType, DataType) -> bool, sizes: SizeConstants)
    returns (r: Result<RowProjector, CompileError>)
    requires registry.ComparatorIsTotalPreorder()
    requires ReadSetResolves(context.table, context.scan.familyMap)
    modifies context.scan, context.aggregationManager
    ensures
      match ExpandSelect(context.table, statement.select, targetColumns, statement.isAggregate, isComparableTo)
      case Failure(e) =>
        && r == Failure(e)
        && context.scan.familyMap == old(context.scan.familyMap)
        && context.scan.aggregators == old(context.scan.aggregators)
        && context.aggregationManager.aggregators == old(context.aggregationManager.aggregators)
      case Success(x) =>
        var isProjectEmptyKeyValue := context.table.tableType != View && !x.isWildcard;
        && r == Success(RowProjector(x.projectors, EstimatedByteSize(sizes, context.table, old(context.scan.familyMap)), isProjectEmptyKeyValue))
        && context.scan.familyMap == FinalFamilyMap(context.table, old(context.scan.familyMap), x.families, isProjectEmptyKeyValue)
        && var aggFuncSet := ContainedAggregates(context.expressions, registry.containedAggregates);
           if aggFuncSet == {} && groupBy.IsEmpty() then
             && context.scan.aggregators == old(context.scan.aggregators)
             && context.aggregationManager.aggregators == old(context.aggregationManager.aggregators)
           else
             && context.scan.aggregators.Some?
             && context.aggregationManager.aggregators == context.scan.aggregators
             && IsAggregatePlan(context.scan.aggregators.value, aggFuncSet, registry, groupBy.IsEmpty())
  {
    var selectVisitor := new SelectClauseVisitor(context, groupBy, registry);
    var table := context.table;
    var scan := context.scan;
    var projection := CompileSelectList(selectVisitor, table, statement, targetColumns, isComparableTo);
    if projection.Failure? {
      return Failure(projection.error);
    }
    var estimatedByteSize := EstimateByteSize(table, scan.familyMap, sizes);
    selectVisitor.Compile();
    // Read-only tables have no empty key value, so everything is projected.
    var isProjectEmptyKeyValue := table.tableType != View && !projection.value.isWildcard;
    FinalizeFamilies(table, scan, projection.value.families, isProjectEmptyKeyValue);
    r := Success(RowProjector(projection.value.projectors, estimatedByteSize, isProjectEmptyKeyValue));
  }
}
