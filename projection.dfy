/**
 * What the select loop of `compile` produces, as functions of the select
 * list: per item its projectors, its projected expressions, the families it
 * asks to read whole and whether it is a full wildcard, or the error it
 * raises; and for the whole list the concatenation in select-list order, or
 * the first item's error.
 */
module Projection {
  import opened Wrappers
  import opened Schema
  import opened Expressions
  import opened SelectClause

  /** The three lists the loop appends to, and the `isWildcard` flag. */
  datatype Expansion = Expansion(
    projectors: seq<Projector>,
    expressions: seq<Expr>,
    families: seq<FamilyName>,
    isWildcard: bool)

  const NoExpansion := Expansion([], [], [], false)

  /** How many columns a full wildcard projects. */
  function WildcardCount(table: PTable): nat {
    if WildcardStart(table) <= |table.columns| then |table.columns| - WildcardStart(table) else 0
  }

  function WildcardProjectors(table: PTable): seq<Projector> {
    var start := WildcardStart(table);
    seq(WildcardCount(table), k requires 0 <= k < WildcardCount(table) =>
      ExpressionProjector(table.columns[start + k].name, table.name, ColumnExpression(start + k), false))
  }

  function WildcardExpressions(table: PTable): seq<Expr> {
    seq(WildcardCount(table), (k: nat) => ColumnExpression(WildcardStart(table) + k))
  }

  function FamilyProjectors(table: PTable, family: PColumnFamily): seq<Projector> {
    seq(|family.columns|, k requires 0 <= k < |family.columns| =>
      ExpressionProjector(family.columns[k].name, table.name, ColumnExpression(family.columns[k].position), false))
  }

  function FamilyExpressions(family: PColumnFamily): seq<Expr> {
    seq(|family.columns|, k requires 0 <= k < |family.columns| => ColumnExpression(family.columns[k].position))
  }

  /** The target type an ordinary item at `index` must be coerced to, if any. */
  function CoercionTarget(targetColumns: Option<seq<PColumn>>, index: nat, dataType: Option<DataType>): Option<PColumn> {
    if targetColumns.Some? && index < |targetColumns.value| && Some(targetColumns.value[index].dataType) != dataType
    then Some(targetColumns.value[index])
    else None
  }

  /** The projector name: the alias if there is one, else the node's text. */
  function ProjectorName(item: AliasedNode, text: string): string {
    item.alias.GetOr(text)
  }

  /** An ordinary expression item. */
  function ExpandExpression(table: PTable, item: AliasedNode, index: nat, targetColumns: Option<seq<PColumn>>,
                            isAggregate: bool, isComparableTo: (DataType, DataType) -> bool): Result<Expansion, CompileError>
    requires item.node.Expression?
  {
    var c := item.node.compilation;
    var expression := Compiled(c.expression);
    var target := CoercionTarget(targetColumns, index, c.dataType);
    if target.Some? && c.dataType.Some? && !isComparableTo(c.dataType.value, target.value.dataType) then
      Failure(ArgumentTypeMismatch(target.value.dataType, c.dataType.value, target.value.name))
    else if !item.node.isConstant && !c.visitorIsAggregate && isAggregate then
      Failure(NonAggregateInAggregate)
    else
      var projected := if target.Some? then Coerce(expression, target.value.dataType) else expression;
      var isCaseSensitive := item.isCaseSensitive || TrackedCaseSensitive(c.events);
      Success(Expansion([ExpressionProjector(ProjectorName(item, item.node.text), table.name, projected, isCaseSensitive)],
                        [expression], [], false))
  }

  /** One select item at position `index` (wildcards count as positions too). */
  function ExpandItem(table: PTable, item: AliasedNode, index: nat, targetColumns: Option<seq<PColumn>>,
                      isAggregate: bool, isComparableTo: (DataType, DataType) -> bool): Result<Expansion, CompileError>
  {
    match item.node
    case Wildcard =>
      if isAggregate then Failure(NonAggregateInAggregate)
      else Success(Expansion(WildcardProjectors(table), WildcardExpressions(table), [], true))
    case FamilyWildcard(name) =>
      (match FindFamily(table.families, name)
       case None => Failure(ColumnFamilyNotFound(name))
       case Some(pfamily) => Success(Expansion(FamilyProjectors(table, pfamily), FamilyExpressions(pfamily), [pfamily.name], false)))
    case Expression(_, _, _) =>
      ExpandExpression(table, item, index, targetColumns, isAggregate, isComparableTo)
  }

  function Append(acc: Expansion, x: Expansion): Expansion {
    Expansion(acc.projectors + x.projectors, acc.expressions + x.expressions, acc.families + x.families,
              acc.isWildcard || x.isWildcard)
  }

  /** The whole select list, item by item; the first failing item's error wins. */
  function ExpandSelect(table: PTable, items: seq<AliasedNode>, targetColumns: Option<seq<PColumn>>,
                        isAggregate: bool, isComparableTo: (DataType, DataType) -> bool): Result<Expansion, CompileError>
    decreases |items|
  {
    if items == [] then Success(NoExpansion)
    else
      var n := |items| - 1;
      match ExpandSelect(table, items[..n], targetColumns, isAggregate, isComparableTo)
      case Failure(e) => Failure(e)
      case Success(acc) =>
        match ExpandItem(table, items[n], n, targetColumns, isAggregate, isComparableTo)
        case Failure(e) => Failure(e)
        case Success(x) => Success(Append(acc, x))
  }

  /** A failure of a prefix is the failure of the whole list. */
  lemma {:induction false} PrefixFailureIsFinal(table: PTable, items: seq<AliasedNode>, k: nat, targetColumns: Option<seq<PColumn>>,
                                                isAggregate: bool, isComparableTo: (DataType, DataType) -> bool)
    requires k <= |items|
    requires ExpandSelect(table, items[..k], targetColumns, isAggregate, isComparableTo).Failure?
    ensures ExpandSelect(table, items, targetColumns, isAggregate, isComparableTo)
         == ExpandSelect(table, items[..k], targetColumns, isAggregate, isComparableTo)
    decreases |items| - k
  {
    if k < |items| {
      assert items[..k + 1][..k] == items[..k];
      PrefixFailureIsFinal(table, items, k + 1, targetColumns, isAggregate, isComparableTo);
    } else {
      assert items[..k] == items;
    }
  }

  /** The list compiles exactly when every item does, each at its own position. */
  lemma {:induction false} ExpandSelectSucceedsIff(table: PTable, items: seq<AliasedNode>, targetColumns: Option<seq<PColumn>>,
                                                   isAggregate: bool, isComparableTo: (DataType, DataType) -> bool)
    ensures ExpandSelect(table, items, targetColumns, isAggregate, isComparableTo).Success?
        <==> forall i :: 0 <= i < |items| ==> ExpandItem(table, items[i], i, targetColumns, isAggregate, isComparableTo).Success?
    decreases |items|
  {
    if items != [] {
      var n := |items| - 1;
      ExpandSelectSucceedsIff(table, items[..n], targetColumns, isAggregate, isComparableTo);
      assert forall i :: 0 <= i < n ==> items[..n][i] == items[i];
    }
  }

  /** A full wildcard in an aggregate statement makes the statement fail, and nothing is projected. */
  lemma WildcardInAggregateFails(table: PTable, items: seq<AliasedNode>, i: nat, targetColumns: Option<seq<PColumn>>,
                                 isComparableTo: (DataType, DataType) -> bool)
    requires i < |items| && items[i].node.Wildcard?
    ensures ExpandSelect(table, items, targetColumns, true, isComparableTo).Failure?
  {
    ExpandSelectSucceedsIff(table, items, targetColumns, true, isComparableTo);
  }

  /**
   * A non-constant expression the visitor did not find aggregate, in an
   * aggregate statement, makes the statement fail.
   */
  lemma NonAggregateInAggregateFails(table: PTable, items: seq<AliasedNode>, i: nat, targetColumns: Option<seq<PColumn>>,
                                     isComparableTo: (DataType, DataType) -> bool)
    requires i < |items| && items[i].node.Expression?
    requires !items[i].node.isConstant && !items[i].node.compilation.visitorIsAggregate
    ensures ExpandSelect(table, items, targetColumns, true, isComparableTo).Failure?
  {
    ExpandSelectSucceedsIff(table, items, targetColumns, true, isComparableTo);
  }

  /** An expression whose known type is not comparable to its different target type makes the statement fail. */
  lemma IncomparableTargetFails(table: PTable, items: seq<AliasedNode>, i: nat, targetColumns: Option<seq<PColumn>>,
                                isAggregate: bool, isComparableTo: (DataType, DataType) -> bool)
    requires i < |items| && items[i].node.Expression?
    requires targetColumns.Some? && i < |targetColumns.value|
    requires items[i].node.compilation.dataType.Some?
    requires items[i].node.compilation.dataType.value != targetColumns.value[i].dataType
    requires !isComparableTo(items[i].node.compilation.dataType.value, targetColumns.value[i].dataType)
    ensures ExpandSelect(table, items, targetColumns, isAggregate, isComparableTo).Failure?
  {
    ExpandSelectSucceedsIff(table, items, targetColumns, isAggregate, isComparableTo);
  }

  /** One compiled item sets `isWildcard` exactly when it is `*`, and records a family exactly when it is `cf.*`. */
  lemma ExpandItemFlags(table: PTable, item: AliasedNode, index: nat, targetColumns: Option<seq<PColumn>>,
                        isAggregate: bool, isComparableTo: (DataType, DataType) -> bool)
    requires ExpandItem(table, item, index, targetColumns, isAggregate, isComparableTo).Success?
    ensures var x := ExpandItem(table, item, index, targetColumns, isAggregate, isComparableTo).value;
      && (x.isWildcard <==> item.node.Wildcard?)
      && x.families == (if item.node.FamilyWildcard? then [item.node.familyName] else [])
  {
  }

  /** On success, `isWildcard` says whether the list has a full wildcard. */
  lemma {:induction false} ExpandSelectWildcard(table: PTable, items: seq<AliasedNode>, targetColumns: Option<seq<PColumn>>,
                                                isAggregate: bool, isComparableTo: (DataType, DataType) -> bool)
    requires ExpandSelect(table, items, targetColumns, isAggregate, isComparableTo).Success?
    ensures ExpandSelect(table, items, targetColumns, isAggregate, isComparableTo).value.isWildcard
        <==> exists i :: 0 <= i < |items| && items[i].node.Wildcard?
    decreases |items|
  {
    if items != [] {
      var n := |items| - 1;
      ExpandSelectWildcard(table, items[..n], targetColumns, isAggregate, isComparableTo);
      ExpandItemFlags(table, items[n], n, targetColumns, isAggregate, isComparableTo);
      var acc := ExpandSelect(table, items[..n], targetColumns, isAggregate, isComparableTo).value;
      var last := ExpandItem(table, items[n], n, targetColumns, isAggregate, isComparableTo).value;
      assert ExpandSelect(table, items, targetColumns, isAggregate, isComparableTo).value == Append(acc, last);
      if acc.isWildcard {
        var i :| 0 <= i < n && items[..n][i].node.Wildcard?;
        assert items[i] == items[..n][i];
      }
      if exists i :: 0 <= i < |items| && items[i].node.Wildcard? {
        var i :| 0 <= i < |items| && items[i].node.Wildcard?;
        if i < n { assert items[..n][i] == items[i]; }
      }
    }
  }

  /** On success, the recorded families are exactly the families of the `cf.*` items. */
  lemma {:induction false} ExpandSelectFamilies(table: PTable, items: seq<AliasedNode>, targetColumns: Option<seq<PColumn>>,
                                                isAggregate: bool, isComparableTo: (DataType, DataType) -> bool)
    requires ExpandSelect(table, items, targetColumns, isAggregate, isComparableTo).Success?
    ensures forall f :: (f in ExpandSelect(table, items, targetColumns, isAggregate, isComparableTo).value.families
                         <==> exists i :: 0 <= i < |items| && items[i].node == FamilyWildcard(f))
    decreases |items|
  {
    if items != [] {
      var n := |items| - 1;
      ExpandSelectFamilies(table, items[..n], targetColumns, isAggregate, isComparableTo);
      ExpandItemFlags(table, items[n], n, targetColumns, isAggregate, isComparableTo);
      var acc := ExpandSelect(table, items[..n], targetColumns, isAggregate, isComparableTo).value;
      var last := ExpandItem(table, items[n], n, targetColumns, isAggregate, isComparableTo).value;
      var x := ExpandSelect(table, items, targetColumns, isAggregate, isComparableTo).value;
      assert x == Append(acc, last);
      forall f ensures f in x.families <==> exists i :: 0 <= i < |items| && items[i].node == FamilyWildcard(f) {
        if f in acc.families {
          var i :| 0 <= i < n && items[..n][i].node == FamilyWildcard(f);
          assert items[i] == items[..n][i];
        }
        if exists i :: 0 <= i < |items| && items[i].node == FamilyWildcard(f) {
          var i :| 0 <= i < |items| && items[i].node == FamilyWildcard(f);
          if i < n { assert items[..n][i] == items[i]; }
        }
      }
    }
  }

  /** The select list has no full or family wildcard. */
  ghost predicate NoWildcards(items: seq<AliasedNode>) {
    forall i :: 0 <= i < |items| ==> items[i].node.Expression?
  }

  /**
   * What an ordinary item at `index` contributes when it compiles: a projector
   * named by its alias (else its text), over the table, case-sensitive when
   * the alias is or the tracker says so, coerced exactly when the target
   * column at `index` has another type; the projected expression is the
   * uncoerced one.
   */
  ghost predicate ProjectedInOrder(table: PTable, item: AliasedNode, index: nat, targetColumns: Option<seq<PColumn>>,
                                   projector: Projector, expression: Expr)
    requires item.node.Expression?
  {
    var c := item.node.compilation;
    var target := CoercionTarget(targetColumns, index, c.dataType);
    && projector.name == (if item.alias.Some? then item.alias.value else item.node.text)
    && projector.tableName == table.name
    && projector.isCaseSensitive == (item.isCaseSensitive || TrackedCaseSensitive(c.events))
    && projector.expression == (if target.Some? then Coerce(Compiled(c.expression), target.value.dataType) else Compiled(c.expression))
    && expression == Compiled(c.expression)
  }

  /** A compiled ordinary item contributes one projector and one expression, as `ProjectedInOrder` says. */
  lemma ExpandExpressionInOrder(table: PTable, item: AliasedNode, index: nat, targetColumns: Option<seq<PColumn>>,
                                isAggregate: bool, isComparableTo: (DataType, DataType) -> bool)
    requires item.node.Expression?
    requires ExpandExpression(table, item, index, targetColumns, isAggregate, isComparableTo).Success?
    ensures var x := ExpandExpression(table, item, index, targetColumns, isAggregate, isComparableTo).value;
      && |x.projectors| == 1 && |x.expressions| == 1 && x.families == [] && !x.isWildcard
      && ProjectedInOrder(table, item, index, targetColumns, x.projectors[0], x.expressions[0])
  {
  }

  /** Without wildcards, projector `i` and expression `i` come from select item `i`. */
  lemma {:induction false} ExpandSelectInOrder(table: PTable, items: seq<AliasedNode>, targetColumns: Option<seq<PColumn>>,
                                               isAggregate: bool, isComparableTo: (DataType, DataType) -> bool)
    requires NoWildcards(items)
    requires ExpandSelect(table, items, targetColumns, isAggregate, isComparableTo).Success?
    ensures var x := ExpandSelect(table, items, targetColumns, isAggregate, isComparableTo).value;
      && |x.projectors| == |items| && |x.expressions| == |items| && x.families == [] && !x.isWildcard
      && forall i :: 0 <= i < |items| ==> ProjectedInOrder(table, items[i], i, targetColumns, x.projectors[i], x.expressions[i])
    decreases |items|
  {
    if items != [] {
      var n := |items| - 1;
      assert NoWildcards(items[..n]) by {
        forall i | 0 <= i < n ensures items[..n][i].node.Expression? { assert items[..n][i] == items[i]; }
      }
      ExpandSelectInOrder(table, items[..n], targetColumns, isAggregate, isComparableTo);
      var acc := ExpandSelect(table, items[..n], targetColumns, isAggregate, isComparableTo).value;
      var last := ExpandItem(table, items[n], n, targetColumns, isAggregate, isComparableTo).value;
      var x := ExpandSelect(table, items, targetColumns, isAggregate, isComparableTo).value;
      assert x == Append(acc, last);
      ExpandExpressionInOrder(table, items[n], n, targetColumns, isAggregate, isComparableTo);
      forall i | 0 <= i < |items| ensures ProjectedInOrder(table, items[i], i, targetColumns, x.projectors[i], x.expressions[i]) {
        if i < n {
          assert items[..n][i] == items[i];
          assert x.projectors[i] == acc.projectors[i] && x.expressions[i] == acc.expressions[i];
        } else {
          assert x.projectors[i] == last.projectors[0] && x.expressions[i] == last.expressions[0];
        }
      }
    }
  }
}
