/**
 * The select-clause visitor: the per-item case-sensitivity tracker that the
 * expression compiler's callbacks drive, and the compilation of the
 * aggregate plan once every item has been compiled.
 */
module SelectClause {
  import opened Wrappers
  import opened Expressions
  import opened Aggregates
  import opened Scans

  /** The tracker's two fields. */
  datatype TrackerState = TrackerState(isCaseSensitive: bool, elementCount: nat)

  /** The state `reset()` leaves. */
  const ResetState := TrackerState(true, 0)

  /** The effect of one callback on the tracker. */
  function Step(s: TrackerState, e: VisitorEvent): TrackerState {
    match e
    case ResolveColumn(cs) => s.(isCaseSensitive := s.isCaseSensitive && cs)
    case AddElement =>
      var count := s.elementCount + 1;
      TrackerState(s.isCaseSensitive && count == 1, count)
  }

  /** The tracker's state after the callbacks `es`, in order, starting from `s`. */
  function Replay(s: TrackerState, es: seq<VisitorEvent>): TrackerState
    decreases |es|
  {
    if es == [] then s else Step(Replay(s, es[..|es| - 1]), es[|es| - 1])
  }

  /** The number of `addElement` callbacks. */
  function ElementCount(es: seq<VisitorEvent>): nat
    decreases |es|
  {
    if es == [] then 0
    else ElementCount(es[..|es| - 1]) + (if es[|es| - 1].AddElement? then 1 else 0)
  }

  /** Every resolved column reference was written case-sensitively. */
  ghost predicate AllResolvedCaseSensitive(es: seq<VisitorEvent>) {
    forall i :: 0 <= i < |es| && es[i].ResolveColumn? ==> es[i].nodeIsCaseSensitive
  }

  /** The flag the tracker reports for one item whose compilation made the callbacks `es`. */
  function TrackedCaseSensitive(es: seq<VisitorEvent>): bool {
    Replay(ResetState, es).isCaseSensitive
  }

  /**
   * The tracker in closed form: the count goes up by the number of elements,
   * and the flag survives only if every resolved column was case-sensitive
   * and no element was added after the first one.
   */
  lemma {:induction false} ReplayClosedForm(s: TrackerState, es: seq<VisitorEvent>)
    ensures Replay(s, es) == TrackerState(
      s.isCaseSensitive && AllResolvedCaseSensitive(es)
        && (ElementCount(es) == 0 || s.elementCount + ElementCount(es) <= 1),
      s.elementCount + ElementCount(es))
    decreases |es|
  {
    if es != [] {
      var n := |es| - 1;
      ReplayClosedForm(s, es[..n]);
      assert forall i :: 0 <= i < n ==> es[..n][i] == es[i];
      if es[n].ResolveColumn? && !es[n].nodeIsCaseSensitive {
        assert !AllResolvedCaseSensitive(es);
      }
      if !AllResolvedCaseSensitive(es[..n]) {
        var i :| 0 <= i < n && es[..n][i].ResolveColumn? && !es[..n][i].nodeIsCaseSensitive;
        assert es[i] == es[..n][i];
      }
    }
  }

  /**
   * After `reset()`, an item is tracked as case-sensitive exactly when all its
   * column references were case-sensitive and it added at most one element.
   */
  lemma TrackedCaseSensitiveIff(es: seq<VisitorEvent>)
    ensures TrackedCaseSensitive(es) <==> AllResolvedCaseSensitive(es) && ElementCount(es) <= 1
    ensures Replay(ResetState, es).elementCount == ElementCount(es)
  {
    ReplayClosedForm(ResetState, es);
  }

  class SelectClauseVisitor {
    const context: StatementContext
    const groupBy: GroupBy
    const registry: AggregateRegistry
    /** Whether the projection expression is case-sensitive so far. */
    var isCaseSensitive: bool
    var elementCount: nat

    ghost function State(): TrackerState
      reads this
    {
      TrackerState(isCaseSensitive, elementCount)
    }

    constructor (context: StatementContext, groupBy: GroupBy, registry: AggregateRegistry)
      ensures this.context == context && this.groupBy == groupBy && this.registry == registry
      ensures isCaseSensitive && elementCount == 0
    {
      this.context := context;
      this.groupBy := groupBy;
      this.registry := registry;
      new;
      Reset();
    }

    /** `reset()`: start tracking a new item. */
    method Reset()
      modifies this
      ensures isCaseSensitive && elementCount == 0
    {
      elementCount := 0;
      isCaseSensitive := true;
    }

    /** `resolveColumn(node)`: one column reference, case-sensitive or not. */
    method ResolveColumn(nodeIsCaseSensitive: bool)
      modifies this
      ensures isCaseSensitive == (old(isCaseSensitive) && nodeIsCaseSensitive)
      ensures elementCount == old(elementCount)
      ensures State() == Step(old(State()), VisitorEvent.ResolveColumn(nodeIsCaseSensitive))
    {
      isCaseSensitive := isCaseSensitive && nodeIsCaseSensitive;
    }

    /** `addElement(l, element)`: a second element makes the item not case-sensitive. */
    method AddElement()
      modifies this
      ensures elementCount == old(elementCount) + 1
      ensures isCaseSensitive == (old(isCaseSensitive) && elementCount == 1)
      ensures State() == Step(old(State()), VisitorEvent.AddElement)
    {
      elementCount := elementCount + 1;
      isCaseSensitive := isCaseSensitive && elementCount == 1;
    }

    /**
     * `getMinNullableIndex`: the position of the first function whose
     * nullability (the aggregator's when ungrouped, the aggregated
     * expression's when grouped) holds, or the length when there is none.
     */
    static method GetMinNullableIndex(aggFuncs: seq<AggFunc>, isUngroupedAggregation: bool, registry: AggregateRegistry)
      returns (minNullableIndex: int)
      ensures 0 <= minNullableIndex <= |aggFuncs|
      ensures forall j :: 0 <= j < minNullableIndex ==> !Nullable(registry, isUngroupedAggregation, aggFuncs[j])
      ensures minNullableIndex < |aggFuncs| ==> Nullable(registry, isUngroupedAggregation, aggFuncs[minNullableIndex])
      ensures minNullableIndex == |aggFuncs| <==> forall j :: 0 <= j < |aggFuncs| ==> !Nullable(registry, isUngroupedAggregation, aggFuncs[j])
    {
      minNullableIndex := |aggFuncs|;
      var i := 0;
      while i < |aggFuncs|
        invariant 0 <= i <= |aggFuncs|
        invariant minNullableIndex == |aggFuncs|
        invariant forall j :: 0 <= j < i ==> !Nullable(registry, isUngroupedAggregation, aggFuncs[j])
      {
        var aggFunc := aggFuncs[i];
        if (if isUngroupedAggregation then registry.aggregatorIsNullable(aggFunc) else registry.aggregatedExpressionIsNullable(aggFunc)) {
          minNullableIndex := i;
          break;
        }
        i := i + 1;
      }
    }

    /**
     * `compile()`: collect the distinct aggregate functions of every
     * expression; with none and no GROUP BY there is nothing to aggregate.
     * Otherwise sort them, find the first nullable position, and give the
     * same list and position to the scan and to the aggregation manager.
     */
    method Compile()
      requires registry.ComparatorIsTotalPreorder()
      modifies context.scan, context.aggregationManager
      ensures context.scan.familyMap == old(context.scan.familyMap)
      ensures
        var aggFuncSet := ContainedAggregates(context.expressions, registry.containedAggregates);
        if aggFuncSet == {} && groupBy.IsEmpty() then
          && context.scan.aggregators == old(context.scan.aggregators)
          && context.aggregationManager.aggregators == old(context.aggregationManager.aggregators)
        else
          && context.scan.aggregators.Some?
          && context.aggregationManager.aggregators == context.scan.aggregators
          && IsAggregatePlan(context.scan.aggregators.value, aggFuncSet, registry, groupBy.IsEmpty())
    {
      var aggFuncSet := CollectAggregateFunctions(context.expressions, registry.containedAggregates);
      if aggFuncSet == {} && groupBy.IsEmpty() {
        return;
      }
      var unsorted := ToList(aggFuncSet);
      var aggFuncs := SortBy(unsorted, registry.schemaLeq);
      PermutationKeepsElements(unsorted, aggFuncs);
      SortByIsSorted(unsorted, registry);
      var minNullableIndex := GetMinNullableIndex(aggFuncs, groupBy.IsEmpty(), registry);
      var plan := AggregatePlan(aggFuncs, minNullableIndex);
      context.scan.SetAggregators(plan);
      context.aggregationManager.SetAggregators(plan);
    }
  }
}
