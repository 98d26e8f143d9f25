/**
 * The mutable state the projection compiler writes to: the storage scan's
 * read-set and aggregators attribute, and the aggregation manager, reached
 * through the statement context.
 */
module Scans {
  import opened Wrappers
  import opened Schema
  import opened Expressions
  import opened Aggregates

  /**
   * A scan's read-set: per family, None to read the whole family, or the
   * qualifiers to read.
   */
  type FamilyMap = map<FamilyName, Option<set<Qualifier>>>

  /** The part of the storage scan request this compiler touches. */
  class Scan {
    var familyMap: FamilyMap
    /** The AGGREGATORS attribute, as the values serialized into it. */
    var aggregators: Option<AggregatePlan>

    constructor (familyMap: FamilyMap)
      ensures this.familyMap == familyMap && aggregators == None
    {
      this.familyMap := familyMap;
      aggregators := None;
    }

    /** `getFamilyMap().clear()`. */
    method ClearFamilyMap()
      modifies this
      ensures familyMap == map[] && aggregators == old(aggregators)
    {
      familyMap := map[];
    }

    /** `addFamily(family)`: read the whole family, replacing any qualifier set it had. */
    method AddFamily(family: FamilyName)
      modifies this
      ensures familyMap == old(familyMap)[family := None] && aggregators == old(aggregators)
    {
      familyMap := familyMap[family := None];
    }

    /** `setAttribute(AGGREGATORS, ServerAggregators.serialize(functions, minNullableIndex))`. */
    method SetAggregators(plan: AggregatePlan)
      modifies this
      ensures aggregators == Some(plan) && familyMap == old(familyMap)
    {
      aggregators := Some(plan);
    }
  }

  /** Holds the client-side aggregators the execution engine finalises with. */
  class AggregationManager {
    /** The values `new ClientAggregators(functions, minNullableIndex)` was built from. */
    var aggregators: Option<AggregatePlan>

    constructor ()
      ensures aggregators == None
    {
      aggregators := None;
    }

    method SetAggregators(plan: AggregatePlan)
      modifies this
      ensures aggregators == Some(plan)
    {
      aggregators := Some(plan);
    }
  }

  /** What the compiler takes from the statement context. */
  class StatementContext {
    /** The resolver's first (and only) table. */
    const table: PTable
    const scan: Scan
    const aggregationManager: AggregationManager
    /** The expression manager's expressions when the aggregate plan is compiled. */
    const expressions: seq<Expr>

    constructor (table: PTable, scan: Scan, aggregationManager: AggregationManager, expressions: seq<Expr>)
      ensures this.table == table && this.scan == scan
      ensures this.aggregationManager == aggregationManager && this.expressions == expressions
    {
      this.table := table;
      this.scan := scan;
      this.aggregationManager := aggregationManager;
      this.expressions := expressions;
    }
  }
}
