# Projection compiler model

A Dafny model of Phoenix's `ProjectionCompiler`, which compiles the SELECT
list of a query against an HBase table. It walks the select items once:
- a full wildcard `*` expands to one column projector per table column,
  skipping the salt column of a bucketed table;
- a family wildcard `cf.*` expands to the columns of that family and records
  the family;
- any other item is compiled by the expression compiler, optionally coerced
  to an UPSERT SELECT target type, checked against the statement's
  aggregate-ness, and named by its alias or its text.

It then estimates the row's byte size from the scan's family map. It
compiles the aggregate plan: the distinct aggregate functions in schema
comparator order, with the position of the first nullable one. The same
plan goes to the scan's server-side aggregators attribute and to the
client-side aggregators. Last, it decides which column families the scan
reads. It returns the projectors, the estimate, and whether the
empty key value must be projected.

Modules, leaves first:
- `Wrappers`: Option and Result.
- `Schema`: the table, its columns and families, and lookups by name.
- `Expressions`: the select items and what the expression compiler reports
  about them, the compiled expressions, the aggregate registry and the errors.
- `Aggregates`: collecting, listing and sorting aggregate functions; the plan.
- `Scans`: the `Scan`, `AggregationManager` and `StatementContext` classes.
- `SelectClause`: the `SelectClauseVisitor` class (case-sensitivity tracker,
  `getMinNullableIndex`, aggregate plan compilation) and its tracker
  specification.
- `ByteSize`: the byte-size estimate and its properties.
- `ReadSet`: finalising the scan's family map.
- `Projection`: the select loop's result, stated as functions of the select
  list, with the lemmas about it.
- `ProjectionCompiler`: the imperative `compile`, `buildAliasMap`,
  `projectAllColumnFamilies` and `projectColumnFamily`.

Outside collaborators are inputs:
- `DataType`, `CompiledExpression` and `AggFunc` are abstract types.
- `isComparableTo`, the schema comparator, the two nullability questions and
  the "aggregate functions contained in an expression" walk are
  function-valued parameters.
- The constants `KEY_VALUE_SIZE` and `ESTIMATED_VARIABLE_LENGTH_SIZE` are
  defined outside this file. They are parameters (`SizeConstants`).
- An ordinary item's compilation is carried in its parse node (`Compilation`):
  the compiled expression, its data type, `isAggregate()` afterwards, and the
  `resolveColumn`/`addElement` callbacks the compiler made, in order.
- The scan's family map at entry stands for what the expression compiler
  registered while resolving columns.
- The expression manager's expressions (`StatementContext.expressions`), from
  which the aggregate plan is collected, are likewise an input: the model does
  not tie them to the aggregates of the select items, since the expression
  compiler that fills the manager is outside this model.

Two behaviours of the code worth noting:
- The projector's case-sensitivity is the alias flag OR the tracker flag
  (ProjectionCompiler.java line 165).
- The byte-size estimate is taken over the family map as the select loop left
  it (lines 173-189), before finalisation (lines 191-207). So families that
  finalisation adds are not counted.
- A non-constant expression in an aggregate statement is rejected exactly
  when `selectVisitor.isAggregate()` is false after compiling it (lines
  159-161). That flag is an input here (`Compilation.visitorIsAggregate`):
  whether, say, a GROUP BY key counts as aggregate is decided by the
  expression compiler, outside this model.

The three-argument `compile` (lines 87-89) is `Compile` with `targetColumns`
set to `None`.

## Model

| member | source | states |
|---|---|---|
| `Schema.FindFamily` | src/main/java/com/salesforce/phoenix/compile/ProjectionCompiler.java:129 | `getColumnFamily` by name: a found family is declared and has that name; None exactly when no declared family has the name |
| `Schema.FindColumn` | src/main/java/com/salesforce/phoenix/compile/ProjectionCompiler.java:184 | `getColumn` by qualifier: a found column belongs to the family and has that name; None exactly when none has it |
| `Aggregates.ContainedAggregates` | src/main/java/com/salesforce/phoenix/compile/ProjectionCompiler.java:245-257 | a function is collected exactly when some expression of the expression manager contains it |
| `Aggregates.CollectAggregateFunctions` | src/main/java/com/salesforce/phoenix/compile/ProjectionCompiler.java:245-257 | the collecting loop yields exactly the set `ContainedAggregates` characterises |
| `Aggregates.ToList` | src/main/java/com/salesforce/phoenix/compile/ProjectionCompiler.java:261 | copying the set into a list gives each element exactly once and nothing else |
| `Aggregates.InsertSorted` | src/main/java/com/salesforce/phoenix/compile/ProjectionCompiler.java:262 | one insertion step of the sort adds exactly the inserted element |
| `Aggregates.SortBy` | src/main/java/com/salesforce/phoenix/compile/ProjectionCompiler.java:262 | the sorted list is a permutation of the input |
| `Aggregates.InsertSortedKeepsOrder` | src/main/java/com/salesforce/phoenix/compile/ProjectionCompiler.java:262 | inserting into a sorted list keeps it sorted under a total preorder |
| `Aggregates.SortByIsSorted` | src/main/java/com/salesforce/phoenix/compile/ProjectionCompiler.java:262 | under a comparator meeting its contract, the sorted list is in comparator order |
| `Aggregates.PermutationKeepsElements` | src/main/java/com/salesforce/phoenix/compile/ProjectionCompiler.java:261-262 | sorting the distinct list keeps it distinct, of the same length and with the same elements |
| `Aggregates.MinNullableIndexUnique` | src/main/java/com/salesforce/phoenix/compile/ProjectionCompiler.java:212-222 | the first-nullable position of a list is unique |
| `Aggregates.SortedDistinctUnique` | src/main/java/com/salesforce/phoenix/compile/ProjectionCompiler.java:261-262 | two distinct sorted lists of the same functions are equal when the comparator is antisymmetric |
| `Aggregates.AggregatePlanUnique` | src/main/java/com/salesforce/phoenix/compile/ProjectionCompiler.java:258-267 | under a total order the plan for a set does not depend on the hash set's iteration order |
| `Aggregates.SingleAggregatePlan` | src/main/java/com/salesforce/phoenix/compile/ProjectionCompiler.java:212-222 | with one distinct function the plan is that function alone, with index 0 if it is nullable and 1 if not |
| `Scans.Scan.ClearFamilyMap` | src/main/java/com/salesforce/phoenix/compile/ProjectionCompiler.java:64 | the family map becomes empty; the attribute is kept |
| `Scans.Scan.AddFamily` | src/main/java/com/salesforce/phoenix/compile/ProjectionCompiler.java:66-67 | the family's entry becomes a whole-family read and overwrites any qualifier set; other entries are kept |
| `Scans.Scan.SetAggregators` | src/main/java/com/salesforce/phoenix/compile/ProjectionCompiler.java:265 | the aggregators attribute holds the given list and index; the family map is kept |
| `Scans.AggregationManager.SetAggregators` | src/main/java/com/salesforce/phoenix/compile/ProjectionCompiler.java:266-267 | the client aggregators are built from the given list and index |
| `SelectClause.ReplayClosedForm` | src/main/java/com/salesforce/phoenix/compile/ProjectionCompiler.java:270-289 | from any state, the callbacks add the number of elements to the count, and the flag survives only if every resolved column is case-sensitive and no element goes past the first |
| `SelectClause.TrackedCaseSensitiveIff` | src/main/java/com/salesforce/phoenix/compile/ProjectionCompiler.java:270-289 | after a reset, the tracker flag is true exactly when all column references were case-sensitive and at most one element was added |
| `SelectClause.SelectClauseVisitor.constructor` | src/main/java/com/salesforce/phoenix/compile/ProjectionCompiler.java:231-234 | a new visitor starts in the reset state |
| `SelectClause.SelectClauseVisitor.Reset` | src/main/java/com/salesforce/phoenix/compile/ProjectionCompiler.java:271-275 | the flag becomes true and the count 0 |
| `SelectClause.SelectClauseVisitor.ResolveColumn` | src/main/java/com/salesforce/phoenix/compile/ProjectionCompiler.java:278-282 | the flag is ANDed with the node's case-sensitivity; the count is kept |
| `SelectClause.SelectClauseVisitor.AddElement` | src/main/java/com/salesforce/phoenix/compile/ProjectionCompiler.java:285-289 | the count goes up by one and the flag is forced false from the second element on |
| `SelectClause.SelectClauseVisitor.GetMinNullableIndex` | src/main/java/com/salesforce/phoenix/compile/ProjectionCompiler.java:212-222 | the result k has 0 <= k <= length; no function before k is nullable; the one at k is when k < length; k is the length exactly when none is nullable. Nullability is the aggregator's when ungrouped and the aggregated expression's when grouped |
| `SelectClause.SelectClauseVisitor.Compile` | src/main/java/com/salesforce/phoenix/compile/ProjectionCompiler.java:244-268 | with no aggregate function and no GROUP BY, nothing is attached. Otherwise the scan and the aggregation manager get the same plan: the distinct collected functions in comparator order, with their first-nullable index. The family map is untouched |
| `ByteSize.WholeFamilySize` | src/main/java/com/salesforce/phoenix/compile/ProjectionCompiler.java:177-181 | a whole-family entry adds one term per column of the family |
| `ByteSize.QualifiersSize` | src/main/java/com/salesforce/phoenix/compile/ProjectionCompiler.java:182-187 | a qualifier-set entry adds one term per listed qualifier's column |
| `ByteSize.EstimateByteSize` | src/main/java/com/salesforce/phoenix/compile/ProjectionCompiler.java:173-189 | the loop's total is the sum of every entry's size, in any iteration order |
| `ByteSize.SumOverSetRemove` | src/main/java/com/salesforce/phoenix/compile/ProjectionCompiler.java:175 | a sum over a set does not depend on which element is taken first |
| `ByteSize.EntrySizeNonNegative` | src/main/java/com/salesforce/phoenix/compile/ProjectionCompiler.java:177-188 | with non-negative constants and byte sizes, an entry's size is non-negative |
| `ByteSize.EstimatedByteSizeNonNegative` | src/main/java/com/salesforce/phoenix/compile/ProjectionCompiler.java:173-189 | with non-negative constants and byte sizes, the estimate is non-negative |
| `ByteSize.EstimatedByteSizeAddEntry` | src/main/java/com/salesforce/phoenix/compile/ProjectionCompiler.java:175-189 | adding an entry for a new family adds exactly that entry's size |
| `ByteSize.EstimatedByteSizeMonotone` | src/main/java/com/salesforce/phoenix/compile/ProjectionCompiler.java:175-189 | with non-negative sizes, adding an entry never decreases the estimate |
| `ByteSize.EntrySizePositive` | src/main/java/com/salesforce/phoenix/compile/ProjectionCompiler.java:177-188 | with a positive key-value overhead, a whole-family entry of a family with columns, or an entry listing at least one qualifier, adds a positive amount |
| `ByteSize.EstimatedByteSizePositive` | src/main/java/com/salesforce/phoenix/compile/ProjectionCompiler.java:175-189 | with a positive key-value overhead, an entry that counts a column makes the estimate positive |
| `ReadSet.WithWholeFamilies` | src/main/java/com/salesforce/phoenix/compile/ProjectionCompiler.java:195-198 | each recorded family gets a whole-family entry; every other entry is unchanged; no other key appears |
| `ReadSet.FinalFamilyMapCases` | src/main/java/com/salesforce/phoenix/compile/ProjectionCompiler.java:194-207 | when the flag is true, recorded families become whole and other entries are kept; when false, the map is exactly the declared families, each whole |
| `Projection.PrefixFailureIsFinal` | src/main/java/com/salesforce/phoenix/compile/ProjectionCompiler.java:114-171 | an error raised by an item ends the whole compilation with that error |
| `Projection.ExpandSelectSucceedsIff` | src/main/java/com/salesforce/phoenix/compile/ProjectionCompiler.java:114-171 | the list compiles exactly when every item compiles at its own position, wildcards included in the count |
| `Projection.WildcardInAggregateFails` | src/main/java/com/salesforce/phoenix/compile/ProjectionCompiler.java:116-119 | a full wildcard in an aggregate statement is an error |
| `Projection.NonAggregateInAggregateFails` | src/main/java/com/salesforce/phoenix/compile/ProjectionCompiler.java:159-163 | a non-constant expression that is not aggregate, in an aggregate statement, is an error |
| `Projection.IncomparableTargetFails` | src/main/java/com/salesforce/phoenix/compile/ProjectionCompiler.java:146-153 | a known type that differs from the target column's type and is not comparable to it is an error |
| `Projection.ExpandSelectWildcard` | src/main/java/com/salesforce/phoenix/compile/ProjectionCompiler.java:120-126 | on success, `isWildcard` holds exactly when some item is `*` |
| `Projection.ExpandSelectFamilies` | src/main/java/com/salesforce/phoenix/compile/ProjectionCompiler.java:128-136 | on success, a family is recorded exactly when some item is that family's `cf.*` |
| `Projection.ExpandExpressionInOrder` | src/main/java/com/salesforce/phoenix/compile/ProjectionCompiler.java:144-167 | a compiled ordinary item yields exactly one projector and one expression, named, flagged and coerced as that item dictates, with no family and no wildcard |
| `Projection.ExpandSelectInOrder` | src/main/java/com/salesforce/phoenix/compile/ProjectionCompiler.java:144-167 | without wildcards, projector i belongs to item i. It is named by the alias, else the text, and is case-sensitive when the alias is or the tracker says so. It is coerced exactly when a target of a different type exists at i. The recorded expression is the uncoerced one |
| `ProjectionCompiler.ProjectAllColumnFamilies` | src/main/java/com/salesforce/phoenix/compile/ProjectionCompiler.java:62-68 | the family map becomes exactly the declared families, each whole |
| `ProjectionCompiler.ProjectColumnFamily` | src/main/java/com/salesforce/phoenix/compile/ProjectionCompiler.java:70-73 | the named family gets a whole-family entry; other entries are kept |
| `ProjectionCompiler.BuildAliasMap` | src/main/java/com/salesforce/phoenix/compile/ProjectionCompiler.java:75-85 | the keys are exactly the aliases used; each maps to the node of the last item carrying it |
| `ProjectionCompiler.ProjectWildcard` | src/main/java/com/salesforce/phoenix/compile/ProjectionCompiler.java:121-126 | one projector per column at positions start..columns-1, in order (start is 1 for a bucketed table, else 0). Each is named by its column, evaluates that column and is not case-sensitive |
| `ProjectionCompiler.ProjectFamily` | src/main/java/com/salesforce/phoenix/compile/ProjectionCompiler.java:137-142 | one projector per column of the family, in the family's order, each named by its column and not case-sensitive |
| `ProjectionCompiler.Accept` | src/main/java/com/salesforce/phoenix/compile/ProjectionCompiler.java:144 | the visitor ends in the state the item's callbacks lead to from reset |
| `ProjectionCompiler.CompileExpression` | src/main/java/com/salesforce/phoenix/compile/ProjectionCompiler.java:144-167 | the ordinary-item branch raises the type and aggregate errors in the code's order, or yields the projector `ExpandExpression` describes |
| `ProjectionCompiler.CompileItem` | src/main/java/com/salesforce/phoenix/compile/ProjectionCompiler.java:114-168 | one select item's branch agrees with `ExpandItem` |
| `ProjectionCompiler.CompileSelectList` | src/main/java/com/salesforce/phoenix/compile/ProjectionCompiler.java:102-171 | the select loop yields the three lists and the wildcard flag `ExpandSelect` describes, or its first error |
| `ProjectionCompiler.FinalizeFamilies` | src/main/java/com/salesforce/phoenix/compile/ProjectionCompiler.java:191-207 | the family map becomes `FinalFamilyMap` of the map the loop left; the attribute is kept |
| `ProjectionCompiler.Compile` | src/main/java/com/salesforce/phoenix/compile/ProjectionCompiler.java:101-209 | on an error, nothing changes. Otherwise it returns the projectors in select-list order and the estimate over the family map as it was. The flag holds exactly when the table is not a VIEW and no `*` was seen. The plan is attached as `SelectClauseVisitor.Compile` states, and the family map is finalised by that flag |

## Left out

- The expression compiler's internals: `node.accept`, `super.resolveColumn`, `super.reset` and `super.addElement`. Their effect on the visitor is the recorded callbacks. The columns they register in the scan are the family map at entry.
- The bind manager's `addParamMetaData` for bind parameters (lines 156-158): a side channel into code that is not part of this model.
- The byte format of `ServerAggregators.serialize` and the construction of `ClientAggregators`: the model records the list and index each is given.
- The internals of `SCHEMA_COMPARATOR`, `isComparableTo`, `CoerceExpression.create` and `SingleAggregateFunctionVisitor`. They are a relation, a predicate, a wrapper constructor and a function from expression to set.
- Exception message texts; errors are `CompileError` values.
- `ByteSize.EstimateByteSize`: a family or qualifier missing from the schema would throw in `getColumnFamily`/`getColumn`. The model requires instead that the family map resolves (`ReadSetResolves`), since the expression compiler registered only resolved columns.
- `ProjectionCompiler.Compile` and `SelectClause.SelectClauseVisitor.Compile`: require the schema comparator to be a total preorder, as the Java Comparator contract does.
- `Scans.Scan.AddFamily`: HBase's `Scan` is not part of this model. That adding a whole family overwrites a qualifier set already registered for it is an assumption taken from the comment at lines 130-132, not behaviour shown in the source.
- `SelectClause.SelectClauseVisitor.Compile`: the order among functions the comparator ranks equal is not fixed, because it follows the hash set's iteration order. `Aggregates.AggregatePlanUnique` shows the plan is unique when the comparator is antisymmetric.
- `Aggregates.SortBy`: `Collections.sort` is a library merge sort. It is modelled as an insertion sort with the same outcome: a sorted permutation of its input.
- 32-bit `int` arithmetic: the estimate, `index` and `elementCount` are unbounded integers, so overflow of the Java `int` is not modelled.
- `context.getResolver().getTables().get(0)` is the context's single table; other tables of the resolver are not modelled.
