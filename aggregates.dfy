/**
 * The aggregate plan: which distinct aggregate functions the query uses, in
 * which order they are laid out, and where the nullable ones begin.
 */
module Aggregates {
  import opened Expressions

  /**
   * What `ServerAggregators.serialize` and `new ClientAggregators` are given:
   * the ordered functions and the first nullable position.
   */
  datatype AggregatePlan = AggregatePlan(functions: seq<AggFunc>, minNullableIndex: int)

  /** Every aggregate function any of the expressions contains. */
  function ContainedAggregates(exprs: seq<Expr>, contained: Expr -> set<AggFunc>): (r: set<AggFunc>)
    ensures forall f :: f in r <==> exists i :: 0 <= i < |exprs| && f in contained(exprs[i])
    decreases |exprs|
  {
    if exprs == [] then {}
    else
      var n := |exprs| - 1;
      var r' := ContainedAggregates(exprs[..n], contained);
      assert forall i :: 0 <= i < n ==> exprs[..n][i] == exprs[i];
      r' + contained(exprs[n])
  }

  /**
   * The loop at the start of `SelectClauseVisitor.compile`: visit every
   * expression the expression manager holds and add what it contains.
   */
  method CollectAggregateFunctions(exprs: seq<Expr>, contained: Expr -> set<AggFunc>)
    returns (aggFuncSet: set<AggFunc>)
    ensures aggFuncSet == ContainedAggregates(exprs, contained)
  {
    aggFuncSet := {};
    var i := 0;
    while i < |exprs|
      invariant 0 <= i <= |exprs|
      invariant aggFuncSet == ContainedAggregates(exprs[..i], contained)
    {
      assert exprs[..i + 1][..i] == exprs[..i];
      aggFuncSet := aggFuncSet + contained(exprs[i]);
      i := i + 1;
    }
    assert exprs[..i] == exprs;
  }

  ghost predicate Distinct<T>(s: seq<T>) {
    forall i, j :: 0 <= i < j < |s| ==> s[i] != s[j]
  }

  /** `new ArrayList(aggFuncSet)`: the set's elements, each once, in the set's iteration order. */
  method ToList<T>(s: set<T>) returns (l: seq<T>)
    ensures Distinct(l) && |l| == |s|
    ensures forall x :: x in l <==> x in s
  {
    l := [];
    var rest := s;
    while rest != {}
      invariant Distinct(l)
      invariant forall x :: x in l <==> x in s && x !in rest
      invariant rest <= s
      invariant |l| + |rest| == |s|
      decreases |rest|
    {
      var x :| x in rest;
      l := l + [x];
      rest := rest - {x};
    }
  }

  ghost predicate SortedBy(s: seq<AggFunc>, leq: (AggFunc, AggFunc) -> bool) {
    forall i, j :: 0 <= i < j < |s| ==> leq(s[i], s[j])
  }

  /** Inserts `x` before the first element it is less than or equal to. */
  function InsertSorted(x: AggFunc, s: seq<AggFunc>, leq: (AggFunc, AggFunc) -> bool): (r: seq<AggFunc>)
    ensures multiset(r) == multiset(s) + multiset{x}
  {
    if s == [] then [x]
    else if leq(x, s[0]) then [x] + s
    else
      assert s == [s[0]] + s[1..];
      [s[0]] + InsertSorted(x, s[1..], leq)
  }

  /**
   * `Collections.sort(aggFuncs, SCHEMA_COMPARATOR)`, as an insertion sort;
   * the result is a permutation of the input.
   */
  function SortBy(s: seq<AggFunc>, leq: (AggFunc, AggFunc) -> bool): (r: seq<AggFunc>)
    ensures multiset(r) == multiset(s)
  {
    if s == [] then []
    else
      assert s == [s[0]] + s[1..];
      InsertSorted(s[0], SortBy(s[1..], leq), leq)
  }

  lemma {:induction false} InsertSortedKeepsOrder(x: AggFunc, s: seq<AggFunc>, registry: AggregateRegistry)
    requires registry.ComparatorIsTotalPreorder()
    requires SortedBy(s, registry.schemaLeq)
    ensures SortedBy(InsertSorted(x, s, registry.schemaLeq), registry.schemaLeq)
  {
    var leq := registry.schemaLeq;
    if s != [] && !leq(x, s[0]) {
      var tail := InsertSorted(x, s[1..], leq);
      InsertSortedKeepsOrder(x, s[1..], registry);
      forall y | y in tail ensures leq(s[0], y) {
        assert y in multiset(tail);
        if y != x {
          assert y in multiset(s[1..]);
          var j :| 0 <= j < |s[1..]| && s[1..][j] == y;
          assert s[j + 1] == y;
        }
      }
      var r := [s[0]] + tail;
      forall i, j | 0 <= i < j < |r| ensures leq(r[i], r[j]) {
        if i == 0 {
          assert r[j] == tail[j - 1];
          assert tail[j - 1] in tail;
        } else {
          assert r[i] == tail[i - 1] && r[j] == tail[j - 1];
        }
      }
    } else if s != [] {
      var r := [x] + s;
      forall i, j | 0 <= i < j < |r| ensures leq(r[i], r[j]) {
        if i == 0 {
          assert r[j] == s[j - 1];
        } else {
          assert r[i] == s[i - 1] && r[j] == s[j - 1];
        }
      }
    }
  }

  /** With a comparator that meets its contract, the sort's result is in comparator order. */
  lemma {:induction false} SortByIsSorted(s: seq<AggFunc>, registry: AggregateRegistry)
    requires registry.ComparatorIsTotalPreorder()
    ensures SortedBy(SortBy(s, registry.schemaLeq), registry.schemaLeq)
  {
    if s != [] {
      SortByIsSorted(s[1..], registry);
      InsertSortedKeepsOrder(s[0], SortBy(s[1..], registry.schemaLeq), registry);
    }
  }

  /** Sorting a list of distinct functions keeps them distinct and keeps the same elements. */
  lemma PermutationKeepsElements(s: seq<AggFunc>, r: seq<AggFunc>)
    requires multiset(r) == multiset(s)
    requires Distinct(s)
    ensures Distinct(r) && |r| == |s|
    ensures forall x :: x in r <==> x in s
  {
    assert |r| == |multiset(r)| == |multiset(s)| == |s|;
    forall x ensures x in r <==> x in s {
      assert x in r <==> x in multiset(r);
      assert x in s <==> x in multiset(s);
    }
    forall i, j | 0 <= i < j < |r| ensures r[i] != r[j] {
      if r[i] == r[j] {
        MultiplicityAtLeastTwo(r, i, j);
        DistinctMultiplicity(s, r[i]);
        assert false;
      }
    }
  }

  lemma {:induction false} MultiplicityAtLeastTwo(r: seq<AggFunc>, i: int, j: int)
    requires 0 <= i < j < |r| && r[i] == r[j]
    ensures multiset(r)[r[i]] >= 2
  {
    assert r == r[..i] + [r[i]] + r[i + 1..j] + [r[j]] + r[j + 1..];
    assert multiset(r) == multiset(r[..i]) + multiset{r[i]} + multiset(r[i + 1..j]) + multiset{r[j]} + multiset(r[j + 1..]);
  }

  lemma {:induction false} DistinctMultiplicity(s: seq<AggFunc>, x: AggFunc)
    requires Distinct(s)
    ensures multiset(s)[x] <= 1
  {
    if s != [] {
      var n := |s| - 1;
      assert s == s[..n] + [s[n]];
      assert Distinct(s[..n]);
      DistinctMultiplicity(s[..n], x);
      if x == s[n] {
        assert x !in s[..n];
        assert multiset(s[..n])[x] == 0;
      }
    }
  }

  lemma {:induction false} ConstantMultiplicity(s: seq<AggFunc>, x: AggFunc)
    requires forall i :: 0 <= i < |s| ==> s[i] == x
    ensures multiset(s)[x] == |s|
  {
    if s != [] {
      var n := |s| - 1;
      assert s == s[..n] + [s[n]];
      ConstantMultiplicity(s[..n], x);
    }
  }

  /** The nullability question `getMinNullableIndex` asks, which depends on grouping. */
  function Nullable(registry: AggregateRegistry, isUngroupedAggregation: bool, f: AggFunc): bool {
    if isUngroupedAggregation then registry.aggregatorIsNullable(f)
    else registry.aggregatedExpressionIsNullable(f)
  }

  /** `k` is the position of the first nullable function, or the length when none is. */
  ghost predicate IsMinNullableIndex(fs: seq<AggFunc>, k: int, registry: AggregateRegistry, isUngroupedAggregation: bool) {
    && 0 <= k <= |fs|
    && (forall j :: 0 <= j < k ==> !Nullable(registry, isUngroupedAggregation, fs[j]))
    && (k < |fs| ==> Nullable(registry, isUngroupedAggregation, fs[k]))
  }

  /**
   * A plan for the collected set: its distinct elements in comparator order,
   * with the first-nullable position for the grouping in force.
   */
  ghost predicate IsAggregatePlan(plan: AggregatePlan, aggFuncSet: set<AggFunc>, registry: AggregateRegistry, isUngroupedAggregation: bool) {
    && Distinct(plan.functions)
    && (forall f :: f in plan.functions <==> f in aggFuncSet)
    && SortedBy(plan.functions, registry.schemaLeq)
    && IsMinNullableIndex(plan.functions, plan.minNullableIndex, registry, isUngroupedAggregation)
  }

  /** The first-nullable position of a list is determined by the list. */
  lemma MinNullableIndexUnique(fs: seq<AggFunc>, k1: int, k2: int, registry: AggregateRegistry, isUngroupedAggregation: bool)
    requires IsMinNullableIndex(fs, k1, registry, isUngroupedAggregation)
    requires IsMinNullableIndex(fs, k2, registry, isUngroupedAggregation)
    ensures k1 == k2
  {
  }

  /** The head of a sorted list is at most every later element. */
  lemma SortedHead(s: seq<AggFunc>, k: int, leq: (AggFunc, AggFunc) -> bool)
    requires SortedBy(s, leq) && 0 <= k < |s|
    ensures k == 0 || leq(s[0], s[k])
  {
  }

  /** Two distinct, sorted lists of the same functions agree under a total order. */
  lemma {:induction false} SortedDistinctUnique(a: seq<AggFunc>, b: seq<AggFunc>, registry: AggregateRegistry)
    requires registry.ComparatorIsAntisymmetric()
    requires Distinct(a) && Distinct(b)
    requires SortedBy(a, registry.schemaLeq) && SortedBy(b, registry.schemaLeq)
    requires forall f :: f in a <==> f in b
    ensures a == b
    decreases |a|
  {
    var leq := registry.schemaLeq;
    if b != [] { assert b[0] in b; }
    if a != [] {
      assert a[0] in a;
      var i :| 0 <= i < |b| && b[i] == a[0];
      assert b[0] in b;
      var j :| 0 <= j < |a| && a[j] == b[0];
      SortedHead(b, i, leq);
      SortedHead(a, j, leq);
      assert a[0] == b[0];
      forall f ensures f in a[1..] <==> f in b[1..] {
        if f in a[1..] {
          var k :| 0 <= k < |a[1..]| && a[1..][k] == f;
          assert a[k + 1] == f && f != a[0];
          assert f in b;
          var m :| 0 <= m < |b| && b[m] == f;
          assert m != 0;
          assert b[1..][m - 1] == f;
        }
        if f in b[1..] {
          var k :| 0 <= k < |b[1..]| && b[1..][k] == f;
          assert b[k + 1] == f && f != b[0];
          assert f in a;
          var m :| 0 <= m < |a| && a[m] == f;
          assert m != 0;
          assert a[1..][m - 1] == f;
        }
      }
      assert Distinct(a[1..]) && Distinct(b[1..]);
      assert SortedBy(a[1..], leq) && SortedBy(b[1..], leq);
      SortedDistinctUnique(a[1..], b[1..], registry);
      calc {
        a;
        [a[0]] + a[1..];
        [b[0]] + b[1..];
        b;
      }
    }
  }

  /**
   * When the comparator is a total order, the plan for a set is unique:
   * whatever order the hash set was iterated in, the same list and index result.
   */
  lemma AggregatePlanUnique(p: AggregatePlan, q: AggregatePlan, aggFuncSet: set<AggFunc>, registry: AggregateRegistry, isUngroupedAggregation: bool)
    requires registry.ComparatorIsAntisymmetric()
    requires IsAggregatePlan(p, aggFuncSet, registry, isUngroupedAggregation)
    requires IsAggregatePlan(q, aggFuncSet, registry, isUngroupedAggregation)
    ensures p == q
  {
    SortedDistinctUnique(p.functions, q.functions, registry);
    MinNullableIndexUnique(p.functions, p.minNullableIndex, q.minNullableIndex, registry, isUngroupedAggregation);
  }

  /**
   * A query with one distinct aggregate function (e.g. `SUM(a), b ... GROUP BY b`):
   * the plan holds that function alone, and its first-nullable position is 0
   * when the function is nullable for the grouping in force, 1 otherwise.
   */
  lemma SingleAggregatePlan(p: AggregatePlan, f: AggFunc, registry: AggregateRegistry, isUngroupedAggregation: bool)
    requires IsAggregatePlan(p, {f}, registry, isUngroupedAggregation)
    ensures p.functions == [f]
    ensures p.minNullableIndex == if Nullable(registry, isUngroupedAggregation, f) then 0 else 1
  {
    var fs := p.functions;
    assert f in fs;
    forall i | 0 <= i < |fs| ensures fs[i] == f {
      assert fs[i] in fs;
    }
    ConstantMultiplicity(fs, f);
    DistinctMultiplicity(fs, f);
    assert fs == [f];
  }
}
