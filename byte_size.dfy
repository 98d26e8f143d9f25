/**
 * The estimated byte size of a row: one term per column the scan's read-set
 * counts, each the key-value overhead plus the estimated row key length plus
 * the column's fixed byte size (or a placeholder when it has none).
 */
module ByteSize {
  import opened Wrappers
  import opened Schema
  import opened Scans

  /** `SizedUtil.KEY_VALUE_SIZE` and `RowKeySchema.ESTIMATED_VARIABLE_LENGTH_SIZE`. */
  datatype SizeConstants = SizeConstants(keyValueSize: int, estimatedVariableLengthSize: int)

  /** The term one column adds. */
  function ColumnSize(sizes: SizeConstants, estimatedKeySize: int, column: PColumn): int {
    sizes.keyValueSize + estimatedKeySize
      + (if column.byteSize.None? then sizes.estimatedVariableLengthSize else column.byteSize.value)
  }

  /** The terms of a sequence of columns, added up. */
  function ColumnsSize(sizes: SizeConstants, estimatedKeySize: int, columns: seq<PColumn>): int
    decreases |columns|
  {
    if columns == [] then 0
    else ColumnsSize(sizes, estimatedKeySize, columns[..|columns| - 1]) + ColumnSize(sizes, estimatedKeySize, columns[|columns| - 1])
  }

  /** The sum of `f` over a finite set, in no particular order. */
  ghost function SumOverSet<T>(s: set<T>, f: T -> int): int
    decreases |s|
  {
    if s == {} then 0 else var x :| x in s; f(x) + SumOverSet(s - {x}, f)
  }

  /** The sum does not depend on which element is taken first. */
  lemma {:induction false} SumOverSetRemove<T>(s: set<T>, f: T -> int, y: T)
    requires y in s
    ensures SumOverSet(s, f) == f(y) + SumOverSet(s - {y}, f)
    decreases |s|
  {
    var x :| x in s && SumOverSet(s, f) == f(x) + SumOverSet(s - {x}, f);
    if x != y {
      SumOverSetRemove(s - {x}, f, y);
      SumOverSetRemove(s - {y}, f, x);
      assert s - {x} - {y} == s - {y} - {x};
    }
  }

  lemma {:induction false} SumOverSetNonNegative<T>(s: set<T>, f: T -> int)
    requires forall x :: x in s ==> f(x) >= 0
    ensures SumOverSet(s, f) >= 0
    decreases |s|
  {
    if s != {} {
      var x :| x in s;
      SumOverSetRemove(s, f, x);
      SumOverSetNonNegative(s - {x}, f);
    }
  }

  lemma {:induction false} SumOverSetCongruent<T>(s: set<T>, f: T -> int, g: T -> int)
    requires forall x :: x in s ==> f(x) == g(x)
    ensures SumOverSet(s, f) == SumOverSet(s, g)
    decreases |s|
  {
    if s != {} {
      var x :| x in s;
      SumOverSetRemove(s, f, x);
      SumOverSetRemove(s, g, x);
      SumOverSetCongruent(s - {x}, f, g);
    }
  }

  /** The family of a read-set entry is declared, and so is every qualifier it lists. */
  ghost predicate EntryResolves(table: PTable, family: FamilyName, entry: Option<set<Qualifier>>) {
    && FindFamily(table.families, family).Some?
    && (entry.Some? ==> forall q :: q in entry.value ==> FindColumn(FindFamily(table.families, family).value.columns, q).Some?)
  }

  /** Every entry of the read-set resolves against the schema. */
  ghost predicate ReadSetResolves(table: PTable, m: FamilyMap) {
    forall family :: family in m ==> EntryResolves(table, family, m[family])
  }

  /** The term of one listed qualifier of a family. */
  function QualifierTerm(sizes: SizeConstants, estimatedKeySize: int, family: PColumnFamily): Qualifier -> int {
    q => match FindColumn(family.columns, q)
         case Some(column) => ColumnSize(sizes, estimatedKeySize, column)
         case None => 0
  }

  /** What one entry adds: every column of the family, or each listed qualifier. */
  ghost function EntrySize(sizes: SizeConstants, table: PTable, family: FamilyName, entry: Option<set<Qualifier>>): int
    requires EntryResolves(table, family, entry)
  {
    var pfamily := FindFamily(table.families, family).value;
    match entry
    case None => ColumnsSize(sizes, table.estimatedKeySize, pfamily.columns)
    case Some(qualifiers) => SumOverSet(qualifiers, QualifierTerm(sizes, table.estimatedKeySize, pfamily))
  }

  ghost function EntryTerm(sizes: SizeConstants, table: PTable, m: FamilyMap): FamilyName -> int {
    family => if family in m && EntryResolves(table, family, m[family]) then EntrySize(sizes, table, family, m[family]) else 0
  }

  /** The estimate for a read-set: the entries' sizes added up. */
  ghost function EstimatedByteSize(sizes: SizeConstants, table: PTable, m: FamilyMap): int {
    SumOverSet(m.Keys, EntryTerm(sizes, table, m))
  }

  /** The inner loop for a whole-family entry: every column of the family. */
  method WholeFamilySize(family: PColumnFamily, estimatedKeySize: int, sizes: SizeConstants) returns (added: int)
    ensures added == ColumnsSize(sizes, estimatedKeySize, family.columns)
  {
    var i := 0;
    added := 0;
    while i < |family.columns|
      invariant 0 <= i <= |family.columns|
      invariant added == ColumnsSize(sizes, estimatedKeySize, family.columns[..i])
    {
      assert family.columns[..i + 1][..i] == family.columns[..i];
      var column := family.columns[i];
      added := added + sizes.keyValueSize + estimatedKeySize
        + (if column.byteSize.None? then sizes.estimatedVariableLengthSize else column.byteSize.value);
      i := i + 1;
    }
    assert family.columns[..i] == family.columns;
  }

  /** The inner loop for a qualifier-set entry: each listed qualifier's column. */
  method QualifiersSize(family: PColumnFamily, qualifiers: set<Qualifier>, estimatedKeySize: int, sizes: SizeConstants)
    returns (added: int)
    requires forall q :: q in qualifiers ==> FindColumn(family.columns, q).Some?
    ensures added == SumOverSet(qualifiers, QualifierTerm(sizes, estimatedKeySize, family))
  {
    var rest := qualifiers;
    added := 0;
    while rest != {}
      invariant rest <= qualifiers
      invariant added + SumOverSet(rest, QualifierTerm(sizes, estimatedKeySize, family)) ==
                SumOverSet(qualifiers, QualifierTerm(sizes, estimatedKeySize, family))
      decreases |rest|
    {
      var cq :| cq in rest;
      SumOverSetRemove(rest, QualifierTerm(sizes, estimatedKeySize, family), cq);
      var column := FindColumn(family.columns, cq).value;
      added := added + sizes.keyValueSize + estimatedKeySize
        + (if column.byteSize.None? then sizes.estimatedVariableLengthSize else column.byteSize.value);
      rest := rest - {cq};
    }
  }

  /** The nested loops of `compile` over the scan's family map. */
  method EstimateByteSize(table: PTable, m: FamilyMap, sizes: SizeConstants) returns (estimatedByteSize: int)
    requires ReadSetResolves(table, m)
    ensures estimatedByteSize == EstimatedByteSize(sizes, table, m)
  {
    var estimatedKeySize := table.estimatedKeySize;
    estimatedByteSize := 0;
    var entries := m.Keys;
    while entries != {}
      invariant entries <= m.Keys
      invariant estimatedByteSize + SumOverSet(entries, EntryTerm(sizes, table, m)) == EstimatedByteSize(sizes, table, m)
      decreases |entries|
    {
      var key :| key in entries;
      SumOverSetRemove(entries, EntryTerm(sizes, table, m), key);
      assert EntryResolves(table, key, m[key]);
      var family := FindFamily(table.families, key).value;
      var added;
      match m[key] {
        case None =>
          added := WholeFamilySize(family, estimatedKeySize, sizes);
        case Some(qualifiers) =>
          added := QualifiersSize(family, qualifiers, estimatedKeySize, sizes);
      }
      assert added == EntryTerm(sizes, table, m)(key);
      estimatedByteSize := estimatedByteSize + added;
      entries := entries - {key};
    }
  }

  /** No constant and no declared byte size is negative. */
  ghost predicate NonNegativeSizes(sizes: SizeConstants, table: PTable) {
    && sizes.keyValueSize >= 0
    && sizes.estimatedVariableLengthSize >= 0
    && table.estimatedKeySize >= 0
    && forall f, c :: f in table.families && c in f.columns && c.byteSize.Some? ==> c.byteSize.value >= 0
  }

  lemma {:induction false} ColumnsSizeNonNegative(sizes: SizeConstants, table: PTable, f: PColumnFamily, columns: seq<PColumn>)
    requires NonNegativeSizes(sizes, table) && f in table.families
    requires forall c :: c in columns ==> c in f.columns
    ensures ColumnsSize(sizes, table.estimatedKeySize, columns) >= 0
    decreases |columns|
  {
    if columns != [] {
      var n := |columns| - 1;
      assert forall c :: c in columns[..n] ==> c in columns;
      ColumnsSizeNonNegative(sizes, table, f, columns[..n]);
      assert columns[n] in columns;
    }
  }

  lemma EntrySizeNonNegative(sizes: SizeConstants, table: PTable, family: FamilyName, entry: Option<set<Qualifier>>)
    requires NonNegativeSizes(sizes, table)
    requires EntryResolves(table, family, entry)
    ensures EntrySize(sizes, table, family, entry) >= 0
  {
    var pfamily := FindFamily(table.families, family).value;
    match entry
    case None =>
      ColumnsSizeNonNegative(sizes, table, pfamily, pfamily.columns);
    case Some(qualifiers) =>
      SumOverSetNonNegative(qualifiers, QualifierTerm(sizes, table.estimatedKeySize, pfamily));
  }

  /** With non-negative constants and byte sizes, the estimate is never negative. */
  lemma EstimatedByteSizeNonNegative(sizes: SizeConstants, table: PTable, m: FamilyMap)
    requires NonNegativeSizes(sizes, table)
    requires ReadSetResolves(table, m)
    ensures EstimatedByteSize(sizes, table, m) >= 0
  {
    forall family | family in m.Keys ensures EntryTerm(sizes, table, m)(family) >= 0 {
      EntrySizeNonNegative(sizes, table, family, m[family]);
    }
    SumOverSetNonNegative(m.Keys, EntryTerm(sizes, table, m));
  }

  /** Adding the entry of a new family adds exactly that entry's size. */
  lemma EstimatedByteSizeAddEntry(sizes: SizeConstants, table: PTable, m: FamilyMap, family: FamilyName, entry: Option<set<Qualifier>>)
    requires ReadSetResolves(table, m)
    requires family !in m && EntryResolves(table, family, entry)
    ensures EstimatedByteSize(sizes, table, m[family := entry]) == EstimatedByteSize(sizes, table, m) + EntrySize(sizes, table, family, entry)
  {
    var m' := m[family := entry];
    assert m'.Keys - {family} == m.Keys;
    SumOverSetRemove(m'.Keys, EntryTerm(sizes, table, m'), family);
    SumOverSetCongruent(m.Keys, EntryTerm(sizes, table, m'), EntryTerm(sizes, table, m));
  }

  /** So, with non-negative sizes, adding an entry never decreases the estimate. */
  lemma EstimatedByteSizeMonotone(sizes: SizeConstants, table: PTable, m: FamilyMap, family: FamilyName, entry: Option<set<Qualifier>>)
    requires NonNegativeSizes(sizes, table)
    requires ReadSetResolves(table, m)
    requires family !in m && EntryResolves(table, family, entry)
    ensures EstimatedByteSize(sizes, table, m[family := entry]) >= EstimatedByteSize(sizes, table, m)
  {
    EstimatedByteSizeAddEntry(sizes, table, m, family, entry);
    EntrySizeNonNegative(sizes, table, family, entry);
  }

  /** A family with at least one column adds a positive amount. */
  lemma {:induction false} ColumnsSizePositive(sizes: SizeConstants, table: PTable, f: PColumnFamily)
    requires NonNegativeSizes(sizes, table) && sizes.keyValueSize > 0
    requires f in table.families && f.columns != []
    ensures ColumnsSize(sizes, table.estimatedKeySize, f.columns) > 0
  {
    var n := |f.columns| - 1;
    ColumnsSizeNonNegative(sizes, table, f, f.columns[..n]);
    assert f.columns[n] in f.columns;
  }

  /** A non-empty set of listed qualifiers of a family adds a positive amount. */
  lemma QualifiersSizePositive(sizes: SizeConstants, table: PTable, f: PColumnFamily, qualifiers: set<Qualifier>)
    requires NonNegativeSizes(sizes, table) && sizes.keyValueSize > 0
    requires f in table.families && qualifiers != {}
    requires forall q :: q in qualifiers ==> FindColumn(f.columns, q).Some?
    ensures SumOverSet(qualifiers, QualifierTerm(sizes, table.estimatedKeySize, f)) > 0
  {
    var q :| q in qualifiers;
    var qterm := QualifierTerm(sizes, table.estimatedKeySize, f);
    SumOverSetRemove(qualifiers, qterm, q);
    forall q' | q' in qualifiers - {q} ensures qterm(q') >= 0 {
      assert FindColumn(f.columns, q').value in f.columns;
    }
    SumOverSetNonNegative(qualifiers - {q}, qterm);
    assert FindColumn(f.columns, q).value in f.columns;
  }

  /** With a positive key-value overhead, an entry that counts a column adds a positive amount. */
  lemma EntrySizePositive(sizes: SizeConstants, table: PTable, family: FamilyName, entry: Option<set<Qualifier>>)
    requires NonNegativeSizes(sizes, table) && sizes.keyValueSize > 0
    requires EntryResolves(table, family, entry)
    requires entry.None? ==> FindFamily(table.families, family).value.columns != []
    requires entry.Some? ==> entry.value != {}
    ensures EntrySize(sizes, table, family, entry) > 0
  {
    var pfamily := FindFamily(table.families, family).value;
    match entry
    case None => ColumnsSizePositive(sizes, table, pfamily);
    case Some(qualifiers) => QualifiersSizePositive(sizes, table, pfamily, qualifiers);
  }

  /**
   * With a positive key-value overhead, a read-set with one entry that counts
   * at least one column has a positive estimate.
   */
  lemma EstimatedByteSizePositive(sizes: SizeConstants, table: PTable, m: FamilyMap, family: FamilyName)
    requires NonNegativeSizes(sizes, table) && sizes.keyValueSize > 0
    requires ReadSetResolves(table, m)
    requires family in m
    requires m[family].None? ==> FindFamily(table.families, family).Some? && FindFamily(table.families, family).value.columns != []
    requires m[family].Some? ==> m[family].value != {}
    ensures EstimatedByteSize(sizes, table, m) > 0
  {
    var term := EntryTerm(sizes, table, m);
    SumOverSetRemove(m.Keys, term, family);
    forall g | g in m.Keys - {family} ensures term(g) >= 0 {
      EntrySizeNonNegative(sizes, table, g, m[g]);
    }
    SumOverSetNonNegative(m.Keys - {family}, term);
    EntrySizePositive(sizes, table, family, m[family]);
  }
}
