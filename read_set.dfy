/**
 * How the scan's read-set is finalised after the select loop: either the
 * families named by `cf.*` items are set to whole-family reads on top of what
 * was registered, or the read-set is replaced by every declared family, whole.
 */
module ReadSet {
  import opened Wrappers
  import opened Schema
  import opened Scans

  /**
   * `m` after `addFamily` of each of `families`, in order. An added family
   * overwrites whatever entry it had.
   */
  function WithWholeFamilies(m: FamilyMap, families: seq<FamilyName>): (r: FamilyMap)
    ensures r.Keys == m.Keys + (set f | f in families)
    ensures forall f :: f in families ==> r[f] == None
    ensures forall f :: f in m && f !in families ==> r[f] == m[f]
    decreases |families|
  {
    if families == [] then m
    else
      var n := |families| - 1;
      assert forall f :: f in families <==> f in families[..n] || f == families[n];
      WithWholeFamilies(m, families[..n])[families[n] := None]
  }

  /** Every declared family, each read whole. */
  function AllFamiliesWhole(table: PTable): FamilyMap {
    map f | f in DeclaredFamilies(table) :: None
  }

  /**
   * The read-set after finalisation. `isProjectEmptyKeyValue` is the flag
   * `compile` computes: not a VIEW and no full wildcard.
   */
  function FinalFamilyMap(table: PTable, m: FamilyMap, projectedFamilies: seq<FamilyName>, isProjectEmptyKeyValue: bool): FamilyMap {
    if isProjectEmptyKeyValue then WithWholeFamilies(m, projectedFamilies) else AllFamiliesWhole(table)
  }

  /**
   * The two outcomes of finalisation: family-wildcard families become whole
   * reads and every other entry is kept, or the read-set becomes exactly the
   * declared families, whole.
   */
  lemma FinalFamilyMapCases(table: PTable, m: FamilyMap, projectedFamilies: seq<FamilyName>, isProjectEmptyKeyValue: bool)
    ensures var r := FinalFamilyMap(table, m, projectedFamilies, isProjectEmptyKeyValue);
      if isProjectEmptyKeyValue then
        && r.Keys == m.Keys + (set f | f in projectedFamilies)
        && (forall f :: f in projectedFamilies ==> r[f] == None)
        && (forall f :: f in m && f !in projectedFamilies ==> r[f] == m[f])
      else
        && r.Keys == DeclaredFamilies(table)
        && (forall f :: f in r ==> r[f] == None)
  {
  }
}
