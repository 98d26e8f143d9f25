/**
 * The part of the table schema the projection compiler reads: the table's
 * columns in position order, its column families, whether it is bucketed
 * (salted) and the estimated length of its row key.
 */
module Schema {
  import opened Wrappers

  /** A column's SQL type. Only equality and comparability are used. */
  type DataType(==)

  /** The name of a column family (its bytes in the storage engine). */
  type FamilyName = string

  /** A column qualifier inside a family (the column name's bytes). */
  type Qualifier = string

  datatype TableType = System | User | View

  datatype PColumn = PColumn(
    name: string,
    familyName: Option<FamilyName>,
    position: nat,
    dataType: DataType,
    byteSize: Option<int>)   // None when the type has no fixed width

  datatype PColumnFamily = PColumnFamily(name: FamilyName, columns: seq<PColumn>)

  datatype PTable = PTable(
    name: string,
    tableType: TableType,
    bucketNum: Option<int>,  // Some when the table is salted; column 0 is then the salt byte
    columns: seq<PColumn>,
    families: seq<PColumnFamily>,
    estimatedKeySize: int)   // the row key schema's estimated value length

  /** The first table position a full wildcard projects: the salt column is skipped. */
  function WildcardStart(table: PTable): nat {
    if table.bucketNum.None? then 0 else 1
  }

  /** The names of the given families. */
  function FamilyNames(families: seq<PColumnFamily>): set<FamilyName> {
    set f | f in families :: f.name
  }

  /** The names of all declared column families. */
  function DeclaredFamilies(table: PTable): set<FamilyName> {
    FamilyNames(table.families)
  }

  /** `getColumnFamily(name)`: the first family with that name, None when unknown. */
  function FindFamily(families: seq<PColumnFamily>, name: FamilyName): (r: Option<PColumnFamily>)
    ensures r.Some? ==> r.value in families && r.value.name == name
    ensures r.None? <==> forall f :: f in families ==> f.name != name
  {
    if families == [] then None
    else if families[0].name == name then Some(families[0])
    else FindFamily(families[1..], name)
  }

  /** `getColumn(qualifier)` on a family: the first column with that name, None when unknown. */
  function FindColumn(columns: seq<PColumn>, qualifier: Qualifier): (r: Option<PColumn>)
    ensures r.Some? ==> r.value in columns && r.value.name == qualifier
    ensures r.None? <==> forall c :: c in columns ==> c.name != qualifier
  {
    if columns == [] then None
    else if columns[0].name == qualifier then Some(columns[0])
    else FindColumn(columns[1..], qualifier)
  }
}
