/** The catalog entities the predata printers and the partition classifier work on. */
module Relations {
  import opened Acl

  const MinInt64: int := -0x8000_0000_0000_0000
  const MaxInt64: int := 0x7FFF_FFFF_FFFF_FFFF

  /** A signed 64-bit value, as the sequence catalog stores it. */
  type Int64 = i: int | MinInt64 <= i <= MaxInt64

  /** A table, view or sequence as listed by the catalog. */
  datatype Relation = Relation(
    schemaOid: nat, oid: nat, schema: string, name: string,
    dependsUpon: seq<string>, inherits: seq<string>)
  {
    /** Schema-qualified name. */
    function FQN(): string
    {
      schema + "." + name
    }
  }

  /** One column of a table: its definition, the statements that follow CREATE TABLE, its comment and its privileges. */
  datatype ColumnDefinition = ColumnDefinition(
    oid: nat, num: int, name: string, notNull: bool, hasDefault: bool,
    columnType: string, encoding: string, statTarget: int, storageType: string,
    defaultVal: string, comment: string, acl: seq<ACL>, options: string)

  /**
   * Everything CREATE TABLE needs beyond the relation itself. The partition
   * type is "p" (partition parent), "i" (intermediate), "l" (leaf) or "n"
   * (not partitioned).
   */
  datatype TableDefinition = TableDefinition(
    distPolicy: string, partDef: string, partTemplateDef: string, storageOpts: string,
    tablespaceName: string, columnDefs: seq<ColumnDefinition>, isExternal: bool,
    partitionType: string, tableType: string)

  const EmptyTableDefinition := TableDefinition("", "", "", "", "", [], false, "", "")

  /** The definition recorded for an oid; an oid without one gets the empty definition, as a map lookup gives the zero value. */
  function DefinitionOf(defs: map<nat, TableDefinition>, oid: nat): (d: TableDefinition)
    ensures oid in defs ==> d == defs[oid]
    ensures oid !in defs ==> d == EmptyTableDefinition
  {
    if oid in defs then defs[oid] else EmptyTableDefinition
  }

  /** The state of a sequence generator. */
  datatype SequenceDefinition = SequenceDefinition(
    name: string, lastVal: Int64, increment: Int64, maxVal: Int64, minVal: Int64,
    cacheVal: Int64, logCnt: Int64, isCycled: bool, isCalled: bool)

  datatype Sequence = Sequence(relation: Relation, definition: SequenceDefinition)

  datatype View = View(oid: nat, schema: string, name: string, definition: string, dependsUpon: seq<string>)
  {
    function FQN(): string
    {
      schema + "." + name
    }
  }
}
