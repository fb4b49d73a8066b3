/** Column privileges read from the catalog, grouped by table and then by column. */
module ColumnPrivileges {
  import opened Wrappers
  import opened Acl

  /** One row of the column-privileges query: NULL privileges are None; kind is "Default", "Empty" or "". */
  datatype ColumnPrivilegesRow = ColumnPrivilegesRow(tableOid: nat, name: string, privileges: Option<string>, kind: string)

  /** Table oid, then column name, to the column's entries. */
  type ColumnPrivilegesMap = map<nat, map<string, seq<ACL>>>

  function ColumnsOf(m: ColumnPrivilegesMap, oid: nat): map<string, seq<ACL>>
  {
    if oid in m then m[oid] else map[]
  }

  function AclsOf(columns: map<string, seq<ACL>>, name: string): seq<ACL>
  {
    if name in columns then columns[name] else []
  }

  /** The map after adding one row: the row's column gets an entry list (empty if new) extended by the row's entry. */
  function AddRow(m: ColumnPrivilegesMap, row: ColumnPrivilegesRow): ColumnPrivilegesMap
  {
    var columns := ColumnsOf(m, row.tableOid);
    m[row.tableOid := columns[row.name := AclsOf(columns, row.name) + RowAcls(row.privileges, row.kind)]]
  }

  /** The map the rows build, adding them in order. */
  function ColumnPrivilegesOf(rows: seq<ColumnPrivilegesRow>): ColumnPrivilegesMap
  {
    if rows == [] then map[] else AddRow(ColumnPrivilegesOf(rows[..|rows| - 1]), rows[|rows| - 1])
  }

  /** The loop body: fetch the row's table and column, creating them when missing, and extend the column's entries. */
  method AddColumnRow(m0: ColumnPrivilegesMap, row: ColumnPrivilegesRow) returns (m: ColumnPrivilegesMap)
    ensures m == AddRow(m0, row)
  {
    var columns := if row.tableOid in m0 then m0[row.tableOid] else map[];
    var acls := if row.name in columns then columns[row.name] else [];
    acls := acls + RowAcls(row.privileges, row.kind);
    m := m0[row.tableOid := columns[row.name := acls]];
  }

  /** Builds the map row by row. */
  method ConstructColumnPrivilegesMap(rows: seq<ColumnPrivilegesRow>) returns (m: ColumnPrivilegesMap)
    ensures m == ColumnPrivilegesOf(rows)
  {
    m := map[];
    var i := 0;
    while i < |rows|
      invariant 0 <= i <= |rows|
      invariant m == ColumnPrivilegesOf(rows[..i])
    {
      assert rows[..i + 1][..i] == rows[..i];
      m := AddColumnRow(m, rows[i]);
      i := i + 1;
    }
    assert rows[..i] == rows;
  }

  predicate ForColumn(row: ColumnPrivilegesRow, oid: nat, name: string)
  {
    row.tableOid == oid && row.name == name
  }

  /** Independent reference: the entries of the rows for one column, in row order. */
  function RowsAclsFor(rows: seq<ColumnPrivilegesRow>, oid: nat, name: string): seq<ACL>
  {
    if rows == [] then []
    else
      var last := rows[|rows| - 1];
      RowsAclsFor(rows[..|rows| - 1], oid, name)
      + (if ForColumn(last, oid, name) then RowAcls(last.privileges, last.kind) else [])
  }

  /**
   * A table appears exactly when some row is about it, a column exactly
   * when some row is about that column of that table, and a column's
   * entries are those of its rows, in row order.
   */
  lemma {:induction false} ColumnPrivilegesEntry(rows: seq<ColumnPrivilegesRow>, oid: nat, name: string)
    ensures var m := ColumnPrivilegesOf(rows);
      && (oid in m <==> exists r :: r in rows && r.tableOid == oid)
      && (oid in m && name in m[oid] <==> exists r :: r in rows && ForColumn(r, oid, name))
      && (oid in m && name in m[oid] ==> m[oid][name] == RowsAclsFor(rows, oid, name))
  {
    if rows != [] {
      var init := rows[..|rows| - 1];
      var last := rows[|rows| - 1];
      assert rows == init + [last];
      ColumnPrivilegesEntry(init, oid, name);
      var m0 := ColumnPrivilegesOf(init);
      if !(oid in m0 && name in m0[oid]) && ForColumn(last, oid, name) {
        assert RowsAclsFor(init, oid, name) == [] by {
          NoRowsNoAcls(init, oid, name);
        }
      }
    }
  }

  lemma {:induction false} NoRowsNoAcls(rows: seq<ColumnPrivilegesRow>, oid: nat, name: string)
    requires forall r :: r in rows ==> !ForColumn(r, oid, name)
    ensures RowsAclsFor(rows, oid, name) == []
  {
    if rows != [] {
      assert rows[|rows| - 1] in rows;
      assert forall r :: r in rows[..|rows| - 1] ==> r in rows;
      NoRowsNoAcls(rows[..|rows| - 1], oid, name);
    }
  }

  /** A column whose only row has the default (NULL) privileges is present, with no entries. */
  lemma DefaultKindColumn(oid: nat, name: string)
    ensures ColumnPrivilegesOf([ColumnPrivilegesRow(oid, name, None, "Default")]) == map[oid := map[name := []]]
  {
    NullRow(None, "Default");
    assert [ColumnPrivilegesRow(oid, name, None, "Default")][..0] == [];
  }

  /** A column whose only row is marked empty gets the single placeholder entry GRANTEE. */
  lemma EmptyKindColumn(oid: nat, name: string)
    ensures ColumnPrivilegesOf([ColumnPrivilegesRow(oid, name, None, "Empty")]) == map[oid := map[name := [ACL("GRANTEE", {})]]]
  {
    var row := ColumnPrivilegesRow(oid, name, None, "Empty");
    EmptyKindRow(None);
    assert [row][..0] == [];
    var entry := [ACL("GRANTEE", {})];
    assert RowAcls(row.privileges, row.kind) == entry;
    assert ColumnPrivilegesOf([row]) == AddRow(map[], row);
    assert AclsOf(ColumnsOf(map[], oid), name) + entry == entry;
  }

  /** Every row marked empty contributes a placeholder of its own: two such rows for one column give two GRANTEE entries. */
  lemma RepeatedEmptyRows(oid: nat, name: string)
    ensures var row := ColumnPrivilegesRow(oid, name, None, "Empty");
      ColumnPrivilegesOf([row, row]) == map[oid := map[name := [ACL("GRANTEE", {}), ACL("GRANTEE", {})]]]
  {
    var row := ColumnPrivilegesRow(oid, name, None, "Empty");
    EmptyKindColumn(oid, name);
    assert [row, row][..1] == [row];
    assert ColumnPrivilegesOf([row, row]) == AddRow(ColumnPrivilegesOf([row]), row);
    EmptyKindRow(None);
    AddRowToOnlyColumn(row, [ACL("GRANTEE", {})]);
    assert [ACL("GRANTEE", {})] + [ACL("GRANTEE", {})] == [ACL("GRANTEE", {}), ACL("GRANTEE", {})];
  }

  /** A row for the only column of a one-table map appends its entries to that column's. */
  lemma AddRowToOnlyColumn(row: ColumnPrivilegesRow, acls: seq<ACL>)
    ensures AddRow(map[row.tableOid := map[row.name := acls]], row)
         == map[row.tableOid := map[row.name := acls + RowAcls(row.privileges, row.kind)]]
  {
    var m := map[row.tableOid := map[row.name := acls]];
    assert ColumnsOf(m, row.tableOid) == map[row.name := acls];
    assert AclsOf(ColumnsOf(m, row.tableOid), row.name) == acls;
    assert map[row.name := acls][row.name := acls + RowAcls(row.privileges, row.kind)] == map[row.name := acls + RowAcls(row.privileges, row.kind)];
  }
}
