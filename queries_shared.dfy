/**
 * The catalog queries that read every object's privileges, owner and
 * comment, and the folding of their result rows into a metadata map.
 */
module QueriesShared {
  import opened Wrappers
  import opened Strings
  import opened Acl

  /**
   * Where an object type keeps what the queries read: the catalog table, the
   * column names of its oid, schema, ACL and owner, and the table its
   * comments are registered under ("" for the catalog table itself).
   */
  datatype MetadataQueryParams = MetadataQueryParams(
    nameField: string, schemaField: string, aclField: string, ownerField: string,
    oidField: string, commentTable: string, catalogTable: string, shared: bool)

  /* ------------------------------------------------ query text */

  /** Shared objects keep their comments in a separate catalog. */
  function DescriptionTable(shared: bool): string
  {
    if shared then "pg_shdescription" else "pg_description"
  }

  /** Only per-database descriptions carry a sub-object id; 0 selects the object itself. */
  function SubidCondition(shared: bool): string
  {
    if shared then "" else " AND d.objsubid = 0"
  }

  /** The privileges and kind columns when the object has no ACL column. */
  const NoAclColumns := "'' AS privileges,\n\t'' AS kind,"

  /** One row per aclitem, with `Default` for a NULL ACL and `Empty` for an empty one, as the pieces of its template. */
  function AclColumnsParts(acl: string): seq<string>
  {
    ["CASE\n\t\tWHEN ", acl, " IS NULL OR array_upper(", acl, ", 1) = 0 THEN ", acl, "[0]\n\t\tELSE ",
     "unnest(", acl, ")\n\t\tEND AS privileges,\n\tCASE\n\t\tWHEN ", acl, " IS NULL THEN ", "'Default'",
     "\n\t\tWHEN array_upper(", acl, ", 1) = 0 THEN ", "'Empty'", "\n\t\tELSE '' END AS kind,"]
  }

  function AclColumns(acl: string): string
  {
    Join(AclColumnsParts(acl), "")
  }

  /** The ACL columns unnest the ACL field, give kind `Default` when it is NULL and `Empty` when it has no items. */
  lemma AclColumnsKinds(acl: string)
    ensures Contains(AclColumns(acl), "unnest(" + acl)
    ensures Contains(AclColumns(acl), " IS NULL THEN " + "'Default'")
    ensures Contains(AclColumns(acl), ", 1) = 0 THEN " + "'Empty'")
  {
    JoinContains2(AclColumnsParts(acl), 7);
    JoinContains2(AclColumnsParts(acl), 11);
    JoinContains2(AclColumnsParts(acl), 15);
  }

  /** The privileges and kind columns: the unnesting CASE columns for an ACL field, two empty columns otherwise. */
  function PrivilegeColumns(aclField: string): string
  {
    if aclField != "" then AclColumns(aclField) else NoAclColumns
  }

  /** The condition that leaves out temporary, toast and system schemas. */
  const SchemaFilterClause :=
    "n.nspname NOT LIKE 'pg_temp_%' AND n.nspname NOT LIKE 'pg_toast%' AND n.nspname NOT IN "
    + "('gp_toolkit', 'information_schema', 'pg_aoseg', 'pg_bitmapindex', 'pg_catalog')"

  /** The namespace join and schema filter, present only for objects that live in a schema. */
  function SchemaClause(schemaField: string): (r: string)
    ensures schemaField == "" <==> r == ""
  {
    if schemaField != "" then "\nJOIN pg_namespace n ON o." + schemaField + " = n.oid\nWHERE " + SchemaFilterClause else ""
  }

  /** Leaves out objects that belong to an extension, and orders by oid. */
  const ExtensionFilter := "\nAND o.oid NOT IN (SELECT objid FROM pg_depend WHERE deptype='e')\nORDER BY o.oid;"

  /** The metadata query as the pieces of its template, fixed text and filled-in holes. */
  function MetadataQueryParts(p: MetadataQueryParams): seq<string>
  {
    ["SELECT\n\to.oid,\n\t", PrivilegeColumns(p.aclField), "\n\tpg_get_userbyid(", p.ownerField,
     ") AS owner,\n\tcoalesce(description,'') AS comment\n",
     "FROM ", p.catalogTable, " o LEFT JOIN ", DescriptionTable(p.shared),
     " d ON (d.objoid = o.oid AND d.classoid = '", p.catalogTable, "'::regclass", SubidCondition(p.shared), ")",
     SchemaClause(p.schemaField), ExtensionFilter]
  }

  /** The query behind GetMetadataForObjectType. */
  function MetadataQuery(p: MetadataQueryParams): string
  {
    Join(MetadataQueryParts(p), "")
  }

  /** The comments query as the pieces of its template. */
  function CommentsQueryParts(p: MetadataQueryParams): seq<string>
  {
    var classTable := if p.commentTable != "" then p.commentTable else p.catalogTable;
    ["SELECT\n\to.", p.oidField, " AS oid,\n\tcoalesce(description,'') AS comment\n",
     "FROM ", p.catalogTable, " o JOIN ", DescriptionTable(p.shared),
     " d ON (d.objoid = ", p.oidField, " AND d.classoid = '", classTable, "'::regclass", SubidCondition(p.shared), ");"]
  }

  /** The query behind GetCommentsForObjectType. */
  function CommentsQuery(p: MetadataQueryParams): string
  {
    Join(CommentsQueryParts(p), "")
  }

  /** Position of the privilege columns, the description catalog, the sub-object condition and the schema clause in MetadataQueryParts. */
  const PrivilegesPiece := 1
  const DescriptionsPiece := 8
  const SubidPiece := 12
  const SchemaPiece := 14

  /** The pieces at which two metadata queries can differ, each decided by one parameter. */
  lemma MetadataQueryPieces(p: MetadataQueryParams, q: MetadataQueryParams)
    requires p.ownerField == q.ownerField && p.catalogTable == q.catalogTable
    ensures |MetadataQueryParts(p)| == |MetadataQueryParts(q)| == 16
    ensures forall i | 0 <= i < 16 && i !in {PrivilegesPiece, DescriptionsPiece, SubidPiece, SchemaPiece} ::
      MetadataQueryParts(p)[i] == MetadataQueryParts(q)[i]
  {
  }

  /** The metadata query opens with the oid and the privilege columns. */
  lemma MetadataQueryHead(p: MetadataQueryParams)
    ensures StartsWith(MetadataQuery(p), "SELECT\n\to.oid,\n\t" + PrivilegeColumns(p.aclField))
  {
    JoinStartsWith2(MetadataQueryParts(p));
  }

  /** The owner column names the owner field; the comment column defaults to the empty string. */
  lemma MetadataQueryOwner(p: MetadataQueryParams)
    ensures Contains(MetadataQuery(p), "\n\tpg_get_userbyid(" + p.ownerField + ") AS owner,\n\tcoalesce(description,'') AS comment\n")
  {
    JoinContains3(MetadataQueryParts(p), 2);
  }

  /** The catalog table is outer-joined with the description catalog on the object's oid. */
  lemma MetadataQueryJoin(p: MetadataQueryParams)
    ensures Contains(MetadataQuery(p), " o LEFT JOIN " + DescriptionTable(p.shared) + " d ON (d.objoid = o.oid AND d.classoid = '")
  {
    JoinContains3(MetadataQueryParts(p), 7);
  }

  /** The description must belong to the catalog table's class, and for per-database descriptions to the object itself. */
  lemma MetadataQueryClass(p: MetadataQueryParams)
    ensures Contains(MetadataQuery(p), p.catalogTable + "'::regclass" + SubidCondition(p.shared) + ")")
  {
    JoinContains4(MetadataQueryParts(p), 10);
  }

  /** The metadata query closes with the schema clause and the extension filter. */
  lemma MetadataQueryTail(p: MetadataQueryParams)
    ensures Contains(MetadataQuery(p), SchemaClause(p.schemaField))
    ensures EndsWith(MetadataQuery(p), ")" + SchemaClause(p.schemaField) + ExtensionFilter)
  {
    JoinContains1(MetadataQueryParts(p), SchemaPiece);
    JoinEndsWith3(MetadataQueryParts(p));
  }

  /** A shared object's comments come from pg_shdescription; any other object's from pg_description, restricted to the object itself. */
  lemma MetadataQueryDescriptions(p: MetadataQueryParams)
    ensures p.shared ==> Contains(MetadataQuery(p), "pg_shdescription")
    ensures p.shared ==> Contains(MetadataQuery(p), p.catalogTable + "'::regclass" + ")")
    ensures !p.shared ==> Contains(MetadataQuery(p), "pg_description")
    ensures !p.shared ==> Contains(MetadataQuery(p), p.catalogTable + "'::regclass" + " AND d.objsubid = 0" + ")")
  {
    JoinContains1(MetadataQueryParts(p), DescriptionsPiece);
    MetadataQueryClass(p);
    if p.shared {
      assert p.catalogTable + "'::regclass" + SubidCondition(p.shared) == p.catalogTable + "'::regclass";
    }
  }

  /** With an ACL field the query unnests it and classifies NULL as `Default` and empty as `Empty`; without one both columns are empty strings. */
  lemma MetadataQueryPrivileges(p: MetadataQueryParams)
    ensures p.aclField == "" ==> Contains(MetadataQuery(p), "'' AS privileges,\n\t'' AS kind,")
    ensures p.aclField != "" ==> Contains(MetadataQuery(p), "unnest(" + p.aclField)
    ensures p.aclField != "" ==> Contains(MetadataQuery(p), " IS NULL THEN " + "'Default'")
    ensures p.aclField != "" ==> Contains(MetadataQuery(p), ", 1) = 0 THEN " + "'Empty'")
  {
    var columns := PrivilegeColumns(p.aclField);
    JoinContains1(MetadataQueryParts(p), PrivilegesPiece);
    if p.aclField != "" {
      AclColumnsKinds(p.aclField);
      ContainsTransitive(MetadataQuery(p), columns, "unnest(" + p.aclField);
      ContainsTransitive(MetadataQuery(p), columns, " IS NULL THEN " + "'Default'");
      ContainsTransitive(MetadataQuery(p), columns, ", 1) = 0 THEN " + "'Empty'");
    }
  }

  /** An object in a schema is joined with its namespace and filtered by schema; any other object's query ends right after the description join. */
  lemma MetadataQuerySchema(p: MetadataQueryParams)
    ensures p.schemaField != "" ==> Contains(MetadataQuery(p), "\nJOIN pg_namespace n ON o." + p.schemaField + " = n.oid\nWHERE " + SchemaFilterClause)
    ensures p.schemaField == "" ==> EndsWith(MetadataQuery(p), ")" + ExtensionFilter)
  {
    MetadataQueryTail(p);
    if p.schemaField == "" {
      assert ")" + SchemaClause(p.schemaField) + ExtensionFilter == ")" + ExtensionFilter;
    }
  }

  /** Position of the description catalog, the class table and the sub-object condition in CommentsQueryParts. */
  const CommentDescriptionsPiece := 6
  const ClassTablePiece := 10
  const CommentSubidPiece := 12

  /** The pieces at which two comments queries can differ: the comment table, when set, replaces the catalog table in the class condition. */
  lemma CommentsQueryPieces(p: MetadataQueryParams, q: MetadataQueryParams)
    requires p.oidField == q.oidField && p.catalogTable == q.catalogTable
    ensures |CommentsQueryParts(p)| == |CommentsQueryParts(q)| == 14
    ensures forall i | 0 <= i < 14 && i !in {CommentDescriptionsPiece, ClassTablePiece, CommentSubidPiece} ::
      CommentsQueryParts(p)[i] == CommentsQueryParts(q)[i]
  {
  }

  /** The comments query selects the oid field and the comment, defaulting to the empty string. */
  lemma CommentsQueryHead(p: MetadataQueryParams)
    ensures StartsWith(CommentsQuery(p), "SELECT\n\to." + p.oidField)
    ensures Contains(CommentsQuery(p), "SELECT\n\to." + p.oidField + " AS oid,\n\tcoalesce(description,'') AS comment\n")
  {
    JoinStartsWith2(CommentsQueryParts(p));
    JoinContains3(CommentsQueryParts(p), 0);
  }

  /** The catalog table is joined (inner join: objects without a comment give no row) with the description catalog on the oid field. */
  lemma CommentsQueryJoin(p: MetadataQueryParams)
    ensures Contains(CommentsQuery(p), "FROM " + p.catalogTable + " o JOIN " + DescriptionTable(p.shared))
    ensures Contains(CommentsQuery(p), " d ON (d.objoid = " + p.oidField + " AND d.classoid = '")
  {
    JoinContains4(CommentsQueryParts(p), 3);
    JoinContains3(CommentsQueryParts(p), 7);
  }

  /** The description's class is the comment table when one is set, the catalog table otherwise. */
  lemma CommentsQueryClass(p: MetadataQueryParams)
    ensures p.commentTable != "" ==> Contains(CommentsQuery(p), " AND d.classoid = '" + p.commentTable + "'::regclass")
    ensures p.commentTable == "" ==> Contains(CommentsQuery(p), " AND d.classoid = '" + p.catalogTable + "'::regclass")
  {
    JoinContains3(CommentsQueryParts(p), 9);
  }

  /** A shared object's comments come from pg_shdescription and the query ends right after the class condition; any other object's come from pg_description and must be about the object itself. */
  lemma CommentsQueryDescriptions(p: MetadataQueryParams)
    ensures p.shared ==> Contains(CommentsQuery(p), "pg_shdescription")
    ensures p.shared ==> EndsWith(CommentsQuery(p), "'::regclass" + ");")
    ensures !p.shared ==> Contains(CommentsQuery(p), "pg_description")
    ensures !p.shared ==> EndsWith(CommentsQuery(p), "'::regclass" + " AND d.objsubid = 0" + ");")
  {
    JoinContains1(CommentsQueryParts(p), CommentDescriptionsPiece);
    JoinEndsWith3(CommentsQueryParts(p));
    if p.shared {
      assert "'::regclass" + SubidCondition(p.shared) == "'::regclass";
    }
  }

  /* ------------------------------------------------ result rows */

  /** One row of the metadata query: one aclitem of one object (NULL is None), with the object's owner and comment. */
  datatype MetadataRow = MetadataRow(oid: nat, privileges: Option<string>, kind: string, owner: string, comment: string)

  /** The map after one more row: a new object takes the row's owner and comment; every row adds its entry, if any. */
  function AddMetadataRow(m: MetadataMap, row: MetadataRow): MetadataMap
  {
    var acls := RowAcls(row.privileges, row.kind);
    if row.oid in m then m[row.oid := m[row.oid].(privileges := m[row.oid].privileges + acls)]
    else m[row.oid := ObjectMetadata(acls, row.owner, row.comment)]
  }

  function MetadataOfRows(rows: seq<MetadataRow>): MetadataMap
  {
    if rows == [] then map[] else AddMetadataRow(MetadataOfRows(rows[..|rows| - 1]), rows[|rows| - 1])
  }

  /** The loop body: a new object takes the row's owner and comment, and the row's entry is appended to the object's. */
  method AddMetadataRowTo(m0: MetadataMap, row: MetadataRow) returns (m: MetadataMap)
    ensures m == AddMetadataRow(m0, row)
  {
    var acls := RowAcls(row.privileges, row.kind);
    var metadata := if row.oid in m0 then m0[row.oid].(privileges := m0[row.oid].privileges + acls)
                    else ObjectMetadata(acls, row.owner, row.comment);
    m := m0[row.oid := metadata];
  }

  /** Folds the metadata query's rows into one entry per object. */
  method ConstructMetadataMap(rows: seq<MetadataRow>) returns (m: MetadataMap)
    ensures m == MetadataOfRows(rows)
  {
    m := map[];
    var i := 0;
    while i < |rows|
      invariant 0 <= i <= |rows|
      invariant m == MetadataOfRows(rows[..i])
    {
      assert rows[..i + 1][..i] == rows[..i];
      m := AddMetadataRowTo(m, rows[i]);
      i := i + 1;
    }
    assert rows[..i] == rows;
  }

  /** The first row about an object, if any. */
  function FirstRowFor(rows: seq<MetadataRow>, oid: nat): (r: Option<MetadataRow>)
    ensures r.Some? ==> r.value in rows && r.value.oid == oid
    ensures r.None? ==> forall row :: row in rows ==> row.oid != oid
  {
    if rows == [] then None
    else if rows[0].oid == oid then Some(rows[0])
    else FirstRowFor(rows[1..], oid)
  }

  /** The entries of the rows about an object, in row order. */
  function AclsFor(rows: seq<MetadataRow>, oid: nat): seq<ACL>
  {
    if rows == [] then []
    else
      var last := rows[|rows| - 1];
      AclsFor(rows[..|rows| - 1], oid) + (if last.oid == oid then RowAcls(last.privileges, last.kind) else [])
  }

  lemma {:induction false} FirstRowForSnoc(rows: seq<MetadataRow>, row: MetadataRow, oid: nat)
    ensures FirstRowFor(rows + [row], oid)
         == if FirstRowFor(rows, oid).Some? then FirstRowFor(rows, oid)
            else if row.oid == oid then Some(row) else None
  {
    if rows == [] {
      assert [row][1..] == [];
    } else {
      assert (rows + [row])[1..] == rows[1..] + [row];
      FirstRowForSnoc(rows[1..], row, oid);
    }
  }

  /**
   * An object has an entry exactly when some row is about it; the entry
   * carries the owner and comment of its first row and the entries of all
   * its rows, in row order.
   */
  lemma {:induction false} MetadataOfRowsEntry(rows: seq<MetadataRow>, oid: nat)
    ensures var m := MetadataOfRows(rows);
      && (oid in m <==> FirstRowFor(rows, oid).Some?)
      && (oid in m ==> m[oid] == ObjectMetadata(AclsFor(rows, oid), FirstRowFor(rows, oid).value.owner, FirstRowFor(rows, oid).value.comment))
  {
    if rows != [] {
      var init := rows[..|rows| - 1];
      var last := rows[|rows| - 1];
      assert rows == init + [last];
      var before := MetadataOfRows(init);
      assert MetadataOfRows(rows) == AddMetadataRow(before, last);
      var acls := if last.oid == oid then RowAcls(last.privileges, last.kind) else [];
      assert AclsFor(rows, oid) == AclsFor(init, oid) + acls;
      MetadataOfRowsEntry(init, oid);
      FirstRowForSnoc(init, last, oid);
      if oid in before {
        assert FirstRowFor(rows, oid) == FirstRowFor(init, oid);
      } else if last.oid == oid {
        NoRowsNoAcls(init, oid);
        assert FirstRowFor(rows, oid) == Some(last);
      } else {
        assert FirstRowFor(rows, oid).None?;
      }
    }
  }

  lemma {:induction false} NoRowsNoAcls(rows: seq<MetadataRow>, oid: nat)
    requires forall row :: row in rows ==> row.oid != oid
    ensures AclsFor(rows, oid) == []
  {
    if rows != [] {
      assert rows[|rows| - 1] in rows;
      assert forall r :: r in rows[..|rows| - 1] ==> r in rows;
      NoRowsNoAcls(rows[..|rows| - 1], oid);
    }
  }

  /**
   * Two single-privilege aclitems of one object followed by a row with no
   * ACL for another object: the first object gets both entries in row order,
   * the second no entries; each keeps the owner and comment of its rows.
   */
  lemma TwoObjectsExample(o1: nat, o2: nat, g1: string, g2: string, grantor: string, p: Privilege, owner: string, comment: string)
    requires o1 != o2
    requires '\n' !in g1 && '\n' !in g2 && '\n' !in grantor && '=' !in grantor
    ensures MetadataOfRows([MetadataRow(o1, Some(g1 + "=" + [Letter(p)] + "/" + grantor), "", owner, ""),
                            MetadataRow(o1, Some(g2 + "=" + [Letter(p)] + "/" + grantor), "", owner, ""),
                            MetadataRow(o2, Some(""), "", owner, comment)])
         == map[o1 := ObjectMetadata([ACL(g1, {p}), ACL(g2, {p})], owner, ""),
                o2 := ObjectMetadata([], owner, comment)]
  {
    SingleLetterRow(g1, p, grantor, "");
    SingleLetterRow(g2, p, grantor, "");
    NullRow(Some(""), "");
    TwoObjectsFold(MetadataRow(o1, Some(g1 + "=" + [Letter(p)] + "/" + grantor), "", owner, ""),
                   MetadataRow(o1, Some(g2 + "=" + [Letter(p)] + "/" + grantor), "", owner, ""),
                   MetadataRow(o2, Some(""), "", owner, comment),
                   ACL(g1, {p}), ACL(g2, {p}));
  }

  lemma TwoObjectsFold(r0: MetadataRow, r1: MetadataRow, r2: MetadataRow, e0: ACL, e1: ACL)
    requires r0.oid == r1.oid != r2.oid && r0.owner == r1.owner
    requires RowAcls(r0.privileges, r0.kind) == [e0] && RowAcls(r1.privileges, r1.kind) == [e1]
    requires RowAcls(r2.privileges, r2.kind) == []
    ensures MetadataOfRows([r0, r1, r2])
         == map[r0.oid := ObjectMetadata([e0, e1], r0.owner, r0.comment),
                r2.oid := ObjectMetadata([], r2.owner, r2.comment)]
  {
    SameObjectFold(r0, r1, e0, e1);
    assert [r0, r1, r2][..2] == [r0, r1];
  }

  lemma SameObjectFold(r0: MetadataRow, r1: MetadataRow, e0: ACL, e1: ACL)
    requires r0.oid == r1.oid
    requires RowAcls(r0.privileges, r0.kind) == [e0] && RowAcls(r1.privileges, r1.kind) == [e1]
    ensures MetadataOfRows([r0, r1]) == map[r0.oid := ObjectMetadata([e0, e1], r0.owner, r0.comment)]
  {
    assert [r0][..0] == [];
    assert MetadataOfRows([r0]) == map[r0.oid := ObjectMetadata([e0], r0.owner, r0.comment)];
    assert [r0, r1][..1] == [r0];
    assert [e0] + [e1] == [e0, e1];
  }

  /* ------------------------------------------------ comment rows */

  /** One row of the comments query. */
  datatype CommentRow = CommentRow(oid: nat, comment: string)

  function CommentsOfRows(rows: seq<CommentRow>): MetadataMap
  {
    if rows == [] then map[]
    else
      var last := rows[|rows| - 1];
      CommentsOfRows(rows[..|rows| - 1])[last.oid := ObjectMetadata([], "", last.comment)]
  }

  /** Maps every row's object to metadata holding only that row's comment. */
  method ConstructCommentsMap(rows: seq<CommentRow>) returns (m: MetadataMap)
    ensures m == CommentsOfRows(rows)
  {
    m := map[];
    var i := 0;
    while i < |rows|
      invariant 0 <= i <= |rows|
      invariant m == CommentsOfRows(rows[..i])
    {
      m := m[rows[i].oid := ObjectMetadata([], "", rows[i].comment)];
      assert rows[..i + 1][..i] == rows[..i];
      i := i + 1;
    }
    assert rows[..i] == rows;
  }

  /** The last row about an object, if any. */
  function LastRowFor(rows: seq<CommentRow>, oid: nat): (r: Option<CommentRow>)
    ensures r.Some? ==> r.value in rows && r.value.oid == oid
    ensures r.None? ==> forall row :: row in rows ==> row.oid != oid
  {
    if rows == [] then None
    else if rows[|rows| - 1].oid == oid then Some(rows[|rows| - 1])
    else
      var r := LastRowFor(rows[..|rows| - 1], oid);
      assert forall row :: row in rows ==> row in rows[..|rows| - 1] || row == rows[|rows| - 1];
      r
  }

  /** An object has an entry exactly when some row is about it: no privileges, no owner, and the comment of its last row. */
  lemma {:induction false} CommentsOfRowsEntry(rows: seq<CommentRow>, oid: nat)
    ensures var m := CommentsOfRows(rows);
      && (oid in m <==> LastRowFor(rows, oid).Some?)
      && (oid in m ==> m[oid] == ObjectMetadata([], "", LastRowFor(rows, oid).value.comment))
  {
    if rows != [] {
      CommentsOfRowsEntry(rows[..|rows| - 1], oid);
    }
  }
}
