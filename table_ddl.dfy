/**
 * CREATE TABLE for ordinary (non-external) tables, the ALTER COLUMN
 * statements that follow it, and the comments, owner and column privileges
 * printed after the table is created.
 */
module TableDdl {
  import opened Wrappers
  import opened Strings
  import opened Acl
  import opened Relations
  import opened Toc

  /* ------------------------------------------------ column list */

  /**
   * One line of the column list. A typed table (`OF type`) takes type,
   * default and encoding from its type, so its lines only name the column
   * and may add NOT NULL.
   */
  function ColumnLine(c: ColumnDefinition, typed: bool): string
  {
    if typed then TypedColumnLine(c) else UntypedColumnLine(c)
  }

  function TypedColumnLine(c: ColumnDefinition): string
  {
    "\t" + c.name + " WITH OPTIONS" + (if c.notNull then " NOT NULL" else "")
  }

  function UntypedColumnLine(c: ColumnDefinition): string
  {
    "\t" + c.name + " " + c.columnType
    + (if c.hasDefault then " DEFAULT " + c.defaultVal else "")
    + (if c.notNull then " NOT NULL" else "")
    + (if c.encoding != "" then " ENCODING (" + c.encoding + ")" else "")
  }

  function ColumnLines(cols: seq<ColumnDefinition>, typed: bool): (r: seq<string>)
    ensures |r| == |cols|
    ensures forall i :: 0 <= i < |cols| ==> r[i] == ColumnLine(cols[i], typed)
  {
    if cols == [] then [] else ColumnLines(cols[..|cols| - 1], typed) + [ColumnLine(cols[|cols| - 1], typed)]
  }

  /** A column that is neither typed nor encoded ends its line with NOT NULL exactly when it is declared NOT NULL. */
  lemma ColumnLineEndings(c: ColumnDefinition, typed: bool)
    ensures typed ==> ColumnLine(c, typed) == "\t" + c.name + " WITH OPTIONS" + (if c.notNull then " NOT NULL" else "")
    ensures !typed && c.encoding != "" ==> EndsWith(ColumnLine(c, typed), " ENCODING (" + c.encoding + ")")
    ensures !typed && c.encoding == "" && c.notNull ==> EndsWith(ColumnLine(c, typed), " NOT NULL")
    ensures !typed && c.encoding == "" && !c.notNull && c.hasDefault ==> EndsWith(ColumnLine(c, typed), " DEFAULT " + c.defaultVal)
    ensures !typed && c.encoding == "" && !c.notNull && !c.hasDefault ==> ColumnLine(c, typed) == "\t" + c.name + " " + c.columnType
  {
    if !typed {
      var head := "\t" + c.name + " " + c.columnType;
      var d := if c.hasDefault then " DEFAULT " + c.defaultVal else "";
      var n := if c.notNull then " NOT NULL" else "";
      var e := if c.encoding != "" then " ENCODING (" + c.encoding + ")" else "";
      assert ColumnLine(c, typed) == (head + d + n) + e;
      if c.encoding == "" {
        assert ColumnLine(c, typed) == (head + d) + n;
        if !c.notNull {
          assert ColumnLine(c, typed) == head + d;
        }
      }
    }
  }

  /* ------------------------------------------------ table clauses */

  /** The partition clause: the partition definition after one space, white space around it removed. */
  function PartitionClause(partDef: string): string
  {
    if partDef != "" then " " + TrimSpace(partDef) else ""
  }

  /** What follows the closing parenthesis: INHERITS, WITH and TABLESPACE when set, the distribution policy, the partition clause. */
  function TableClauses(table: Relation, def: TableDefinition): string
  {
    (if table.inherits != [] then "INHERITS (" + Join(table.inherits, ", ") + ") " else "")
    + (if def.storageOpts != "" then "WITH (" + def.storageOpts + ") " else "")
    + (if def.tablespaceName != "" then "TABLESPACE " + def.tablespaceName + " " else "")
    + def.distPolicy
    + PartitionClause(def.partDef)
  }

  /** The clauses open with INHERITS when the table inherits, followed by WITH when storage options are set. */
  lemma TableClausesStart(table: Relation, def: TableDefinition)
    ensures var r := TableClauses(table, def);
      var inherits := "INHERITS (" + Join(table.inherits, ", ") + ") ";
      var with := "WITH (" + def.storageOpts + ") ";
      && (table.inherits != [] ==> StartsWith(r, inherits))
      && (table.inherits != [] && def.storageOpts != "" ==> StartsWith(r, inherits + with))
      && (table.inherits == [] && def.storageOpts != "" ==> StartsWith(r, with))
  {
    var inherits := if table.inherits != [] then "INHERITS (" + Join(table.inherits, ", ") + ") " else "";
    var with := if def.storageOpts != "" then "WITH (" + def.storageOpts + ") " else "";
    var tablespace := if def.tablespaceName != "" then "TABLESPACE " + def.tablespaceName + " " else "";
    assert TableClauses(table, def) == inherits + with + tablespace + (def.distPolicy + PartitionClause(def.partDef));
    FourPiecesStart(inherits, with, tablespace, def.distPolicy + PartitionClause(def.partDef));
  }

  /**
   * TABLESPACE, when set, follows WITH directly; the clauses always end
   * with the distribution policy and the partition clause, and consist of
   * nothing else when no other clause is set.
   */
  lemma TableClausesEnd(table: Relation, def: TableDefinition)
    ensures var r := TableClauses(table, def);
      var with := "WITH (" + def.storageOpts + ") ";
      var tablespace := "TABLESPACE " + def.tablespaceName + " ";
      var tail := def.distPolicy + PartitionClause(def.partDef);
      && (def.storageOpts != "" && def.tablespaceName != "" ==> Contains(r, with + tablespace))
      && (def.tablespaceName != "" ==> EndsWith(r, tablespace + tail))
      && (table.inherits == [] && def.storageOpts == "" && def.tablespaceName == "" ==> r == tail)
      && EndsWith(r, tail)
  {
    var inherits := if table.inherits != [] then "INHERITS (" + Join(table.inherits, ", ") + ") " else "";
    var with := if def.storageOpts != "" then "WITH (" + def.storageOpts + ") " else "";
    var tablespace := if def.tablespaceName != "" then "TABLESPACE " + def.tablespaceName + " " else "";
    assert TableClauses(table, def) == inherits + with + tablespace + (def.distPolicy + PartitionClause(def.partDef));
    FourPiecesEnd(inherits, with, tablespace, def.distPolicy + PartitionClause(def.partDef));
  }

  /** The first line of CREATE TABLE, up to the opening parenthesis. */
  function CreateTableHeader(table: Relation, def: TableDefinition): string
  {
    var typeStr := if def.tableType != "" then "OF " + def.tableType + " " else "";
    "CREATE TABLE " + table.FQN() + " " + typeStr + "("
  }

  /** The line that closes the column list: the table clauses and the terminating semicolon. */
  function ClosingLine(table: Relation, def: TableDefinition): string
  {
    ") " + TableClauses(table, def) + ";"
  }

  /** The CREATE TABLE statement itself. */
  function CreateTableStatement(table: Relation, def: TableDefinition): string
  {
    ListStatement(CreateTableHeader(table, def), ColumnLines(def.columnDefs, def.tableType != ""), ClosingLine(table, def))
  }

  /** The subpartition template, white space around it removed, as a statement of its own; nothing when there is none. */
  function TemplateText(partTemplateDef: string): string
  {
    if partTemplateDef != "" then TrimSpace(partTemplateDef) + ";\n" else ""
  }

  /* ------------------------------------------------ ALTER COLUMN */

  function AlterColumnPrefix(fqn: string, name: string): string
  {
    "ALTER TABLE ONLY " + fqn + " ALTER COLUMN " + name
  }

  function SetStatistics(fqn: string, c: ColumnDefinition): string
  {
    AlterColumnPrefix(fqn, c.name) + " SET STATISTICS " + IntToString(c.statTarget) + ";"
  }

  function SetStorage(fqn: string, c: ColumnDefinition): string
  {
    AlterColumnPrefix(fqn, c.name) + " SET STORAGE " + c.storageType + ";"
  }

  function SetOptions(fqn: string, c: ColumnDefinition): string
  {
    AlterColumnPrefix(fqn, c.name) + " SET (" + c.options + ");"
  }

  /** The ALTER COLUMN statements for one column: statistics target when not -1, storage type and options when set. */
  function AlterColumnStatements(fqn: string, c: ColumnDefinition): (r: seq<string>)
    ensures |r| == (if c.statTarget != -1 then 1 else 0) + (if c.storageType != "" then 1 else 0) + (if c.options != "" then 1 else 0)
  {
    (if c.statTarget != -1 then [SetStatistics(fqn, c)] else [])
    + (if c.storageType != "" then [SetStorage(fqn, c)] else [])
    + (if c.options != "" then [SetOptions(fqn, c)] else [])
  }

  /**
   * Each statement is present exactly when its field is set, and they come
   * in the order statistics, storage, options: with the count above this
   * fixes the list.
   */
  lemma AlterColumnStatementsOrder(fqn: string, c: ColumnDefinition)
    ensures SetStatistics(fqn, c) in AlterColumnStatements(fqn, c) <==> c.statTarget != -1
    ensures SetStorage(fqn, c) in AlterColumnStatements(fqn, c) <==> c.storageType != ""
    ensures SetOptions(fqn, c) in AlterColumnStatements(fqn, c) <==> c.options != ""
    ensures c.statTarget != -1 ==> AlterColumnStatements(fqn, c)[0] == SetStatistics(fqn, c)
    ensures c.options != "" ==> AlterColumnStatements(fqn, c)[|AlterColumnStatements(fqn, c)| - 1] == SetOptions(fqn, c)
  {
    AlterColumnStatementsDistinct(fqn, c);
  }

  /** The three statements differ right after SET: STATISTICS, STORAGE and a parenthesised option list. */
  lemma AlterColumnStatementsDistinct(fqn: string, c: ColumnDefinition)
    ensures SetStatistics(fqn, c) != SetStorage(fqn, c)
    ensures SetStatistics(fqn, c) != SetOptions(fqn, c)
    ensures SetStorage(fqn, c) != SetOptions(fqn, c)
  {
    var n := |AlterColumnPrefix(fqn, c.name)|;
    assert SetStatistics(fqn, c)[n + 7] == 'A';
    assert SetStorage(fqn, c)[n + 7] == 'O';
    assert SetStatistics(fqn, c)[n + 5] == 'S' && SetStorage(fqn, c)[n + 5] == 'S';
    assert SetOptions(fqn, c)[n + 5] == '(';
  }

  /** The statements of one column, each on a line of its own. */
  function AlterColumnText(fqn: string, c: ColumnDefinition): string
  {
    var statements := AlterColumnStatements(fqn, c);
    if statements == [] then "" else "\n" + Join(statements, "\n")
  }

  /** The ALTER COLUMN statements of every column, in column order. */
  function AlterColumnsText(fqn: string, cols: seq<ColumnDefinition>): string
  {
    if cols == [] then "" else AlterColumnsText(fqn, cols[..|cols| - 1]) + AlterColumnText(fqn, cols[|cols| - 1])
  }

  /** CREATE TABLE on lines of its own, then the subpartition template. */
  function TableStatementText(table: Relation, def: TableDefinition): string
  {
    "\n\n" + CreateTableStatement(table, def) + "\n" + TemplateText(def.partTemplateDef)
  }

  /** The whole text PrintRegularTableCreateStatement writes. */
  function RegularTableText(table: Relation, def: TableDefinition): string
  {
    TableStatementText(table, def) + AlterColumnsText(table.FQN(), def.columnDefs)
  }

  /** Builds the column list one line per column, in column order. */
  method ColumnDefinitionLines(cols: seq<ColumnDefinition>, typed: bool) returns (lines: seq<string>)
    ensures lines == ColumnLines(cols, typed)
  {
    lines := [];
    var i := 0;
    while i < |cols|
      invariant 0 <= i <= |cols|
      invariant lines == ColumnLines(cols[..i], typed)
    {
      lines := lines + [ColumnLine(cols[i], typed)];
      assert cols[..i + 1][..i] == cols[..i];
      i := i + 1;
    }
    assert cols[..i] == cols;
  }

  /** Writes the ALTER COLUMN statements of every column, in column order. */
  method PrintAlterColumnStatements(file: PredataFile, fqn: string, cols: seq<ColumnDefinition>)
    modifies file
    ensures file.contents == old(file.contents) + AlterColumnsText(fqn, cols)
    ensures file.entries == old(file.entries)
  {
    var i := 0;
    while i < |cols|
      invariant 0 <= i <= |cols|
      invariant file.contents == old(file.contents) + AlterColumnsText(fqn, cols[..i])
      invariant file.entries == old(file.entries)
    {
      file.Write(AlterColumnText(fqn, cols[i]));
      AppendAssoc(old(file.contents), AlterColumnsText(fqn, cols[..i]), AlterColumnText(fqn, cols[i]));
      assert cols[..i + 1][..i] == cols[..i];
      i := i + 1;
    }
    assert cols[..i] == cols;
  }

  /** Writes CREATE TABLE, the subpartition template and the ALTER COLUMN statements, and records one TABLE entry. */
  method PrintRegularTableCreateStatement(file: PredataFile, table: Relation, def: TableDefinition)
    modifies file
    ensures file.contents == old(file.contents) + RegularTableText(table, def)
    ensures file.entries == old(file.entries) + [TocEntry(table.schema, "", table.name, Keyword(Table))]
  {
    var lines := ColumnDefinitionLines(def.columnDefs, def.tableType != "");
    var statement := ListStatement(CreateTableHeader(table, def), lines, ClosingLine(table, def));
    file.Write("\n\n" + statement + "\n" + TemplateText(def.partTemplateDef));
    PrintAlterColumnStatements(file, table.FQN(), def.columnDefs);
    AppendAssoc(old(file.contents), TableStatementText(table, def), AlterColumnsText(table.FQN(), def.columnDefs));
    file.AddEntry(TocEntry(table.schema, "", table.name, Keyword(Table)));
  }

  /* ------------------------------------------------ properties of the table text */

  /** No line break in a table's names, fields or columns. */
  predicate SingleLineFields(table: Relation, def: TableDefinition)
  {
    && '\n' !in table.schema && '\n' !in table.name && '\n' !in def.tableType
    && (forall p :: p in table.inherits ==> '\n' !in p)
    && '\n' !in def.storageOpts && '\n' !in def.tablespaceName && '\n' !in def.distPolicy
    && (forall c :: c in def.columnDefs ==> '\n' !in ColumnLine(c, def.tableType != ""))
  }

  /**
   * CREATE TABLE is one line for the header, one tab-indented line per
   * column in column order, each but the last followed by a comma, and one
   * closing line with the table clauses; no columns gives `(` and `)` on
   * consecutive lines.
   */
  lemma CreateTableLines(table: Relation, def: TableDefinition)
    requires SingleLineFields(table, def)
    requires '\n' !in PartitionClause(def.partDef)
    ensures Split(CreateTableStatement(table, def), '\n')
      == [CreateTableHeader(table, def)] + Punctuated(ColumnLines(def.columnDefs, def.tableType != ""), ",") + [ClosingLine(table, def)]
  {
    TableClausesSingleLine(table, def);
    ColumnLinesSingleLine(def.columnDefs, def.tableType != "");
    ListStatementLines(CreateTableHeader(table, def), ColumnLines(def.columnDefs, def.tableType != ""), ClosingLine(table, def));
  }

  lemma ColumnLinesSingleLine(cols: seq<ColumnDefinition>, typed: bool)
    requires forall c :: c in cols ==> '\n' !in ColumnLine(c, typed)
    ensures forall l :: l in ColumnLines(cols, typed) ==> '\n' !in l
  {
    var lines := ColumnLines(cols, typed);
    forall l | l in lines
      ensures '\n' !in l
    {
      var k :| 0 <= k < |lines| && lines[k] == l;
      assert cols[k] in cols;
    }
  }

  lemma TableClausesSingleLine(table: Relation, def: TableDefinition)
    requires SingleLineFields(table, def)
    requires '\n' !in PartitionClause(def.partDef)
    ensures '\n' !in ClosingLine(table, def)
  {
    JoinWithout(table.inherits, ", ", '\n');
    var inherits := if table.inherits != [] then "INHERITS (" + Join(table.inherits, ", ") + ") " else "";
    var with := if def.storageOpts != "" then "WITH (" + def.storageOpts + ") " else "";
    var tablespace := if def.tablespaceName != "" then "TABLESPACE " + def.tablespaceName + " " else "";
    assert '\n' !in inherits && '\n' !in with && '\n' !in tablespace;
    NoBreakIn5(inherits, with, tablespace, def.distPolicy, PartitionClause(def.partDef));
    assert TableClauses(table, def) == inherits + with + tablespace + def.distPolicy + PartitionClause(def.partDef);
  }

  lemma NoBreakIn5(a: string, b: string, c: string, d: string, e: string)
    requires '\n' !in a && '\n' !in b && '\n' !in c && '\n' !in d && '\n' !in e
    ensures '\n' !in a + b + c + d + e
    ensures '\n' !in ") " + (a + b + c + d + e) + ";"
  {
  }


  /**
   * A partition definition that is surrounded by white space (it ends with
   * a line break as the catalog returns it) follows the distribution policy
   * after exactly one space, the white space dropped.
   */
  lemma PartitionClauseTrimmed(before: string, definition: string, after: string)
    requires AllSpace(before) && AllSpace(after)
    requires definition != [] && !IsSpace(definition[0]) && !IsSpace(definition[|definition| - 1])
    ensures PartitionClause(before + definition + after) == " " + definition
    ensures TemplateText(before + definition + after) == definition + ";\n"
  {
    TrimSpaceAround(before, definition, after);
  }

  lemma AlterColumnStatementsSingleLine(fqn: string, c: ColumnDefinition)
    requires '\n' !in fqn && '\n' !in c.name && '\n' !in c.storageType && '\n' !in c.options
    ensures forall s :: s in AlterColumnStatements(fqn, c) ==> '\n' !in s
  {
    IntToStringSingleLine(c.statTarget);
  }

  /** Each ALTER COLUMN statement of a column is a line of its own. */
  lemma AlterColumnLines(fqn: string, c: ColumnDefinition)
    requires '\n' !in fqn && '\n' !in c.name && '\n' !in c.storageType && '\n' !in c.options
    ensures var statements := AlterColumnStatements(fqn, c);
      statements != [] ==> Split(AlterColumnText(fqn, c), '\n') == [""] + statements
  {
    var statements := AlterColumnStatements(fqn, c);
    if statements != [] {
      AlterColumnStatementsSingleLine(fqn, c);
      SplitJoin(statements, '\n');
      assert "\n" + Join(statements, "\n") == [] + ['\n'] + Join(statements, "\n");
      SplitAfter([], '\n', Join(statements, "\n"));
    }
  }

  /* ------------------------------------------------ after the table is created */

  /** The statements about one column printed after the table: its comment, then its privilege block; each only when there is one. */
  function ColumnMetadataText(fqn: string, owner: string, c: ColumnDefinition): string
  {
    Block(if c.comment == "" then "" else CommentStatement(Column, fqn + "." + c.name, c.comment))
    + Block(PrivilegesStatements(ObjectMetadata(c.acl, owner, ""), Column, fqn, Some(c.name)))
  }

  function ColumnMetadataTextIn(fqn: string, owner: string): ColumnDefinition -> string
  {
    (c: ColumnDefinition) => ColumnMetadataText(fqn, owner, c)
  }

  /** The statements about every column, in column order. */
  function ColumnsMetadataText(fqn: string, owner: string, cols: seq<ColumnDefinition>): string
  {
    TextsFor(cols, ColumnMetadataTextIn(fqn, owner))
  }

  /** The whole text PrintPostCreateTableStatements writes: the table's metadata, then each column's, in column order. */
  function PostCreateText(table: Relation, def: TableDefinition, m: ObjectMetadata): string
  {
    ObjectMetadataText(m, Table, table.FQN()) + ColumnsMetadataText(table.FQN(), m.owner, def.columnDefs)
  }

  /** Writes every column's comment and privileges, in column order. */
  method PrintColumnsMetadata(file: PredataFile, fqn: string, owner: string, cols: seq<ColumnDefinition>)
    modifies file
    ensures file.contents == old(file.contents) + ColumnsMetadataText(fqn, owner, cols)
    ensures file.entries == old(file.entries)
  {
    WriteEach(file, cols, ColumnMetadataTextIn(fqn, owner));
  }

  /** Writes the table's comment, owner and privileges, then every column's comment and privileges; no table-of-contents entry. */
  method PrintPostCreateTableStatements(file: PredataFile, table: Relation, def: TableDefinition, m: ObjectMetadata)
    modifies file
    ensures file.contents == old(file.contents) + PostCreateText(table, def, m)
    ensures file.entries == old(file.entries)
  {
    file.Write(ObjectMetadataText(m, Table, table.FQN()));
    PrintColumnsMetadata(file, table.FQN(), m.owner, def.columnDefs);
    AppendAssoc(old(file.contents), ObjectMetadataText(m, Table, table.FQN()), ColumnsMetadataText(table.FQN(), m.owner, def.columnDefs));
  }

  /** A privilege block is empty exactly when there are no entries. */
  lemma PrivilegesStatementsEmpty(m: ObjectMetadata, t: ObjectType, name: string, column: Option<string>)
    ensures PrivilegesStatements(m, t, name, column) == "" <==> m.privileges == []
  {
    if m.privileges != [] {
      var target := Target(t, name, column);
      JoinPrefix(RevokeStatements(target, m.owner) + GrantStatements(m.privileges, t, target), "\n");
    }
  }

  /** Nothing is printed for a column exactly when it has neither a comment nor privilege entries. */
  lemma ColumnMetadataTextEmpty(fqn: string, owner: string, c: ColumnDefinition)
    ensures ColumnMetadataText(fqn, owner, c) == "" <==> c.comment == "" && c.acl == []
  {
    PrivilegesStatementsEmpty(ObjectMetadata(c.acl, owner, ""), Column, fqn, Some(c.name));
  }

  /**
   * A column's privilege block revokes everything on the column from PUBLIC
   * and from the table owner, then grants each entry's privileges on the
   * column, one line each.
   */
  lemma ColumnPrivilegeLines(fqn: string, owner: string, c: ColumnDefinition)
    requires c.acl != []
    requires '\n' !in fqn && '\n' !in owner && '\n' !in c.name
    requires forall a :: a in c.acl ==> '\n' !in a.grantee
    ensures var target := Target(Column, fqn, Some(c.name));
      Split(PrivilegesStatements(ObjectMetadata(c.acl, owner, ""), Column, fqn, Some(c.name)), '\n')
      == ["REVOKE ALL " + target + " FROM PUBLIC;"]
         + (if owner != "" then ["REVOKE ALL " + target + " FROM " + owner + ";"] else [])
         + GrantStatements(c.acl, Column, target)
  {
    PrivilegesStatementsLines(ObjectMetadata(c.acl, owner, ""), Column, fqn, Some(c.name));
  }

  /** The target of a column statement names the column, then the table. */
  lemma ColumnTarget(fqn: string, column: string)
    ensures Target(Column, fqn, Some(column)) == "(" + column + ") ON TABLE " + fqn
  {
    assert "(" + column + ") " + "ON " + "TABLE " + fqn == "(" + column + ") ON TABLE " + fqn;
  }

  /** A column grant says ALL exactly when the entry holds SELECT, INSERT, UPDATE and REFERENCES. */
  lemma ColumnGrantAll(a: ACL, target: string)
    ensures var g := GrantStatement(a, Column, target);
      (|g| >= 10 && g[..10] == "GRANT ALL ") <==> {Select, Insert, Update, References} <= a.granted
  {
    GrantStatementAll(a, Column, target);
  }
}
