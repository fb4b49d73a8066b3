# Predata DDL printers of gpbackup, modelled in Dafny

gpbackup writes a Greenplum database's schema as the "predata" section of a backup. That section is a
text file of SQL statements plus a table of contents (TOC). Each TOC entry records the schema, name and
object-type tag of one printed object.

This project models the parts of the `ddl` package that turn catalog rows into that text:

- **Catalog metadata folding** (`queries_shared.dfy`, `acl.dfy`):
  - the text of the metadata and comments queries;
  - parsing `aclitem` strings such as `gpadmin=a/gpadmin`;
  - folding query rows into one `ObjectMetadata` per object oid: privileges, owner and comment.
- **Column privileges** (`column_privileges.dfy`): folding column-privilege rows into a map from table oid, then column name, to ACL entries.
- **Partition handling** (`partitions.dfy`):
  - splitting the relation list into the metadata list and the data list;
  - the `_ext_part_` suffix for external leaf partitions;
  - expanding the include list.
- **Tables** (`table_ddl.dfy`):
  - `CREATE TABLE` with its column list, table clauses and subpartition template;
  - the `ALTER COLUMN` statements that follow it;
  - the comments, owner and column privileges printed after a table is created.
- **Sequences and views** (`sequence_view_ddl.dfy`): `CREATE SEQUENCE` with `setval`, `CREATE VIEW`, and `ALTER SEQUENCE ... OWNED BY`.
- **Text search objects** (`textsearch_ddl.dfy`): parsers, templates, dictionaries and configurations.
- **Shared pieces**:
  - `toc.dfy`: the output file and TOC as one object updated in place, and the loop every printer runs;
  - `strings.dfy`: Go string helpers (`Join`, `Split`, `TrimSpace`, integer formatting, `sort.Strings`);
  - `relations.dfy`: the catalog records;
  - `wrappers.dfy`: an `Option` type.

The output file is a class, `Toc.PredataFile`, with two fields: `contents` (the text written so far) and
`entries` (the TOC). Each printer is a method that `modifies` the file. Its postcondition gives the new
contents as the old contents followed by a text function of the printed objects. It also gives the new
TOC as the old one followed by one entry per object. The lemmas then prove what that text promises:
- line structure;
- which optional clauses appear, and exactly when;
- orderings;
- that quoted literals and `aclitem`s read back as the values written.

The behaviour is taken from the unit tests of the three core files. Those tests pin the exact output of
every printer. Where the model settles a behaviour the tests leave open, "Left out" says how.

## Model

| member | source | states |
|---|---|---|
| QueriesShared.MetadataQueryPieces | ddl/queries_shared_test.go:24-82 | Two metadata queries with the same owner field and catalog table agree everywhere except in four pieces: the privilege columns, the description catalog, the sub-object condition and the schema clause |
| QueriesShared.AclColumnsKinds | ddl/queries_shared_test.go:51-69 | The ACL columns unnest the ACL field; a NULL ACL gets kind `Default` and an ACL with no items gets kind `Empty` |
| QueriesShared.MetadataQueryHead | ddl/queries_shared_test.go:24-30 | The assembled metadata query starts with `SELECT o.oid` followed by the privilege columns |
| QueriesShared.MetadataQueryOwner | ddl/queries_shared_test.go:29-30 | The assembled query selects `pg_get_userbyid(<owner field>) AS owner` and the comment, defaulting to `''` |
| QueriesShared.MetadataQueryJoin | ddl/queries_shared_test.go:31 | The catalog table is LEFT JOINed with the description catalog on `d.objoid = o.oid` |
| QueriesShared.MetadataQueryClass | ddl/queries_shared_test.go:31 | The query holds the `classoid` condition on the catalog table, followed by the sub-object condition |
| QueriesShared.MetadataQueryTail | ddl/queries_shared_test.go:31-47 | The query contains the schema clause and ends with `)`, the schema clause and the extension filter with `ORDER BY o.oid;` |
| QueriesShared.MetadataQueryDescriptions | ddl/queries_shared_test.go:24-82 | A shared object's query contains `pg_shdescription` and `'::regclass)` with no sub-object condition. Any other object's contains `pg_description` and `'::regclass AND d.objsubid = 0)` |
| QueriesShared.MetadataQueryPrivileges | ddl/queries_shared_test.go:24-69 | Without an ACL field the query selects `'' AS privileges, '' AS kind`. With one it contains `unnest(<acl>`, `IS NULL THEN 'Default'` and `= 0 THEN 'Empty'` |
| QueriesShared.MetadataQuerySchema | ddl/queries_shared_test.go:36-50 | With a schema field the query contains the namespace join on that field and the schema filter. Without one it ends with `)` and the extension filter |
| QueriesShared.SchemaClause | ddl/queries_shared_test.go:36-50 | The namespace join and schema filter are empty exactly when there is no schema field |
| QueriesShared.CommentsQueryPieces | ddl/queries_shared_test.go:112-134 | Two comments queries with the same oid field and catalog table differ only in the description catalog, the class table and the sub-object condition |
| QueriesShared.CommentsQueryHead | ddl/queries_shared_test.go:112-118 | The assembled comments query starts with `SELECT o.<oid field>` and selects the oid and the comment, defaulting to `''` |
| QueriesShared.CommentsQueryJoin | ddl/queries_shared_test.go:112-118 | The catalog table is inner-joined with the description catalog on `d.objoid = <oid field>` |
| QueriesShared.CommentsQueryClass | ddl/queries_shared_test.go:112-126 | The `classoid` condition names the comment table when one is set, and the catalog table otherwise |
| QueriesShared.CommentsQueryDescriptions | ddl/queries_shared_test.go:112-134 | A shared object's query contains `pg_shdescription` and ends with `'::regclass);`. Any other object's contains `pg_description` and ends with `'::regclass AND d.objsubid = 0);` |
| QueriesShared.AddMetadataRowTo | ddl/queries_shared_test.go:83-102 | One loop step gives the map after that row: a new object takes the row's owner and comment, and the row's entry is appended |
| QueriesShared.ConstructMetadataMap | ddl/queries_shared_test.go:83-102 | The row loop builds exactly the map of the row-fold specification |
| QueriesShared.FirstRowFor | ddl/queries_shared_test.go:83-102 | The first row about an object is one of the rows and is about that object. None is returned only when no row is about it |
| QueriesShared.MetadataOfRowsEntry | ddl/queries_shared_test.go:83-102 | An object has an entry exactly when some row is about it. Its privileges are the entries of all its rows in row order; its owner and comment come from its first row |
| QueriesShared.NoRowsNoAcls | ddl/queries_shared_test.go:83-102 | An object no row is about collects no entries |
| QueriesShared.FirstRowForSnoc | ddl/queries_shared_test.go:83-102 | Appending a row keeps an existing first row, and makes the new row first only for an object not yet seen |
| QueriesShared.TwoObjectsExample | ddl/queries_shared_test.go:83-102 | Two single-privilege rows for one object followed by an empty-privilege row for another give exactly two entries: the first with both grants in order, the second with no privileges and its own comment |
| QueriesShared.TwoObjectsFold | ddl/queries_shared_test.go:83-102 | Two rows of one object followed by a row of another, adding no entry, fold into two map entries |
| QueriesShared.SameObjectFold | ddl/queries_shared_test.go:92-95 | Two rows of one object merge into one entry whose privileges are both rows' entries in row order |
| QueriesShared.ConstructCommentsMap | ddl/queries_shared_test.go:135-149 | The row loop builds exactly the map of the comments-fold specification |
| QueriesShared.LastRowFor | ddl/queries_shared_test.go:135-149 | The last row about an object is one of the rows and is about it. None is returned only when no row is about it |
| QueriesShared.CommentsOfRowsEntry | ddl/queries_shared_test.go:135-149 | An object has an entry exactly when a row is about it. The entry has no privileges, no owner, and the comment of the object's last row |
| Acl.ParseAclItem | ddl/queries_shared_test.go:84-95 | Every aclitem `grantee=letters/grantor` the catalog writes parses back to the entry it was written from |
| Acl.ParseAclText | ddl/queries_shared_test.go:84-95 | An aclitem with the given grantee, privilege letters and grantor parses to that grantee holding the privileges named by the letters |
| Acl.SingleLetterItem | ddl/queries_shared_test.go:84-95 | An aclitem with one letter (`a` for INSERT) parses to that single privilege |
| Acl.AclItemSplit | ddl/queries_shared_test.go:84-95 | The greedy pattern splits an aclitem at the `=` after the grantee, even when the grantee itself contains `=` |
| Acl.ParseEmptyACL | ddl/queries_shared_test.go:86 | An empty privileges string parses to no entry |
| Acl.LastSplit | ddl/queries_shared_test.go:84-95 | The split position found is the last one below the bound at which the pattern matches; None means there is none |
| Acl.LastSplitFinds | ddl/queries_shared_test.go:84-95 | When `i` is a match and no later position below the bound is, the search finds `i` |
| Acl.PrivilegeRun | ddl/queries_shared_test.go:84-95 | The privilege-letter run is maximal: every character in it is a privilege letter, and the character after it is not |
| Acl.PrivilegeRunAfterLetters | ddl/queries_shared_test.go:84-95 | Letters followed by a non-letter form a run of exactly their length |
| Acl.LettersOfMember | ddl/queries_shared_test.go:84-95 | A privilege's letter is in an entry's letter string exactly when the entry holds it |
| Acl.LetterInjective | ddl/queries_shared_test.go:84-95 | Different privileges have different letters |
| Acl.Letter | ddl/queries_shared_test.go:84-95 | Every privilege letter is an ASCII letter |
| Acl.EveryKind | ddl/queries_shared_test.go:84-95 | Every privilege appears in the catalog letter order and in the GRANT order |
| Acl.RowAcls | ddl/predata_relations_test.go:946-1010 | A row contributes at most one entry |
| Acl.EmptyKindRow | ddl/predata_relations_test.go:1000-1009 | A row marked `Empty` contributes the single placeholder entry `GRANTEE` holding nothing |
| Acl.NullRow | ddl/predata_relations_test.go:990-999 | A NULL or empty privileges value not marked `Empty` contributes no entry |
| Acl.SingleLetterRow | ddl/predata_relations_test.go:947-968 | A row with a one-letter aclitem (`gpadmin=r/gpadmin`) contributes that grantee holding that privilege alone |
| Acl.MissingMetadataPrintsNothing | ddl/predata_relations_test.go:565-576 | An object whose oid has no metadata gets nothing printed after its definition. An object that has metadata but gets nothing printed has no privileges and no comment |
| Acl.Keyword | ddl/predata_textsearch_test.go:18 | The object-type keyword used in statements and TOC tags is a single line |
| Acl.CommentLiteralReadsBack | ddl/predata_relations_test.go:483-492 | The COMMENT literal is `'`-delimited with every inner quote doubled, so it cannot end early. Undoubling it gives back the comment |
| Acl.OwnerStatement | ddl/predata_relations_test.go:504-512 | An owner statement is written exactly when there is an owner and the object is not a view |
| Acl.PrivilegeName | ddl/predata_relations_test.go:531-551 | Privilege keywords are non-empty, hold no comma or line break, and do not start with `A`, so they cannot be mistaken for ALL |
| Acl.NameInjective | ddl/predata_relations_test.go:531-551 | Different privileges have different keywords |
| Acl.NamesOfMember | ddl/predata_relations_test.go:531-551 | A keyword is listed exactly when the entry holds that privilege |
| Acl.PrivilegeNamesEmpty | ddl/predata_relations_test.go:531-551 | An entry lists no keyword exactly when it holds no privilege |
| Acl.NamesOfNone | ddl/predata_relations_test.go:531-551 | An entry with no privileges lists no keyword in any order |
| Acl.PrivilegeListReadsBack | ddl/predata_relations_test.go:531-551 | The comma-separated privilege list of a GRANT splits back into its keywords and reads back as the entry it was written from |
| Acl.Target | ddl/predata_relations_test.go:714-730 | The `ON ...` target of a statement is a single line when its names are |
| Acl.GrantLine | ddl/predata_relations_test.go:531-551 | A GRANT line starts with `GRANT `, then the privilege list, then a space |
| Acl.GrantStatement | ddl/predata_relations_test.go:531-551 | A single entry's GRANT is a single line when its target and grantee are |
| Acl.AllPrivilegesHeld | ddl/predata_relations_test.go:714-730 | An entry that holds ALL for a type holds some privilege |
| Acl.GrantStatementEmpty | ddl/predata_relations_test.go:682-701 | A GRANT is written exactly for an entry that holds some privilege |
| Acl.GrantLineAll | ddl/predata_relations_test.go:714-730 | A GRANT of ALL says `ALL` right after `GRANT ` |
| Acl.GrantLineList | ddl/predata_relations_test.go:531-551 | A GRANT of a keyword list does not say ALL there |
| Acl.GrantStatementAll | ddl/predata_relations_test.go:656-730 | A GRANT says ALL exactly when the entry holds every privilege ALL stands for on that type. Otherwise it lists the held privileges in GRANT order |
| Acl.GrantStatements | ddl/predata_relations_test.go:531-551 | There is at most one GRANT per entry |
| Acl.RevokeStatements | ddl/predata_relations_test.go:531-551 | The REVOKE lines are single lines when the target and owner are |
| Acl.GrantStatementsWithoutBreaks | ddl/predata_relations_test.go:531-551 | Every GRANT of a list is a single line |
| Acl.PrivilegesStatementsLines | ddl/predata_relations_test.go:531-551 | A privilege block is, line by line: REVOKE from PUBLIC, REVOKE from the owner when there is one, then one GRANT per entry that holds something, in entry order |
| Acl.ObjectMetadataTextEmpty | ddl/predata_relations_test.go:457-552 | Nothing follows an object's definition exactly when it has no comment, no owner that is printed, and no privilege entries |
| ColumnPrivileges.ConstructColumnPrivilegesMap | ddl/predata_relations_test.go:946-1010 | The row loop builds exactly the map of the row-fold specification |
| ColumnPrivileges.ColumnPrivilegesEntry | ddl/predata_relations_test.go:958-989 | A table has an entry exactly when some row is about it, and a column within it exactly when some row is about that column. The column's entries are those of its rows, in row order |
| ColumnPrivileges.NoRowsNoAcls | ddl/predata_relations_test.go:958-961 | A column no row is about collects no entries |
| ColumnPrivileges.DefaultKindColumn | ddl/predata_relations_test.go:990-999 | A column whose only row has default privileges is present with an empty entry list |
| ColumnPrivileges.EmptyKindColumn | ddl/predata_relations_test.go:1000-1009 | A column whose only row is marked `Empty` maps to the single entry `GRANTEE` |
| ColumnPrivileges.RepeatedEmptyRows | ddl/predata_relations_test.go:1000-1009 | Two `Empty` rows for one column give two `GRANTEE` placeholders |
| Partitions.AppendExtPartSuffix | ddl/predata_relations_test.go:901-926 | The suffixed name keeps the input's quoting and its body is at most 64 characters. The body is the longest prefix of the original body that fits, followed by `_ext_part_` |
| Partitions.StripAppendedSuffix | ddl/predata_relations_test.go:902-907 | A name short enough to be suffixed whole is recovered by removing the suffix |
| Partitions.ShortNameExample | ddl/predata_relations_test.go:902-907 | `name` becomes `name_ext_part_` |
| Partitions.QuotedNameExample | ddl/predata_relations_test.go:914-919 | `"!name"` becomes `"!name_ext_part_"` |
| Partitions.LongNameExample | ddl/predata_relations_test.go:908-913 | A 64-character name keeps its first 54 characters before the suffix |
| Partitions.MetadataOf | ddl/predata_relations_test.go:757-900 | One relation contributes at most one metadata entry |
| Partitions.MetadataTables | ddl/predata_relations_test.go:757-900 | The metadata list is never longer than the input |
| Partitions.DataTables | ddl/predata_relations_test.go:757-900 | The data list is never longer than the input |
| Partitions.SplitTablesByPartitionType | ddl/predata_relations_test.go:757-900 | The loop returns exactly the metadata list and the data list of the specification functions |
| Partitions.MetadataTablesAppend | ddl/predata_relations_test.go:757-900 | The metadata list follows input order: it distributes over concatenation of the input |
| Partitions.DataTablesAppend | ddl/predata_relations_test.go:757-900 | The data list follows input order in the same way |
| Partitions.MetadataMembership | ddl/predata_relations_test.go:757-900 | A relation is in the metadata list exactly when it is an input relation with DDL of its own (parent or unpartitioned), or the suffixed copy of an external leaf |
| Partitions.MetadataExcludesPartitionChildren | ddl/predata_relations_test.go:809-828 | No intermediate partition is in the metadata list. A leaf is there only if it is external |
| Partitions.DataMembership | ddl/predata_relations_test.go:788-876 | A relation is in the data list exactly when it is an input relation the mode selects |
| Partitions.LeafModeData | ddl/predata_relations_test.go:788-828 | In leaf-partition-data mode the data list holds every leaf and unpartitioned relation, whatever the include list |
| Partitions.IncludeModeData | ddl/predata_relations_test.go:829-847 | Otherwise, a non-empty include list selects exactly the relations it names |
| Partitions.DataExcludesIntermediate | ddl/predata_relations_test.go:788-847 | An intermediate partition is never in the data list unless the user names it in include mode |
| Partitions.DefaultModeSameLists | ddl/predata_relations_test.go:848-876 | Without leaf mode, an include list or external leaves, the two lists are equal |
| Partitions.FQNs | ddl/predata_relations_test.go:927-945 | The qualified names of the relations, one per relation and in order |
| Partitions.ExpandIncludeRelations | ddl/predata_relations_test.go:927-945 | The result is empty exactly when the include list is. Otherwise it holds exactly the names in the include list or in the relation list, sorted, without duplicates |
| TableDdl.ColumnLines | ddl/predata_relations_test.go:100-134 | The column list has one line per column, in column order |
| TableDdl.ColumnLineEndings | ddl/predata_relations_test.go:100-251 | A typed-table line is `name WITH OPTIONS`, plus ` NOT NULL` exactly for NOT NULL columns. An untyped line ends with its ENCODING clause when it has one, otherwise with NOT NULL, otherwise with DEFAULT; without any of these it is `name type` |
| TableDdl.ColumnDefinitionLines | ddl/predata_relations_test.go:100-134 | The column loop builds exactly the column lines of the specification |
| TableDdl.AlterColumnStatements | ddl/predata_relations_test.go:182-212 | A column has one ALTER COLUMN statement for each of: a statistics target other than -1, a storage type, options |
| TableDdl.AlterColumnStatementsOrder | ddl/predata_relations_test.go:182-212 | `SET STATISTICS n` is present exactly when the target is not -1, `SET STORAGE` exactly when a storage type is set, `SET (options)` exactly when options are set. Statistics comes first and options last |
| TableDdl.AlterColumnStatementsDistinct | ddl/predata_relations_test.go:182-212 | The statistics, storage and options statements of a column are three different texts |
| TableDdl.AlterColumnLines | ddl/predata_relations_test.go:182-212 | The ALTER COLUMN text is a line break followed by the statements, one per line |
| TableDdl.PrintAlterColumnStatements | ddl/predata_relations_test.go:182-212 | Appends the ALTER COLUMN text of every column, in column order; the TOC is unchanged |
| TableDdl.PrintRegularTableCreateStatement | ddl/predata_relations_test.go:85-456 | Appends CREATE TABLE, the subpartition template and the ALTER COLUMN statements, and records exactly one TABLE entry |
| TableDdl.CreateTableLines | ddl/predata_relations_test.go:100-456 | CREATE TABLE is, line by line: the header (with `OF type` for a typed table), each column line followed by a comma except the last, and the closing line with the table clauses |
| TableDdl.ColumnLinesSingleLine | ddl/predata_relations_test.go:100-134 | Column lines hold no line break when their columns' fields do not |
| TableDdl.TableClausesStart | ddl/predata_relations_test.go:252-456 | The clauses start with INHERITS when the table inherits, and WITH follows it directly when storage options are set; without INHERITS they start with WITH |
| TableDdl.TableClausesEnd | ddl/predata_relations_test.go:252-456 | TABLESPACE follows WITH directly when both are set, and is followed by the distribution policy and the partition clause. The clauses always end with those two, and with no INHERITS, WITH or TABLESPACE they are exactly those two |
| TableDdl.TableClausesSingleLine | ddl/predata_relations_test.go:252-456 | The closing line holds no line break |
| TableDdl.PartitionClauseTrimmed | ddl/predata_relations_test.go:367-416 | The partition definition is written after one space with surrounding white space removed. The subpartition template becomes a statement of its own |
| TableDdl.PrintColumnsMetadata | ddl/predata_relations_test.go:475-503 | Appends each column's comment and privileges, in column order |
| TableDdl.PrintPostCreateTableStatements | ddl/predata_relations_test.go:457-552 | Appends the table's comment, owner and privileges, then every column's; no TOC entry |
| TableDdl.PrivilegesStatementsEmpty | ddl/predata_relations_test.go:457-552 | A privilege block is empty exactly when there are no entries |
| TableDdl.ColumnMetadataTextEmpty | ddl/predata_relations_test.go:466-530 | Nothing is printed for a column exactly when it has neither a comment nor privilege entries |
| TableDdl.ColumnPrivilegeLines | ddl/predata_relations_test.go:531-551 | A column's privilege block is, line by line: REVOKE from PUBLIC and from the table owner, then one GRANT per entry, all on the column's target |
| TableDdl.ColumnTarget | ddl/predata_relations_test.go:543-550 | A column statement's target is `(column) ON TABLE table` |
| TableDdl.ColumnGrantAll | ddl/predata_relations_test.go:548-550 | A column GRANT says ALL exactly when the entry holds SELECT, INSERT, UPDATE and REFERENCES |
| SequenceViewDdl.SequenceOptionLines | ddl/predata_relations_test.go:553-655 | A sequence always has at least one option line |
| SequenceViewDdl.StartWithLine | ddl/predata_relations_test.go:644-655 | `START WITH last value` is the first option exactly for a sequence that has not been called |
| SequenceViewDdl.MaxValueLine | ddl/predata_relations_test.go:565-631 | NO MAXVALUE is written exactly when the maximum is the default for the direction (largest 64-bit value ascending, -1 descending). Otherwise MAXVALUE gives the value |
| SequenceViewDdl.MinValueLine | ddl/predata_relations_test.go:565-631 | NO MINVALUE is written exactly when the minimum is the default for the direction (1 ascending, smallest 64-bit value descending). Otherwise MINVALUE gives the value |
| SequenceViewDdl.CycleLine | ddl/predata_relations_test.go:632-643 | The last option is CYCLE exactly for a cycling sequence |
| SequenceViewDdl.CreateSequenceLines | ddl/predata_relations_test.go:565-655 | CREATE SEQUENCE is the name line, then one option per line, with the semicolon on the last |
| SequenceViewDdl.OptionLinesSingleLine | ddl/predata_relations_test.go:565-655 | No option line contains a line break |
| SequenceViewDdl.SetvalReadsBack | ddl/predata_relations_test.go:565-655 | The setval call's name literal reads back as the sequence name. Its arguments read back as the last value and the is-called flag |
| SequenceViewDdl.DefaultSequenceExample | ddl/predata_relations_test.go:565-576 | A called, non-cycling ascending sequence with default bounds and cache 5 lists `INCREMENT BY 1`, `NO MAXVALUE`, `NO MINVALUE`, `CACHE 5` |
| SequenceViewDdl.PrintCreateSequenceStatements | ddl/predata_relations_test.go:553-702 | Appends each sequence's statement, setval and metadata in list order, with one SEQUENCE entry per sequence |
| SequenceViewDdl.PrintCreateViewStatements | ddl/predata_relations_test.go:703-731 | Appends each view's CREATE VIEW and metadata in list order, with one VIEW entry per view |
| SequenceViewDdl.ViewOwnerNotRestored | ddl/predata_relations_test.go:714-730 | A view gets no owner statement, but its privileges are still revoked from PUBLIC and the owner, with no type word in the target |
| SequenceViewDdl.ViewWithoutMetadata | ddl/predata_relations_test.go:704-713 | A view without recorded metadata is printed as its definition alone, between a blank line and a line break |
| SequenceViewDdl.OwnedSequencesMembership | ddl/predata_relations_test.go:732-756 | The owned sequences are exactly the listed sequences whose name is a key of the owner map |
| SequenceViewDdl.PrintAlterSequenceStatements | ddl/predata_relations_test.go:732-756 | Appends OWNED BY for each owned sequence in list order, with one SEQUENCE OWNER entry each; other sequences get nothing |
| SequenceViewDdl.NoOwnedSequences | ddl/predata_relations_test.go:736-748 | Nothing is written and no entry is recorded exactly when no listed sequence is in the owner map |
| TextSearchDdl.CreateStatementLines | ddl/predata_textsearch_test.go:15-100 | A text search CREATE is the header line, each option item on its own line followed by a comma except the last, then `);` |
| TextSearchDdl.ParserOptionOrder | ddl/predata_textsearch_test.go:15-39 | START, GETTOKEN, END and LEXTYPES come first in that order. HEADLINE is present exactly when the parser has a headline function, and then last |
| TextSearchDdl.ParserLines | ddl/predata_textsearch_test.go:15-25 | A parser without metadata is exactly its CREATE statement, whose lines are the header, the punctuated items and `);` |
| TextSearchDdl.PrintCreateTextSearchParserStatements | ddl/predata_textsearch_test.go:14-40 | Appends each parser with its metadata in list order, with one TEXT SEARCH PARSER entry each |
| TextSearchDdl.TemplateOptionOrder | ddl/predata_textsearch_test.go:42-53 | LEXIZE is the last item. INIT precedes it exactly when the template has an init function |
| TextSearchDdl.PrintCreateTextSearchTemplateStatements | ddl/predata_textsearch_test.go:41-54 | Appends each template with its metadata in list order, with one TEXT SEARCH TEMPLATE entry each |
| TextSearchDdl.DictionaryOptionOrder | ddl/predata_textsearch_test.go:56-70 | TEMPLATE is the first item. The init options follow verbatim exactly when there are any |
| TextSearchDdl.PrintCreateTextSearchDictionaryStatements | ddl/predata_textsearch_test.go:55-71 | Appends each dictionary with its metadata in list order, with one TEXT SEARCH DICTIONARY entry each |
| TextSearchDdl.MappingStatements | ddl/predata_textsearch_test.go:80-100 | One mapping statement per token, in token order, each listing that token's dictionaries |
| TextSearchDdl.SortedTokens | ddl/predata_textsearch_test.go:80-100 | Every sorted token is a token of the configuration |
| TextSearchDdl.ConfigurationMappings | ddl/predata_textsearch_test.go:80-100 | There is exactly one mapping per token type. The mappings come in strictly ascending byte order of token, and each lists its dictionaries in the given order |
| TextSearchDdl.MappingsEmpty | ddl/predata_textsearch_test.go:73-79 | There are mapping statements exactly when the configuration maps some token |
| TextSearchDdl.ConfigurationWithoutMappings | ddl/predata_textsearch_test.go:73-79 | A configuration is its CREATE statement followed directly by its metadata exactly when it has no token mappings |
| TextSearchDdl.PrintCreateTextSearchConfigurationStatements | ddl/predata_textsearch_test.go:72-101 | Appends each configuration with its mappings and metadata in list order, with one TEXT SEARCH CONFIGURATION entry each |
| Toc.PrintEach | ddl/predata_textsearch_test.go:14-40 | The printer loop: the file gains each object's text in list order and the TOC gains one entry per object in the same order |
| Toc.WriteEach | ddl/predata_relations_test.go:475-503 | The loop of a printer that records no TOC entry: the file gains each object's text in list order, and the TOC is unchanged |
| Toc.EntriesFor | ddl/predata_relations_test.go:704-713 | One entry per object, the i-th entry for the i-th object |
| Toc.PredataFile.Write | ddl/predata_relations_test.go:565-576 | Writing appends to the text and leaves the TOC unchanged |
| Toc.PredataFile.AddEntry | ddl/predata_relations_test.go:565-576 | Recording an entry appends it to the TOC and leaves the text unchanged |
| Strings.SplitJoin | ddl/predata_relations_test.go:119-127 | Parts joined by a one-character separator none of them holds split back into the same parts |
| Strings.ListStatementLines | ddl/predata_relations_test.go:100-134 | A header, comma-separated items one per line and a closing line split back into exactly those lines |
| Strings.EscapeSingleQuotesRoundTrip | ddl/predata_relations_test.go:483-492 | Doubling single quotes gives a literal with every quote doubled, one character longer per quote, that undoubles back to the input |
| Strings.ParseIntToString | ddl/predata_relations_test.go:565-655 | Formatting an integer in decimal and parsing it back gives the integer, negative values included |
| Strings.TrimSpaceAround | ddl/predata_relations_test.go:367-416 | Trimming white space removes exactly the white space around a definition |
| Strings.SortedSet | ddl/predata_textsearch_test.go:80-100 | The sorted keys hold exactly the set's elements, strictly ascending, one per element |
| Strings.SortedSetUnique | ddl/predata_relations_test.go:927-945 | A strictly sorted list of a set's elements is unique |

## Left out

- `PrintCreateTableStatement` (ddl/predata_relations_test.go:62-84) and external tables: it only dispatches, and the external-table printer is not part of this model.
- Column COLLATE clauses and other column attributes the tests do not exercise are not modelled.
- `WITH GRANT OPTION` (ddl/predata_relations_test.go:682-701): entries have no grant-option flag, so a grant with grant option prints as a plain GRANT.
- Dependency sorting of relations and views, and the orchestration in ddl/wrappers.go: these decide the order of printer calls, which the printers take as given.
- The TOC's byte offsets: the model records schema, reference object, name and tag, but not the start and end positions in the file.
- The database connection, running the queries and scanning rows: the model starts from the rows as values. The SQL semantics of the query text are not modelled.
- Column-privilege and metadata rows are grouped by key (a map fold), which equals the source's grouping of consecutive rows when the rows come ordered by oid, as the queries' `ORDER BY` arranges.
- Partitions.AppendExtPartSuffix: bounds the suffixed name body at 64 characters. ddl/predata_relations_test.go:908-925 pins a 64-character result; the 63-byte identifier limit of PostgreSQL is not what the tests show.
- TableDdl.ColumnLine: for a typed table (`OF type`) a line is `name WITH OPTIONS` with an optional ` NOT NULL`, and omits DEFAULT and ENCODING. The tests pin only the NOT NULL cases (ddl/predata_relations_test.go:102-110, 155-163).
- QueriesShared.MetadataQueryDescriptions, QueriesShared.MetadataQueryPrivileges, QueriesShared.CommentsQueryDescriptions: state which texts the assembled queries contain, not which they lack. Field and table names are free text and may themselves contain `pg_shdescription` or `'Empty'`, so absence does not hold in general. The query texts are not proved equal to the tests' literal queries.
- SequenceViewDdl.PrintCreateViewStatements: a view gets no `ALTER VIEW ... OWNER TO` statement, because ddl/predata_relations_test.go:714-730 prints none even with an owner in the metadata (SequenceViewDdl.ViewOwnerNotRestored).
- Partitions.SplitTablesByPartitionType: the metadata list is not filtered by the include list. ddl/predata_relations_test.go:829-847 expects the same metadata tables with and without an include list; only the data list is filtered.
- ColumnPrivileges.ColumnPrivilegesOf: repeated `Empty` rows for one column are kept, one `GRANTEE` placeholder each (ColumnPrivileges.RepeatedEmptyRows). The column-privileges query gives at most one such row per column, and the tests show only one.
- TableDdl.AlterColumnStatements: SET STATISTICS is written for every statistics target other than -1; the tests pin -1 as "none" and 3 as a value.
- SequenceViewDdl.SetvalStatement: the sequence name is escaped as a string literal; the tests use names without quotes, so the escaping of unusual names is an assumption.
- TextSearchDdl.TemplateOptions: INIT is written only when the template has an init function, and a dictionary's init options only when non-empty; the tests show only the present cases.
- Leaf-partition-data mode and the include list are parameters, where the source reads package-level settings.
- Integer overflow: sequence values are 64-bit in the source; the model stores them in an `Int64` subtype and formats them as unbounded integers, which agree on that range.
