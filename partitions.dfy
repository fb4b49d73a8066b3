/**
 * Which relations go into the metadata list and which into the data list
 * of a backup, the synthetic names given to external leaf partitions, and
 * the expansion of a user's include list.
 */
module Partitions {
  import opened Strings
  import opened Relations

  /* ------------------------------------------------ external-partition names */

  const ExtPartSuffix := "_ext_part_"

  /** The longest name body (inside any quotes) a suffixed name may have. */
  const MaxSuffixedLength := 64

  predicate IsQuoted(name: string)
  {
    |name| >= 2 && name[0] == '"' && name[|name| - 1] == '"'
  }

  /** The name without its surrounding double quotes, if it has them. */
  function NameBody(name: string): string
  {
    if IsQuoted(name) then name[1..|name| - 1] else name
  }

  /**
   * The name under which an external leaf partition is created: the suffix
   * goes inside any quotes, and the body is cut short first when the
   * suffixed body would be too long.
   */
  function AppendExtPartSuffix(name: string): (r: string)
    ensures IsQuoted(r) == IsQuoted(name)
    ensures |NameBody(r)| <= MaxSuffixedLength
    ensures var body := NameBody(name);
      var kept := |NameBody(r)| - |ExtPartSuffix|;
      && 0 <= kept <= |body|
      && NameBody(r) == body[..kept] + ExtPartSuffix
      && (kept == |body| || |NameBody(r)| == MaxSuffixedLength)
  {
    var quoted := IsQuoted(name);
    var body := NameBody(name);
    var kept := if |body| + |ExtPartSuffix| > MaxSuffixedLength then body[..MaxSuffixedLength - |ExtPartSuffix|] else body;
    var newBody := kept + ExtPartSuffix;
    assert newBody[|newBody| - 1] == '_';
    if quoted then
      var r := "\"" + newBody + "\"";
      assert r[1..|r| - 1] == newBody;
      r
    else
      newBody
  }

  /** Removes the suffix again, keeping any quotes. */
  function StripExtPartSuffix(name: string): string
  {
    var body := NameBody(name);
    var stripped := if |body| >= |ExtPartSuffix| then body[..|body| - |ExtPartSuffix|] else body;
    if IsQuoted(name) then "\"" + stripped + "\"" else stripped
  }

  /** A name that is short enough is only suffixed, so stripping the suffix gives it back. */
  lemma StripAppendedSuffix(name: string)
    requires |NameBody(name)| + |ExtPartSuffix| <= MaxSuffixedLength
    ensures StripExtPartSuffix(AppendExtPartSuffix(name)) == name
  {
    var r := AppendExtPartSuffix(name);
    var body := NameBody(name);
    assert NameBody(r) == body + ExtPartSuffix;
    assert NameBody(r)[..|NameBody(r)| - |ExtPartSuffix|] == body;
    if IsQuoted(name) {
      assert name == "\"" + body + "\"";
    }
  }

  /** A short name is only suffixed. */
  lemma ShortNameExample()
    ensures AppendExtPartSuffix("name") == "name_ext_part_"
  {
    assert !IsQuoted("name");
  }

  /** A short quoted name gets the suffix inside its quotes. */
  lemma QuotedNameExample()
    ensures AppendExtPartSuffix("\"!name\"") == "\"!name_ext_part_\""
  {
    QuotedNameLiterals();
    QuotedShortName("!name");
  }

  lemma QuotedNameLiterals()
    ensures "\"!name\"" == "\"" + "!name" + "\""
    ensures "\"" + ("!name" + ExtPartSuffix) + "\"" == "\"!name_ext_part_\""
  {
  }

  lemma QuotedShortName(body: string)
    requires |body| + |ExtPartSuffix| <= MaxSuffixedLength
    ensures AppendExtPartSuffix("\"" + body + "\"") == "\"" + (body + ExtPartSuffix) + "\""
  {
    var name := "\"" + body + "\"";
    assert IsQuoted(name);
    assert NameBody(name) == body;
  }

  /** A 64-character name keeps its first 54 characters, so that the suffixed name is 64 characters long. */
  lemma LongNameExample()
    ensures var long := "long_naaaaaaaaaaaaaaaaaaaaaaaaaaaaaaaaaaaaaaaaaaaaaaaaaaaaaaaame";
      AppendExtPartSuffix(long) == "long_naaaaaaaaaaaaaaaaaaaaaaaaaaaaaaaaaaaaaaaaaaaaaaaa_ext_part_"
  {
    var long := "long_naaaaaaaaaaaaaaaaaaaaaaaaaaaaaaaaaaaaaaaaaaaaaaaaaaaaaaaame";
    assert !IsQuoted(long);
    assert long[..54] == "long_naaaaaaaaaaaaaaaaaaaaaaaaaaaaaaaaaaaaaaaaaaaaaaaa";
  }

  /* ------------------------------------------------ metadata and data lists */

  function PartitionTypeOf(defs: map<nat, TableDefinition>, t: Relation): string
  {
    DefinitionOf(defs, t.oid).partitionType
  }

  predicate IsExternalLeaf(defs: map<nat, TableDefinition>, t: Relation)
  {
    DefinitionOf(defs, t.oid).isExternal && PartitionTypeOf(defs, t) == "l"
  }

  /** Leaves and intermediate partitions carry no DDL of their own; everything else does. */
  predicate HasOwnDDL(defs: map<nat, TableDefinition>, t: Relation)
  {
    PartitionTypeOf(defs, t) != "l" && PartitionTypeOf(defs, t) != "i"
  }

  /** The relation as its metadata is printed: an external leaf under its suffixed name. */
  function WithExtPartSuffix(t: Relation): Relation
  {
    t.(name := AppendExtPartSuffix(t.name))
  }

  /** What one relation contributes to the metadata list. */
  function MetadataOf(defs: map<nat, TableDefinition>, t: Relation): (r: seq<Relation>)
    ensures |r| <= 1
  {
    if IsExternalLeaf(defs, t) then [WithExtPartSuffix(t)]
    else if HasOwnDDL(defs, t) then [t]
    else []
  }

  /** Whether a relation's rows are backed up, for the given mode and the include list the user gave. */
  predicate InDataSet(defs: map<nat, TableDefinition>, includeList: seq<string>, leafPartitionData: bool, t: Relation)
  {
    if leafPartitionData then PartitionTypeOf(defs, t) != "p" && PartitionTypeOf(defs, t) != "i"
    else if includeList != [] then t.FQN() in includeList
    else HasOwnDDL(defs, t)
  }

  function MetadataTables(tables: seq<Relation>, defs: map<nat, TableDefinition>): (r: seq<Relation>)
    ensures |r| <= |tables|
  {
    if tables == [] then []
    else MetadataTables(tables[..|tables| - 1], defs) + MetadataOf(defs, tables[|tables| - 1])
  }

  function DataTables(tables: seq<Relation>, defs: map<nat, TableDefinition>, includeList: seq<string>, leafPartitionData: bool): (r: seq<Relation>)
    ensures |r| <= |tables|
  {
    if tables == [] then []
    else
      var t := tables[|tables| - 1];
      DataTables(tables[..|tables| - 1], defs, includeList, leafPartitionData)
      + (if InDataSet(defs, includeList, leafPartitionData, t) then [t] else [])
  }

  /** The loop body for one relation: what it adds to the metadata list and to the data list. */
  method SplitTable(t: Relation, defs: map<nat, TableDefinition>, includeList: seq<string>, leafPartitionData: bool)
    returns (metadata: seq<Relation>, data: seq<Relation>)
    ensures metadata == MetadataOf(defs, t)
    ensures data == if InDataSet(defs, includeList, leafPartitionData, t) then [t] else []
  {
    var def := DefinitionOf(defs, t.oid);
    metadata := [];
    data := [];
    if def.isExternal && def.partitionType == "l" {
      metadata := metadata + [t.(name := AppendExtPartSuffix(t.name))];
    }
    if def.partitionType != "l" && def.partitionType != "i" {
      metadata := metadata + [t];
    }
    if leafPartitionData {
      if def.partitionType != "p" && def.partitionType != "i" {
        data := data + [t];
      }
    } else if |includeList| > 0 {
      if t.FQN() in includeList {
        data := data + [t];
      }
    } else if def.partitionType != "l" && def.partitionType != "i" {
      data := data + [t];
    }
  }

  /**
   * Splits the relations into the list whose DDL is printed and the list
   * whose rows are backed up, in one pass over the relations.
   */
  method SplitTablesByPartitionType(tables: seq<Relation>, defs: map<nat, TableDefinition>, includeList: seq<string>, leafPartitionData: bool)
    returns (metadataTables: seq<Relation>, dataTables: seq<Relation>)
    ensures metadataTables == MetadataTables(tables, defs)
    ensures dataTables == DataTables(tables, defs, includeList, leafPartitionData)
  {
    metadataTables := [];
    dataTables := [];
    var i := 0;
    while i < |tables|
      invariant 0 <= i <= |tables|
      invariant metadataTables == MetadataTables(tables[..i], defs)
      invariant dataTables == DataTables(tables[..i], defs, includeList, leafPartitionData)
    {
      var metadata, data := SplitTable(tables[i], defs, includeList, leafPartitionData);
      assert tables[..i + 1][..i] == tables[..i];
      metadataTables := metadataTables + metadata;
      dataTables := dataTables + data;
      i := i + 1;
    }
    assert tables[..i] == tables;
  }

  /** The metadata list follows input order: two runs of relations one after the other give each run's list one after the other. */
  lemma {:induction false} MetadataTablesAppend(a: seq<Relation>, b: seq<Relation>, defs: map<nat, TableDefinition>)
    ensures MetadataTables(a + b, defs) == MetadataTables(a, defs) + MetadataTables(b, defs)
    decreases |b|
  {
    if b == [] {
      assert a + b == a;
    } else {
      var init := b[..|b| - 1];
      assert (a + b)[..|a + b| - 1] == a + init;
      var last := b[|b| - 1];
      assert (a + b)[|a + b| - 1] == last;
      calc {
        MetadataTables(a + b, defs);
        MetadataTables(a + init, defs) + MetadataOf(defs, last);
        { MetadataTablesAppend(a, init, defs); }
        MetadataTables(a, defs) + MetadataTables(init, defs) + MetadataOf(defs, last);
      }
    }
  }

  /** The data list follows input order in the same way. */
  lemma {:induction false} DataTablesAppend(a: seq<Relation>, b: seq<Relation>, defs: map<nat, TableDefinition>, includeList: seq<string>, leafPartitionData: bool)
    ensures DataTables(a + b, defs, includeList, leafPartitionData)
         == DataTables(a, defs, includeList, leafPartitionData) + DataTables(b, defs, includeList, leafPartitionData)
    decreases |b|
  {
    if b == [] {
      assert a + b == a;
    } else {
      var init := b[..|b| - 1];
      assert (a + b)[..|a + b| - 1] == a + init;
      assert (a + b)[|a + b| - 1] == b[|b| - 1];
      DataTablesAppend(a, init, defs, includeList, leafPartitionData);
    }
  }

  /**
   * The metadata list holds exactly the relations that have DDL of their
   * own (neither leaf nor intermediate partitions), plus every external
   * leaf under its suffixed name.
   */
  lemma {:induction false} MetadataMembership(tables: seq<Relation>, defs: map<nat, TableDefinition>, t: Relation)
    ensures t in MetadataTables(tables, defs) <==>
      || (t in tables && HasOwnDDL(defs, t))
      || (exists u :: u in tables && IsExternalLeaf(defs, u) && t == WithExtPartSuffix(u))
  {
    if tables != [] {
      var init := tables[..|tables| - 1];
      var last := tables[|tables| - 1];
      assert tables == init + [last];
      MetadataMembership(init, defs, t);
      if t in MetadataOf(defs, last) {
        if IsExternalLeaf(defs, last) {
          assert last in tables;
        }
      }
      if exists u :: u in tables && IsExternalLeaf(defs, u) && t == WithExtPartSuffix(u) {
        var u :| u in tables && IsExternalLeaf(defs, u) && t == WithExtPartSuffix(u);
        if u != last {
          assert u in init;
        }
      }
    }
  }

  /** An intermediate partition never reaches the metadata list, and an ordinary leaf only as the suffixed copy of an external leaf. */
  lemma MetadataExcludesPartitionChildren(tables: seq<Relation>, defs: map<nat, TableDefinition>, t: Relation)
    requires t in MetadataTables(tables, defs)
    ensures PartitionTypeOf(defs, t) != "i"
    ensures PartitionTypeOf(defs, t) == "l" ==> DefinitionOf(defs, t.oid).isExternal
  {
    MetadataMembership(tables, defs, t);
  }

  /** The data list holds exactly the relations the mode selects, in input order. */
  lemma {:induction false} DataMembership(tables: seq<Relation>, defs: map<nat, TableDefinition>, includeList: seq<string>, leafPartitionData: bool, t: Relation)
    ensures t in DataTables(tables, defs, includeList, leafPartitionData)
        <==> t in tables && InDataSet(defs, includeList, leafPartitionData, t)
  {
    if tables != [] {
      var init := tables[..|tables| - 1];
      assert tables == init + [tables[|tables| - 1]];
      DataMembership(init, defs, includeList, leafPartitionData, t);
    }
  }

  /** In leaf-partition-data mode the data list is every leaf and unpartitioned relation, whatever the includeList list. */
  lemma LeafModeData(tables: seq<Relation>, defs: map<nat, TableDefinition>, includeList: seq<string>, t: Relation)
    ensures t in DataTables(tables, defs, includeList, true)
        <==> t in tables && PartitionTypeOf(defs, t) != "p" && PartitionTypeOf(defs, t) != "i"
  {
    DataMembership(tables, defs, includeList, true, t);
  }

  /** Otherwise a non-empty includeList list selects exactly the relations it names. */
  lemma IncludeModeData(tables: seq<Relation>, defs: map<nat, TableDefinition>, includeList: seq<string>, t: Relation)
    requires includeList != []
    ensures t in DataTables(tables, defs, includeList, false) <==> t in tables && t.FQN() in includeList
  {
    DataMembership(tables, defs, includeList, false, t);
  }

  /** An intermediate partition holds no rows of its own, so no mode puts it in the data list unless the user names it. */
  lemma DataExcludesIntermediate(tables: seq<Relation>, defs: map<nat, TableDefinition>, includeList: seq<string>, leafPartitionData: bool, t: Relation)
    requires PartitionTypeOf(defs, t) == "i"
    requires !leafPartitionData && includeList != [] ==> t.FQN() !in includeList
    ensures t !in DataTables(tables, defs, includeList, leafPartitionData)
  {
    DataMembership(tables, defs, includeList, leafPartitionData, t);
  }

  /** Without leaf mode, an includeList list or external leaves, both lists are the same. */
  lemma {:induction false} DefaultModeSameLists(tables: seq<Relation>, defs: map<nat, TableDefinition>)
    requires forall t :: t in tables ==> !IsExternalLeaf(defs, t)
    ensures DataTables(tables, defs, [], false) == MetadataTables(tables, defs)
  {
    if tables != [] {
      var init := tables[..|tables| - 1];
      assert tables[|tables| - 1] in tables;
      assert forall t :: t in init ==> t in tables;
      DefaultModeSameLists(init, defs);
    }
  }

  /* ------------------------------------------------ includeList list */

  function FQNs(tables: seq<Relation>): (r: seq<string>)
    ensures |r| == |tables|
    ensures forall i :: 0 <= i < |tables| ==> r[i] == tables[i].FQN()
  {
    if tables == [] then [] else FQNs(tables[..|tables| - 1]) + [tables[|tables| - 1].FQN()]
  }

  /**
   * The includeList list extended by the names of the relations found for it:
   * empty when the user gave none (no filter), otherwise every name once.
   * The order of the names is unspecified; they are listed in sorted order.
   */
  function ExpandIncludeRelations(includeList: seq<string>, tables: seq<Relation>): (r: seq<string>)
    ensures r == [] <==> includeList == []
    ensures includeList != [] ==> forall x :: x in r <==> x in includeList || x in FQNs(tables)
    ensures StrictlySorted(r) && NoDuplicates(r)
  {
    if includeList == [] then []
    else
      var names := set x | x in includeList + FQNs(tables);
      assert includeList[0] in names;
      SortedSet(names)
  }
}
