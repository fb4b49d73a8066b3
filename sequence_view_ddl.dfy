/**
 * CREATE SEQUENCE with the setval call that restores the generator's state,
 * CREATE VIEW, and ALTER SEQUENCE ... OWNED BY for sequences that belong to
 * a column.
 */
module SequenceViewDdl {
  import opened Wrappers
  import opened Strings
  import opened Acl
  import opened Relations
  import opened Toc

  /* ------------------------------------------------ sequences */

  /**
   * NO MAXVALUE stands for the default maximum: the largest 64-bit value for
   * an ascending sequence, -1 for a descending one.
   */
  predicate DefaultMaxValue(d: SequenceDefinition)
  {
    (d.maxVal == MaxInt64 && d.increment > 0) || (d.maxVal == -1 && d.increment < 0)
  }

  /** NO MINVALUE stands for the default minimum: 1 for an ascending sequence, the smallest 64-bit value for a descending one. */
  predicate DefaultMinValue(d: SequenceDefinition)
  {
    (d.minVal == MinInt64 && d.increment < 0) || (d.minVal == 1 && d.increment > 0)
  }

  /** The option lines of CREATE SEQUENCE, in the order they are written. */
  function SequenceOptionLines(d: SequenceDefinition): (r: seq<string>)
    ensures r != []
  {
    (if !d.isCalled then ["\tSTART WITH " + IntToString(d.lastVal)] else [])
    + ["\tINCREMENT BY " + IntToString(d.increment)]
    + [if DefaultMaxValue(d) then "\tNO MAXVALUE" else "\tMAXVALUE " + IntToString(d.maxVal)]
    + [if DefaultMinValue(d) then "\tNO MINVALUE" else "\tMINVALUE " + IntToString(d.minVal)]
    + ["\tCACHE " + IntToString(d.cacheVal)]
    + (if d.isCycled then ["\tCYCLE"] else [])
  }

  /** CREATE SEQUENCE: the name on the first line, then one option per line, the last one closed by a semicolon. */
  function CreateSequenceStatement(fqn: string, d: SequenceDefinition): string
  {
    "CREATE SEQUENCE " + fqn + "\n" + Join(SequenceOptionLines(d), "\n") + ";"
  }

  /** The call that restores the generator's last value and whether it has been used; the name is a quoted literal. */
  function SetvalStatement(fqn: string, d: SequenceDefinition): string
  {
    "SELECT pg_catalog.setval('" + EscapeSingleQuotes(fqn) + "', " + IntToString(d.lastVal) + ", " + BoolToString(d.isCalled) + ");"
  }

  /** Everything written for one sequence: definition, setval, then its comment, owner and privileges. */
  function SequenceText(s: Sequence, m: ObjectMetadata): string
  {
    var fqn := s.relation.FQN();
    "\n\n" + CreateSequenceStatement(fqn, s.definition) + "\n\n" + SetvalStatement(fqn, s.definition) + "\n"
    + ObjectMetadataText(m, ObjectType.Sequence, fqn)
  }

  /** The text of a sequence together with the metadata recorded for its oid. */
  function SequenceTextIn(metadata: MetadataMap): Sequence -> string
  {
    (s: Sequence) => SequenceText(s, MetadataFor(metadata, s.relation.oid))
  }

  /** The text for a list of sequences, each with the metadata recorded for its oid. */
  function SequencesText(seqs: seq<Sequence>, metadata: MetadataMap): string
  {
    TextsFor(seqs, SequenceTextIn(metadata))
  }

  function SequenceEntry(s: Sequence): TocEntry
  {
    TocEntry(s.relation.schema, "", s.relation.name, Keyword(ObjectType.Sequence))
  }

  /** Writes every sequence, in list order, each followed by its metadata, and records one SEQUENCE entry per sequence. */
  method PrintCreateSequenceStatements(file: PredataFile, seqs: seq<Sequence>, metadata: MetadataMap)
    modifies file
    ensures file.contents == old(file.contents) + SequencesText(seqs, metadata)
    ensures file.entries == old(file.entries) + EntriesFor(seqs, SequenceEntry)
  {
    PrintEach(file, seqs, SequenceTextIn(metadata), SequenceEntry);
  }

  /** START WITH is written exactly for a sequence that has not been used, and then names its last value. */
  lemma StartWithLine(d: SequenceDefinition)
    ensures !d.isCalled <==> SequenceOptionLines(d)[0] == "\tSTART WITH " + IntToString(d.lastVal)
  {
    if d.isCalled {
      assert SequenceOptionLines(d)[0] == "\tINCREMENT BY " + IntToString(d.increment);
      assert SequenceOptionLines(d)[0][1] == 'I' != ("\tSTART WITH " + IntToString(d.lastVal))[1];
    }
  }

  /**
   * The maximum is written as NO MAXVALUE exactly when it is the default for
   * the sequence's direction, and otherwise as MAXVALUE with its value.
   */
  lemma MaxValueLine(d: SequenceDefinition)
    ensures var lines := SequenceOptionLines(d);
      var k := if d.isCalled then 1 else 2;
      && (lines[k] == "\tNO MAXVALUE" <==> DefaultMaxValue(d))
      && (!DefaultMaxValue(d) ==> lines[k] == "\tMAXVALUE " + IntToString(d.maxVal))
  {
    var k := if d.isCalled then 1 else 2;
    if !DefaultMaxValue(d) {
      var line := "\tMAXVALUE " + IntToString(d.maxVal);
      assert SequenceOptionLines(d)[k] == line;
      assert line[1] == 'M' != "\tNO MAXVALUE"[1];
    }
  }

  /** The minimum is written as NO MINVALUE exactly when it is the default for the sequence's direction, and otherwise as MINVALUE with its value. */
  lemma MinValueLine(d: SequenceDefinition)
    ensures var lines := SequenceOptionLines(d);
      var k := if d.isCalled then 2 else 3;
      && (lines[k] == "\tNO MINVALUE" <==> DefaultMinValue(d))
      && (!DefaultMinValue(d) ==> lines[k] == "\tMINVALUE " + IntToString(d.minVal))
  {
    var k := if d.isCalled then 2 else 3;
    if !DefaultMinValue(d) {
      var line := "\tMINVALUE " + IntToString(d.minVal);
      assert SequenceOptionLines(d)[k] == line;
      assert line[1] == 'M' != "\tNO MINVALUE"[1];
    }
  }

  /** The statement ends with CYCLE exactly for a cycling sequence. */
  lemma CycleLine(d: SequenceDefinition)
    ensures var lines := SequenceOptionLines(d);
      lines[|lines| - 1] == "\tCYCLE" <==> d.isCycled
  {
    var lines := SequenceOptionLines(d);
    if !d.isCycled {
      var cache := "\tCACHE " + IntToString(d.cacheVal);
      assert lines[|lines| - 1] == cache;
      assert cache[1] == 'C' && cache[2] == 'A' && "\tCYCLE"[2] == 'Y';
    }
  }

  /** CREATE SEQUENCE has its name on the first line and one option on each following line; the last one carries the semicolon. */
  lemma CreateSequenceLines(fqn: string, d: SequenceDefinition)
    requires '\n' !in fqn
    ensures var lines := SequenceOptionLines(d);
      Split(CreateSequenceStatement(fqn, d), '\n')
      == ["CREATE SEQUENCE " + fqn] + lines[..|lines| - 1] + [lines[|lines| - 1] + ";"]
  {
    var lines := SequenceOptionLines(d);
    OptionLinesSingleLine(d);
    SplitJoinTail(lines, '\n', ";");
    var head := "CREATE SEQUENCE " + fqn;
    assert CreateSequenceStatement(fqn, d) == head + ['\n'] + (Join(lines, "\n") + ";");
    SplitAfter(head, '\n', Join(lines, "\n") + ";");
  }

  lemma OptionLinesSingleLine(d: SequenceDefinition)
    ensures forall l :: l in SequenceOptionLines(d) ==> '\n' !in l
  {
    StartWithSingleLine(d);
    IncrementSingleLine(d);
    MaxValueSingleLine(d);
    MinValueSingleLine(d);
    CacheSingleLine(d);
    var start := "\tSTART WITH " + IntToString(d.lastVal);
    var max := if DefaultMaxValue(d) then "\tNO MAXVALUE" else "\tMAXVALUE " + IntToString(d.maxVal);
    var min := if DefaultMinValue(d) then "\tNO MINVALUE" else "\tMINVALUE " + IntToString(d.minVal);
    var middle := ["\tINCREMENT BY " + IntToString(d.increment)] + [max] + [min] + ["\tCACHE " + IntToString(d.cacheVal)];
    LinesWithoutBreaks(if !d.isCalled then [start] else [], middle, if d.isCycled then ["\tCYCLE"] else []);
  }

  lemma StartWithSingleLine(d: SequenceDefinition)
    ensures '\n' !in "\tSTART WITH " + IntToString(d.lastVal)
  {
    LabelledSingleLine("\tSTART WITH ", d.lastVal);
  }

  lemma IncrementSingleLine(d: SequenceDefinition)
    ensures '\n' !in "\tINCREMENT BY " + IntToString(d.increment)
  {
    LabelledSingleLine("\tINCREMENT BY ", d.increment);
  }

  lemma MaxValueSingleLine(d: SequenceDefinition)
    ensures '\n' !in if DefaultMaxValue(d) then "\tNO MAXVALUE" else "\tMAXVALUE " + IntToString(d.maxVal)
  {
    LabelledSingleLine("\tMAXVALUE ", d.maxVal);
  }

  lemma MinValueSingleLine(d: SequenceDefinition)
    ensures '\n' !in if DefaultMinValue(d) then "\tNO MINVALUE" else "\tMINVALUE " + IntToString(d.minVal)
  {
    LabelledSingleLine("\tMINVALUE ", d.minVal);
  }

  lemma CacheSingleLine(d: SequenceDefinition)
    ensures '\n' !in "\tCACHE " + IntToString(d.cacheVal)
  {
    LabelledSingleLine("\tCACHE ", d.cacheVal);
  }

  lemma LinesWithoutBreaks(a: seq<string>, b: seq<string>, c: seq<string>)
    requires forall l :: l in a ==> '\n' !in l
    requires forall l :: l in b ==> '\n' !in l
    requires forall l :: l in c ==> '\n' !in l
    ensures forall l :: l in a + b + c ==> '\n' !in l
  {
  }

  lemma LabelledSingleLine(prefix: string, i: int)
    requires '\n' !in prefix
    ensures '\n' !in prefix + IntToString(i)
  {
    IntToStringSingleLine(i);
  }

  /**
   * The setval call names the sequence in a literal that reads back as its
   * name, and its arguments read back as the last value and the is-called
   * flag.
   */
  lemma SetvalReadsBack(fqn: string, d: SequenceDefinition)
    ensures exists literal, value, called ::
      && SetvalStatement(fqn, d) == "SELECT pg_catalog.setval('" + literal + "', " + value + ", " + called + ");"
      && QuotesDoubled(literal) && UnescapeSingleQuotes(literal) == fqn
      && ParseInt(value) == d.lastVal
      && (called == "true" <==> d.isCalled)
  {
    EscapeSingleQuotesRoundTrip(fqn);
    ParseIntToString(d.lastVal);
    var literal, value, called := EscapeSingleQuotes(fqn), IntToString(d.lastVal), BoolToString(d.isCalled);
    assert SetvalStatement(fqn, d) == "SELECT pg_catalog.setval('" + literal + "', " + value + ", " + called + ");";
  }

  /** A used, non-cycling ascending sequence with default bounds lists only its increment, the two NO bounds and its cache. */
  lemma DefaultSequenceExample(d: SequenceDefinition)
    requires d.increment == 1 && d.maxVal == MaxInt64 && d.minVal == 1 && d.cacheVal == 5
    requires d.isCalled && !d.isCycled
    ensures SequenceOptionLines(d) == ["\tINCREMENT BY 1", "\tNO MAXVALUE", "\tNO MINVALUE", "\tCACHE 5"]
  {
    assert IntToString(1) == "1";
    assert IntToString(5) == "5";
    assert DefaultMaxValue(d) && DefaultMinValue(d);
    var lines := SequenceOptionLines(d);
    assert lines == ["\tINCREMENT BY " + IntToString(1), "\tNO MAXVALUE", "\tNO MINVALUE", "\tCACHE " + IntToString(5)];
    assert "\tINCREMENT BY " + "1" == "\tINCREMENT BY 1";
    assert "\tCACHE " + "5" == "\tCACHE 5";
  }

  /* ------------------------------------------------ views */

  /** CREATE VIEW: the definition is the stored query text, written as it is. */
  function CreateViewStatement(v: View): string
  {
    "CREATE VIEW " + v.FQN() + " AS " + v.definition
  }

  /** Everything written for one view: its definition, then its comment and privileges; a view's owner is not restored. */
  function ViewText(v: View, m: ObjectMetadata): string
  {
    "\n\n" + CreateViewStatement(v) + "\n" + ObjectMetadataText(m, ObjectType.View, v.FQN())
  }

  /** The text of a view together with the metadata recorded for its oid. */
  function ViewTextIn(metadata: MetadataMap): View -> string
  {
    (v: View) => ViewText(v, MetadataFor(metadata, v.oid))
  }

  /** A view with no recorded metadata is printed as its definition alone. */
  lemma ViewWithoutMetadata(v: View, metadata: MetadataMap)
    requires v.oid !in metadata
    ensures ViewTextIn(metadata)(v) == "\n\n" + CreateViewStatement(v) + "\n"
  {
    MissingMetadataPrintsNothing(metadata, v.oid, ObjectType.View, v.FQN());
  }

  function ViewsText(views: seq<View>, metadata: MetadataMap): string
  {
    TextsFor(views, ViewTextIn(metadata))
  }

  function ViewEntry(v: View): TocEntry
  {
    TocEntry(v.schema, "", v.name, Keyword(ObjectType.View))
  }

  /** Writes every view, in list order, each followed by its metadata, and records one VIEW entry per view. */
  method PrintCreateViewStatements(file: PredataFile, views: seq<View>, metadata: MetadataMap)
    modifies file
    ensures file.contents == old(file.contents) + ViewsText(views, metadata)
    ensures file.entries == old(file.entries) + EntriesFor(views, ViewEntry)
  {
    PrintEach(file, views, ViewTextIn(metadata), ViewEntry);
  }

  /** A view's metadata never includes an owner statement, but its privileges are still revoked from the owner. */
  lemma ViewOwnerNotRestored(v: View, m: ObjectMetadata)
    ensures OwnerStatement(ObjectType.View, v.FQN(), m.owner) == ""
    ensures m.privileges != [] && m.owner != "" ==>
      RevokeStatements(Target(ObjectType.View, v.FQN(), None), m.owner)
      == ["REVOKE ALL ON " + v.FQN() + " FROM PUBLIC;", "REVOKE ALL ON " + v.FQN() + " FROM " + m.owner + ";"]
  {
    assert Target(ObjectType.View, v.FQN(), None) == "ON " + v.FQN();
    assert "REVOKE ALL " + ("ON " + v.FQN()) + " FROM PUBLIC;" == "REVOKE ALL ON " + v.FQN() + " FROM PUBLIC;";
    assert "REVOKE ALL " + ("ON " + v.FQN()) + " FROM " + m.owner + ";" == "REVOKE ALL ON " + v.FQN() + " FROM " + m.owner + ";";
  }

  /* ------------------------------------------------ sequence owners */

  /** The sequences that belong to a column: those whose name is a key of the owner map, in list order. */
  function OwnedSequences(seqs: seq<Sequence>, owners: map<string, string>): (r: seq<Sequence>)
    ensures |r| <= |seqs|
  {
    if seqs == [] then []
    else
      var s := seqs[|seqs| - 1];
      var init := OwnedSequences(seqs[..|seqs| - 1], owners);
      if s.relation.FQN() in owners then init + [s] else init
  }

  /** A sequence is owned exactly when it is listed and its name is a key of the owner map. */
  lemma {:induction false} OwnedSequencesMembership(seqs: seq<Sequence>, owners: map<string, string>)
    ensures forall s :: s in OwnedSequences(seqs, owners) <==> s in seqs && s.relation.FQN() in owners
  {
    if seqs != [] {
      var init := seqs[..|seqs| - 1];
      OwnedSequencesMembership(init, owners);
      assert forall x :: x in seqs <==> x in init || x == seqs[|seqs| - 1] by {
        assert seqs == init + [seqs[|seqs| - 1]];
      }
    }
  }

  /** ALTER SEQUENCE ... OWNED BY for a sequence that belongs to a column; the column name is written as recorded. */
  function AlterSequenceText(s: Sequence, owner: string): string
  {
    "\n\nALTER SEQUENCE " + s.relation.FQN() + " OWNED BY " + owner + ";\n"
  }

  function AlterSequencesText(seqs: seq<Sequence>, owners: map<string, string>): string
  {
    if seqs == [] then ""
    else
      var s := seqs[|seqs| - 1];
      AlterSequencesText(seqs[..|seqs| - 1], owners)
      + (if s.relation.FQN() in owners then AlterSequenceText(s, owners[s.relation.FQN()]) else "")
  }

  function OwnerEntry(s: Sequence): TocEntry
  {
    TocEntry(s.relation.schema, "", s.relation.name, "SEQUENCE OWNER")
  }

  /** One more sequence adds its OWNED BY text and itself to the owned list when it belongs to a column, and nothing otherwise. */
  lemma AlterSequencesStep(seqs: seq<Sequence>, owners: map<string, string>, i: nat)
    requires i < |seqs|
    ensures seqs[i].relation.FQN() in owners ==>
      AlterSequencesText(seqs[..i + 1], owners)
        == AlterSequencesText(seqs[..i], owners) + AlterSequenceText(seqs[i], owners[seqs[i].relation.FQN()])
      && OwnedSequences(seqs[..i + 1], owners) == OwnedSequences(seqs[..i], owners) + [seqs[i]]
    ensures seqs[i].relation.FQN() !in owners ==>
      AlterSequencesText(seqs[..i + 1], owners) == AlterSequencesText(seqs[..i], owners)
      && OwnedSequences(seqs[..i + 1], owners) == OwnedSequences(seqs[..i], owners)
  {
    assert seqs[..i + 1][..i] == seqs[..i];
    if seqs[i].relation.FQN() !in owners {
      assert AlterSequencesText(seqs[..i + 1], owners) == AlterSequencesText(seqs[..i], owners) + "";
    }
  }

  /** Writes OWNED BY for the i-th sequence when it belongs to a column, extending the output for the first i sequences to the first i + 1. */
  method PrintAlterSequenceStatement(file: PredataFile, seqs: seq<Sequence>, owners: map<string, string>, i: nat,
                                     ghost contents: string, ghost entries: seq<TocEntry>)
    requires i < |seqs|
    requires file.contents == contents + AlterSequencesText(seqs[..i], owners)
    requires file.entries == entries + EntriesFor(OwnedSequences(seqs[..i], owners), OwnerEntry)
    modifies file
    ensures file.contents == contents + AlterSequencesText(seqs[..i + 1], owners)
    ensures file.entries == entries + EntriesFor(OwnedSequences(seqs[..i + 1], owners), OwnerEntry)
  {
    var s := seqs[i];
    var fqn := s.relation.FQN();
    AlterSequencesStep(seqs, owners, i);
    if fqn in owners {
      PrintAlterSequenceText(file, s, owners[fqn]);
      AppendAssoc(contents, AlterSequencesText(seqs[..i], owners), AlterSequenceText(s, owners[fqn]));
      EntriesForSnoc(OwnedSequences(seqs[..i], owners), s, OwnerEntry);
    }
  }

  method PrintAlterSequenceText(file: PredataFile, s: Sequence, owner: string)
    modifies file
    ensures file.contents == old(file.contents) + AlterSequenceText(s, owner)
    ensures file.entries == old(file.entries) + [OwnerEntry(s)]
  {
    file.Write(AlterSequenceText(s, owner));
    file.AddEntry(OwnerEntry(s));
  }

  /** Writes OWNED BY for each sequence that belongs to a column, in list order, with one SEQUENCE OWNER entry each; other sequences get nothing. */
  method PrintAlterSequenceStatements(file: PredataFile, seqs: seq<Sequence>, owners: map<string, string>)
    modifies file
    ensures file.contents == old(file.contents) + AlterSequencesText(seqs, owners)
    ensures file.entries == old(file.entries) + EntriesFor(OwnedSequences(seqs, owners), OwnerEntry)
  {
    var i := 0;
    while i < |seqs|
      invariant 0 <= i <= |seqs|
      invariant file.contents == old(file.contents) + AlterSequencesText(seqs[..i], owners)
      invariant file.entries == old(file.entries) + EntriesFor(OwnedSequences(seqs[..i], owners), OwnerEntry)
    {
      PrintAlterSequenceStatement(file, seqs, owners, i, old(file.contents), old(file.entries));
      i := i + 1;
    }
    assert seqs[..i] == seqs;
  }

  /** Nothing is written and no entry recorded exactly when no sequence in the list belongs to a column. */
  lemma {:induction false} NoOwnedSequences(seqs: seq<Sequence>, owners: map<string, string>)
    ensures AlterSequencesText(seqs, owners) == "" <==> forall s :: s in seqs ==> s.relation.FQN() !in owners
    ensures OwnedSequences(seqs, owners) == [] <==> forall s :: s in seqs ==> s.relation.FQN() !in owners
  {
    if seqs != [] {
      var init, s := seqs[..|seqs| - 1], seqs[|seqs| - 1];
      NoOwnedSequences(init, owners);
      assert forall x :: x in seqs <==> x in init || x == s;
      if s.relation.FQN() in owners {
        var t := AlterSequenceText(s, owners[s.relation.FQN()]);
        assert t[0] == '\n';
        assert |AlterSequencesText(seqs, owners)| >= |t| > 0;
      } else {
        assert AlterSequencesText(seqs, owners) == AlterSequencesText(init, owners) + "";
      }
    }
  }
}
