/**
 * CREATE TEXT SEARCH PARSER / TEMPLATE / DICTIONARY / CONFIGURATION, each a
 * parenthesised option list in a fixed key order, followed by the object's
 * comment and owner; a configuration adds one ADD MAPPING statement per token.
 */
module TextSearchDdl {
  import opened Strings
  import opened Acl
  import opened Toc

  datatype TextSearchParser = TextSearchParser(
    oid: nat, schema: string, name: string,
    startFunc: string, tokenFunc: string, endFunc: string, lexTypesFunc: string, headlineFunc: string)
  {
    function FQN(): string { schema + "." + name }
  }

  datatype TextSearchTemplate = TextSearchTemplate(oid: nat, schema: string, name: string, initFunc: string, lexizeFunc: string)
  {
    function FQN(): string { schema + "." + name }
  }

  datatype TextSearchDictionary = TextSearchDictionary(oid: nat, schema: string, name: string, template: string, initOption: string)
  {
    function FQN(): string { schema + "." + name }
  }

  /** A configuration maps each token type to the dictionaries consulted for it, in order. */
  datatype TextSearchConfiguration = TextSearchConfiguration(
    oid: nat, schema: string, name: string, parser: string, tokenToDicts: map<string, seq<string>>)
  {
    function FQN(): string { schema + "." + name }
  }

  /* ------------------------------------------------ statements */

  /** One `KEY = value` item of an option list. */
  function OptionItem(key: string, value: string): string
  {
    "\t" + key + " = " + value
  }

  /** `CREATE TEXT SEARCH ... name (`, the option items one per line separated by commas, then `);`. */
  function CreateStatement(t: ObjectType, fqn: string, options: seq<string>): string
  {
    ListStatement("CREATE " + Keyword(t) + " " + fqn + " (", options, ");")
  }

  /** Each option item sits on a line of its own, every one but the last followed by a comma, between the header and the closing line. */
  lemma CreateStatementLines(t: ObjectType, fqn: string, options: seq<string>)
    requires '\n' !in fqn
    requires forall o :: o in options ==> '\n' !in o
    ensures Split(CreateStatement(t, fqn, options), '\n')
      == ["CREATE " + Keyword(t) + " " + fqn + " ("] + Punctuated(options, ",") + [");"]
  {
    ListStatementLines("CREATE " + Keyword(t) + " " + fqn + " (", options, ");");
  }

  /** Everything written for one object: the statement, anything that follows it, then its comment, owner and privileges. */
  function ObjectText(t: ObjectType, fqn: string, options: seq<string>, extra: string, m: ObjectMetadata): string
  {
    "\n\n" + CreateStatement(t, fqn, options) + extra + ObjectMetadataText(m, t, fqn)
  }

  /* ------------------------------------------------ parsers */

  /** START, GETTOKEN, END and LEXTYPES in this order, then HEADLINE when the parser has one. */
  function ParserOptions(p: TextSearchParser): seq<string>
  {
    [OptionItem("START", p.startFunc), OptionItem("GETTOKEN", p.tokenFunc),
     OptionItem("END", p.endFunc), OptionItem("LEXTYPES", p.lexTypesFunc)]
    + (if p.headlineFunc != "" then [OptionItem("HEADLINE", p.headlineFunc)] else [])
  }

  /** The four mandatory functions come first in a fixed order; a HEADLINE item is present exactly when the parser has a headline function, and then last. */
  lemma ParserOptionOrder(p: TextSearchParser)
    ensures var o := ParserOptions(p);
      && |o| >= 4
      && o[..4] == [OptionItem("START", p.startFunc), OptionItem("GETTOKEN", p.tokenFunc),
                    OptionItem("END", p.endFunc), OptionItem("LEXTYPES", p.lexTypesFunc)]
      && (|o| == 5 <==> p.headlineFunc != "")
      && (p.headlineFunc != "" ==> o[4] == OptionItem("HEADLINE", p.headlineFunc))
  {
  }

  function ParserText(p: TextSearchParser, m: ObjectMetadata): string
  {
    ObjectText(ObjectType.TextSearchParser, p.FQN(), ParserOptions(p), "", m)
  }

  function ParserTextIn(metadata: MetadataMap): TextSearchParser -> string
  {
    (p: TextSearchParser) => ParserText(p, MetadataFor(metadata, p.oid))
  }

  function ParserEntry(p: TextSearchParser): TocEntry
  {
    TocEntry(p.schema, "", p.name, Keyword(ObjectType.TextSearchParser))
  }

  /** Writes every parser, in list order, each followed by its metadata, with one TEXT SEARCH PARSER entry each. */
  method PrintCreateTextSearchParserStatements(file: PredataFile, parsers: seq<TextSearchParser>, metadata: MetadataMap)
    modifies file
    ensures file.contents == old(file.contents) + TextsFor(parsers, ParserTextIn(metadata))
    ensures file.entries == old(file.entries) + EntriesFor(parsers, ParserEntry)
  {
    PrintEach(file, parsers, ParserTextIn(metadata), ParserEntry);
  }

  /** A parser with no metadata is exactly its CREATE statement: the items sit one per line, in the fixed order. */
  lemma ParserLines(p: TextSearchParser)
    requires '\n' !in p.FQN()
    requires '\n' !in p.startFunc + p.tokenFunc + p.endFunc + p.lexTypesFunc + p.headlineFunc
    ensures ParserText(p, NoMetadata) == "\n\n" + CreateStatement(ObjectType.TextSearchParser, p.FQN(), ParserOptions(p))
    ensures Split(CreateStatement(ObjectType.TextSearchParser, p.FQN(), ParserOptions(p)), '\n')
      == ["CREATE " + Keyword(ObjectType.TextSearchParser) + " " + p.FQN() + " ("]
         + Punctuated(ParserOptions(p), ",") + [");"]
  {
    ObjectMetadataTextEmpty(NoMetadata, ObjectType.TextSearchParser, p.FQN());
    NoBreakInParts(p.startFunc, p.tokenFunc, p.endFunc, p.lexTypesFunc, p.headlineFunc);
    OptionItemSingleLine("START", p.startFunc);
    OptionItemSingleLine("GETTOKEN", p.tokenFunc);
    OptionItemSingleLine("END", p.endFunc);
    OptionItemSingleLine("LEXTYPES", p.lexTypesFunc);
    OptionItemSingleLine("HEADLINE", p.headlineFunc);
    CreateStatementLines(ObjectType.TextSearchParser, p.FQN(), ParserOptions(p));
  }

  lemma NoBreakInParts(a: string, b: string, c: string, d: string, e: string)
    requires '\n' !in a + b + c + d + e
    ensures '\n' !in a && '\n' !in b && '\n' !in c && '\n' !in d && '\n' !in e
  {
    assert a + b + c + d + e == a + (b + (c + (d + e)));
  }

  lemma OptionItemSingleLine(key: string, value: string)
    requires '\n' !in key && '\n' !in value
    ensures '\n' !in OptionItem(key, value)
  {
  }

  /* ------------------------------------------------ templates */

  /** INIT when the template has an init function, then LEXIZE. */
  function TemplateOptions(t: TextSearchTemplate): seq<string>
  {
    (if t.initFunc != "" then [OptionItem("INIT", t.initFunc)] else []) + [OptionItem("LEXIZE", t.lexizeFunc)]
  }

  /** LEXIZE is always the last item; INIT comes before it exactly when the template has an init function. */
  lemma TemplateOptionOrder(t: TextSearchTemplate)
    ensures var o := TemplateOptions(t);
      && o[|o| - 1] == OptionItem("LEXIZE", t.lexizeFunc)
      && (|o| == 2 <==> t.initFunc != "")
      && (t.initFunc != "" ==> o[0] == OptionItem("INIT", t.initFunc))
  {
  }

  function TemplateText(t: TextSearchTemplate, m: ObjectMetadata): string
  {
    ObjectText(ObjectType.TextSearchTemplate, t.FQN(), TemplateOptions(t), "", m)
  }

  function TemplateTextIn(metadata: MetadataMap): TextSearchTemplate -> string
  {
    (t: TextSearchTemplate) => TemplateText(t, MetadataFor(metadata, t.oid))
  }

  function TemplateEntry(t: TextSearchTemplate): TocEntry
  {
    TocEntry(t.schema, "", t.name, Keyword(ObjectType.TextSearchTemplate))
  }

  /** Writes every template, in list order, each followed by its metadata, with one TEXT SEARCH TEMPLATE entry each. */
  method PrintCreateTextSearchTemplateStatements(file: PredataFile, templates: seq<TextSearchTemplate>, metadata: MetadataMap)
    modifies file
    ensures file.contents == old(file.contents) + TextsFor(templates, TemplateTextIn(metadata))
    ensures file.entries == old(file.entries) + EntriesFor(templates, TemplateEntry)
  {
    PrintEach(file, templates, TemplateTextIn(metadata), TemplateEntry);
  }

  /* ------------------------------------------------ dictionaries */

  /** TEMPLATE first, then the dictionary's init options as one verbatim item when it has any. */
  function DictionaryOptions(d: TextSearchDictionary): seq<string>
  {
    [OptionItem("TEMPLATE", d.template)] + (if d.initOption != "" then ["\t" + d.initOption] else [])
  }

  /** The template item always comes first; the init options follow, unchanged, exactly when there are any. */
  lemma DictionaryOptionOrder(d: TextSearchDictionary)
    ensures var o := DictionaryOptions(d);
      && o[0] == OptionItem("TEMPLATE", d.template)
      && (|o| == 2 <==> d.initOption != "")
      && (d.initOption != "" ==> o[1][1..] == d.initOption)
  {
  }

  function DictionaryText(d: TextSearchDictionary, m: ObjectMetadata): string
  {
    ObjectText(ObjectType.TextSearchDictionary, d.FQN(), DictionaryOptions(d), "", m)
  }

  function DictionaryTextIn(metadata: MetadataMap): TextSearchDictionary -> string
  {
    (d: TextSearchDictionary) => DictionaryText(d, MetadataFor(metadata, d.oid))
  }

  function DictionaryEntry(d: TextSearchDictionary): TocEntry
  {
    TocEntry(d.schema, "", d.name, Keyword(ObjectType.TextSearchDictionary))
  }

  /** Writes every dictionary, in list order, each followed by its metadata, with one TEXT SEARCH DICTIONARY entry each. */
  method PrintCreateTextSearchDictionaryStatements(file: PredataFile, dictionaries: seq<TextSearchDictionary>, metadata: MetadataMap)
    modifies file
    ensures file.contents == old(file.contents) + TextsFor(dictionaries, DictionaryTextIn(metadata))
    ensures file.entries == old(file.entries) + EntriesFor(dictionaries, DictionaryEntry)
  {
    PrintEach(file, dictionaries, DictionaryTextIn(metadata), DictionaryEntry);
  }

  /* ------------------------------------------------ configurations */

  /** Maps one token type to its dictionaries, listed in the order given. */
  function MappingStatement(fqn: string, token: string, dicts: seq<string>): string
  {
    "ALTER TEXT SEARCH CONFIGURATION " + fqn + "\n\tADD MAPPING FOR \"" + token + "\" WITH " + Join(dicts, ", ") + ";"
  }

  /** The mapping statements for the given tokens, in the order of the tokens. */
  function MappingStatements(fqn: string, tokens: seq<string>, tokenToDicts: map<string, seq<string>>): (r: seq<string>)
    requires forall t :: t in tokens ==> t in tokenToDicts
    ensures |r| == |tokens|
    ensures forall i :: 0 <= i < |tokens| ==> r[i] == MappingStatement(fqn, tokens[i], tokenToDicts[tokens[i]])
  {
    if tokens == [] then []
    else MappingStatements(fqn, tokens[..|tokens| - 1], tokenToDicts) + [MappingStatement(fqn, tokens[|tokens| - 1], tokenToDicts[tokens[|tokens| - 1]])]
  }

  /** Each statement on its own, after a blank line. */
  function Paragraphs(statements: seq<string>): string
  {
    if statements == [] then ""
    else Paragraphs(statements[..|statements| - 1]) + "\n\n" + statements[|statements| - 1]
  }

  /** The token types of a configuration in ascending byte order. */
  function SortedTokens(c: TextSearchConfiguration): (r: seq<string>)
    ensures forall t :: t in r ==> t in c.tokenToDicts
  {
    SortedSet(c.tokenToDicts.Keys)
  }

  function ConfigurationText(c: TextSearchConfiguration, m: ObjectMetadata): string
  {
    var fqn := c.FQN();
    ObjectText(ObjectType.TextSearchConfiguration, fqn, [OptionItem("PARSER", c.parser)],
               Paragraphs(MappingStatements(fqn, SortedTokens(c), c.tokenToDicts)), m)
  }

  function ConfigurationTextIn(metadata: MetadataMap): TextSearchConfiguration -> string
  {
    (c: TextSearchConfiguration) => ConfigurationText(c, MetadataFor(metadata, c.oid))
  }

  function ConfigurationEntry(c: TextSearchConfiguration): TocEntry
  {
    TocEntry(c.schema, "", c.name, Keyword(ObjectType.TextSearchConfiguration))
  }

  /** Writes every configuration, in list order, each with its mappings and metadata, with one TEXT SEARCH CONFIGURATION entry each. */
  method PrintCreateTextSearchConfigurationStatements(file: PredataFile, configurations: seq<TextSearchConfiguration>, metadata: MetadataMap)
    modifies file
    ensures file.contents == old(file.contents) + TextsFor(configurations, ConfigurationTextIn(metadata))
    ensures file.entries == old(file.entries) + EntriesFor(configurations, ConfigurationEntry)
  {
    PrintEach(file, configurations, ConfigurationTextIn(metadata), ConfigurationEntry);
  }

  /**
   * There is one mapping statement per token type of the configuration, no
   * more and no fewer; they come in strictly ascending token order, and each
   * lists that token's dictionaries in their given order.
   */
  lemma ConfigurationMappings(c: TextSearchConfiguration)
    ensures var tokens := SortedTokens(c);
      var mappings := MappingStatements(c.FQN(), tokens, c.tokenToDicts);
      && |mappings| == |c.tokenToDicts|
      && (forall t :: t in c.tokenToDicts <==> exists i :: 0 <= i < |tokens| && tokens[i] == t)
      && (forall i, j :: 0 <= i < j < |tokens| ==> Below(tokens[i], tokens[j]) && tokens[i] != tokens[j])
      && (forall i :: 0 <= i < |tokens| ==>
            mappings[i] == MappingStatement(c.FQN(), tokens[i], c.tokenToDicts[tokens[i]]))
  {
    var tokens := SortedTokens(c);
    forall t | t in c.tokenToDicts
      ensures exists i :: 0 <= i < |tokens| && tokens[i] == t
    {
      assert t in c.tokenToDicts.Keys;
      var i :| 0 <= i < |tokens| && tokens[i] == t;
    }
  }

  /** A configuration has mapping statements exactly when it maps at least one token type. */
  lemma MappingsEmpty(c: TextSearchConfiguration)
    ensures Paragraphs(MappingStatements(c.FQN(), SortedTokens(c), c.tokenToDicts)) == "" <==> c.tokenToDicts == map[]
  {
    var mappings := MappingStatements(c.FQN(), SortedTokens(c), c.tokenToDicts);
    if c.tokenToDicts != map[] {
      var t :| t in c.tokenToDicts;
      assert t in c.tokenToDicts.Keys;
      assert mappings != [];
      assert |Paragraphs(mappings)| >= 2;
    } else {
      assert c.tokenToDicts.Keys == {};
    }
  }

  /** A configuration without token mappings is its CREATE statement followed directly by its metadata, and only such a configuration is. */
  lemma ConfigurationWithoutMappings(c: TextSearchConfiguration, m: ObjectMetadata)
    ensures c.tokenToDicts == map[]
      <==> ConfigurationText(c, m) == ObjectText(ObjectType.TextSearchConfiguration, c.FQN(), [OptionItem("PARSER", c.parser)], "", m)
  {
    var mappings := Paragraphs(MappingStatements(c.FQN(), SortedTokens(c), c.tokenToDicts));
    MappingsEmpty(c);
    ObjectTextLength(ObjectType.TextSearchConfiguration, c.FQN(), [OptionItem("PARSER", c.parser)], mappings, m);
  }

  lemma ObjectTextLength(t: ObjectType, fqn: string, options: seq<string>, extra: string, m: ObjectMetadata)
    ensures |ObjectText(t, fqn, options, extra, m)| == |ObjectText(t, fqn, options, "", m)| + |extra|
    ensures extra == "" ==> ObjectText(t, fqn, options, extra, m) == ObjectText(t, fqn, options, "", m)
  {
  }
}
