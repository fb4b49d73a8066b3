/**
 * Access-control entries, per-object metadata (privileges, owner, comment)
 * and the statements that restore them: COMMENT ON, ALTER ... OWNER TO and
 * the REVOKE/GRANT block.
 */
module Acl {
  import opened Wrappers
  import opened Strings

  /** The privileges an access-control entry can hold. */
  datatype Privilege =
    | Select | Insert | Update | Delete | Truncate | References | Trigger
    | Usage | Execute | Create | Temporary | Connect

  const AllKinds: set<Privilege> :=
    {Select, Insert, Update, Delete, Truncate, References, Trigger, Usage, Execute, Create, Temporary, Connect}

  /** One entry of a catalog access-control list: the grantee ("" for PUBLIC) and the privileges it holds. */
  datatype ACL = ACL(grantee: string, granted: set<Privilege>)

  /** Privileges, owner and comment of one catalog object. */
  datatype ObjectMetadata = ObjectMetadata(privileges: seq<ACL>, owner: string, comment: string)

  /** Metadata keyed by object oid. */
  type MetadataMap = map<nat, ObjectMetadata>

  const NoMetadata := ObjectMetadata([], "", "")

  /** Looking up an oid that has no metadata yields the empty metadata, as a Go map lookup yields the zero value. */
  function MetadataFor(m: MetadataMap, oid: nat): (r: ObjectMetadata)
    ensures oid in m ==> r == m[oid]
    ensures oid !in m ==> r == NoMetadata
  {
    if oid in m then m[oid] else NoMetadata
  }

  /** The kinds of object whose metadata this model prints. */
  datatype ObjectType =
    | Table | View | Sequence | Column
    | TextSearchParser | TextSearchTemplate | TextSearchDictionary | TextSearchConfiguration

  /** The object-type keyword used in COMMENT ON, GRANT and the table of contents. */
  function Keyword(t: ObjectType): (k: string)
    ensures '\n' !in k
  {
    match t
    case Table => "TABLE"
    case View => "VIEW"
    case Sequence => "SEQUENCE"
    case Column => "COLUMN"
    case TextSearchParser => "TEXT SEARCH PARSER"
    case TextSearchTemplate => "TEXT SEARCH TEMPLATE"
    case TextSearchDictionary => "TEXT SEARCH DICTIONARY"
    case TextSearchConfiguration => "TEXT SEARCH CONFIGURATION"
  }

  /* ------------------------------------------------ parsing an aclitem */

  /** The letter that stands for a privilege in an aclitem. */
  function Letter(p: Privilege): (c: char)
    ensures ('a' <= c <= 'z') || ('A' <= c <= 'Z')
  {
    match p
    case Select => 'r'
    case Insert => 'a'
    case Update => 'w'
    case Delete => 'd'
    case Truncate => 'D'
    case References => 'x'
    case Trigger => 't'
    case Usage => 'U'
    case Execute => 'X'
    case Create => 'C'
    case Temporary => 'T'
    case Connect => 'c'
  }

  lemma LetterInjective(p: Privilege, q: Privilege)
    ensures Letter(p) == Letter(q) ==> p == q
  {
  }

  predicate IsPrivilegeChar(c: char)
  {
    ('a' <= c <= 'z') || ('A' <= c <= 'Z') || c == '*'
  }

  /** Length of the run of privilege characters `[a-zA-Z*]` at the start of `s`. */
  function PrivilegeRun(s: string): (n: nat)
    ensures n <= |s|
    ensures forall i :: 0 <= i < n ==> IsPrivilegeChar(s[i])
    ensures n == |s| || !IsPrivilegeChar(s[n])
  {
    if s != [] && IsPrivilegeChar(s[0]) then 1 + PrivilegeRun(s[1..]) else 0
  }

  /** The pattern `^(.*)=([a-zA-Z*]*)/(.*)$` can match `s` with its '=' at position `i`. */
  predicate SplitsAt(s: string, i: int)
  {
    && 0 <= i < |s| && s[i] == '='
    && i + 1 + PrivilegeRun(s[i + 1..]) < |s|
    && s[i + 1 + PrivilegeRun(s[i + 1..])] == '/'
  }

  /** The last position below `n` at which the pattern can split `s`: the greedy first group takes the longest prefix. */
  function LastSplit(s: string, n: nat): (r: Option<nat>)
    requires n <= |s|
    ensures r.Some? ==> r.value < n && SplitsAt(s, r.value) && forall j :: r.value < j < n ==> !SplitsAt(s, j)
    ensures r.None? ==> forall j :: 0 <= j < n ==> !SplitsAt(s, j)
  {
    if n == 0 then None
    else if SplitsAt(s, n - 1) then Some(n - 1)
    else LastSplit(s, n - 1)
  }

  /**
   * Reads one aclitem `grantee=privileges/grantor`. Letters that stand for no
   * privilege and the grant-option mark `*` are ignored. A string the pattern
   * does not match (the empty string among them) yields None.
   */
  function ParseACL(s: string): Option<ACL>
  {
    if '\n' in s then None // '.' in the pattern does not match a line break
    else
      match LastSplit(s, |s|)
      case None => None
      case Some(i) =>
        var perms := s[i + 1..i + 1 + PrivilegeRun(s[i + 1..])];
        Some(ACL(s[..i], set p | p in AllKinds && Letter(p) in perms))
  }

  /** The catalog's order of privilege letters in an aclitem. */
  const CatalogOrder: seq<Privilege> :=
    [Insert, Select, Update, Delete, Truncate, References, Trigger, Execute, Usage, Create, Temporary, Connect]

  /** The letters of the privileges in `order` that the entry holds. */
  function LettersOf(a: ACL, order: seq<Privilege>): (r: string)
    ensures forall i :: 0 <= i < |r| ==> IsPrivilegeChar(r[i])
  {
    if order == [] then ""
    else (if order[0] in a.granted then [Letter(order[0])] else []) + LettersOf(a, order[1..])
  }

  lemma {:induction false} LettersOfMember(a: ACL, order: seq<Privilege>, p: Privilege)
    ensures Letter(p) in LettersOf(a, order) <==> p in order && p in a.granted
  {
    if order != [] {
      LetterInjective(p, order[0]);
      LettersOfMember(a, order[1..], p);
      var head := if order[0] in a.granted then [Letter(order[0])] else [];
      assert LettersOf(a, order) == head + LettersOf(a, order[1..]);
      assert p in order <==> p == order[0] || p in order[1..] by {
        assert order == [order[0]] + order[1..];
      }
    }
  }

  /** The aclitem text the catalog holds for an entry granted by `grantor`. */
  function AclItem(a: ACL, grantor: string): string
  {
    a.grantee + "=" + LettersOf(a, CatalogOrder) + "/" + grantor
  }

  lemma {:induction false} PrivilegeRunAfterLetters(x: string, y: string)
    requires forall i :: 0 <= i < |x| ==> IsPrivilegeChar(x[i])
    requires y != [] && !IsPrivilegeChar(y[0])
    ensures PrivilegeRun(x + y) == |x|
  {
    if x != [] {
      assert (x + y)[1..] == x[1..] + y;
      PrivilegeRunAfterLetters(x[1..], y);
    } else {
      assert x + y == y;
    }
  }

  lemma EveryKind(p: Privilege)
    ensures p in AllKinds && p in CatalogOrder && p in GrantOrder
  {
  }

  lemma {:induction false} LastSplitFinds(s: string, i: nat, n: nat)
    requires i < n <= |s| && SplitsAt(s, i)
    requires forall j :: i < j < n ==> !SplitsAt(s, j)
    ensures LastSplit(s, n) == Some(i)
  {
    if n - 1 != i {
      LastSplitFinds(s, i, n - 1);
    }
  }

  /** Where the pattern splits an aclitem: at the '=' after the grantee, the last '=' in it. */
  lemma {:induction false} AclItemSplit(grantee: string, letters: string, grantor: string)
    requires forall i :: 0 <= i < |letters| ==> IsPrivilegeChar(letters[i])
    requires '=' !in grantor
    ensures var s := grantee + "=" + letters + "/" + grantor;
      LastSplit(s, |s|) == Some(|grantee|) && PrivilegeRun(s[|grantee| + 1..]) == |letters|
  {
    var s := grantee + "=" + letters + "/" + grantor;
    var i := |grantee|;
    var tail := "/" + grantor;
    assert s[i + 1..] == letters + tail;
    PrivilegeRunAfterLetters(letters, tail);
    forall j | i < j < |s|
      ensures s[j] != '='
    {
      if j <= i + |letters| {
        assert s[j] == letters[j - i - 1];
      } else {
        assert s[j] == tail[j - i - 1 - |letters|];
      }
    }
    LastSplitFinds(s, i, |s|);
  }

  lemma AclTextSingleLine(grantee: string, letters: string, grantor: string)
    requires forall i :: 0 <= i < |letters| ==> IsPrivilegeChar(letters[i])
    requires '\n' !in grantee && '\n' !in grantor
    ensures '\n' !in grantee + "=" + letters + "/" + grantor
  {
    assert forall j :: 0 <= j < |letters| ==> letters[j] != '\n';
    assert '\n' !in "=" + letters + "/";
    assert grantee + "=" + letters + "/" + grantor == grantee + ("=" + letters + "/") + grantor;
  }

  /** An aclitem with the given parts reads back as the grantee holding the privileges named by the letters. */
  lemma ParseAclText(grantee: string, letters: string, grantor: string)
    requires forall i :: 0 <= i < |letters| ==> IsPrivilegeChar(letters[i])
    requires '\n' !in grantee && '\n' !in grantor && '=' !in grantor
    ensures ParseACL(grantee + "=" + letters + "/" + grantor)
      == Some(ACL(grantee, set p | p in AllKinds && Letter(p) in letters))
  {
    var s := grantee + "=" + letters + "/" + grantor;
    var i := |grantee|;
    AclTextSingleLine(grantee, letters, grantor);
    AclItemSplit(grantee, letters, grantor);
    assert s[i + 1..i + 1 + PrivilegeRun(s[i + 1..])] == letters;
    assert s[..i] == grantee;
  }

  /** Every aclitem the catalog writes reads back as the entry it was written from. */
  lemma ParseAclItem(a: ACL, grantor: string)
    requires '\n' !in a.grantee && '\n' !in grantor && '=' !in grantor
    ensures ParseACL(AclItem(a, grantor)) == Some(a)
  {
    var letters := LettersOf(a, CatalogOrder);
    ParseAclText(a.grantee, letters, grantor);
    var read := set p | p in AllKinds && Letter(p) in letters;
    forall p
      ensures p in read <==> p in a.granted
    {
      EveryKind(p);
      LettersOfMember(a, CatalogOrder, p);
    }
    assert read == a.granted;
  }

  /** A NULL privilege string (read as the empty string) holds no entry. */
  lemma ParseEmptyACL()
    ensures ParseACL("") == None
  {
    assert LastSplit("", 0) == None;
  }

  /** An aclitem with one privilege letter reads back as that one privilege. */
  lemma SingleLetterItem(grantee: string, p: Privilege, grantor: string)
    requires '\n' !in grantee && '\n' !in grantor && '=' !in grantor
    ensures ParseACL(grantee + "=" + [Letter(p)] + "/" + grantor) == Some(ACL(grantee, {p}))
  {
    ParseAclText(grantee, [Letter(p)], grantor);
    var read := set q | q in AllKinds && Letter(q) in [Letter(p)];
    forall q
      ensures q in read <==> q == p
    {
      EveryKind(q);
      LetterInjective(q, p);
    }
    assert read == {p};
  }

  /* ------------------------------------------------ catalog rows */

  /**
   * The aclitem text a catalog row stands for: the placeholder
   * `GRANTEE=/GRANTOR` when the list is explicitly empty, the row's text when
   * it has one, and "" for NULL (the default privileges).
   */
  function RowPrivileges(privileges: Option<string>, kind: string): string
  {
    if kind == "Empty" then "GRANTEE=/GRANTOR"
    else if privileges.Some? then privileges.value
    else ""
  }

  /** The entries a row contributes: its parsed aclitem, or none when the text does not parse. */
  function RowAcls(privileges: Option<string>, kind: string): (r: seq<ACL>)
    ensures |r| <= 1
  {
    Listed(ParseACL(RowPrivileges(privileges, kind)))
  }

  /** The entry a parse found, as a list of at most one. */
  function Listed(parsed: Option<ACL>): seq<ACL>
  {
    if parsed.Some? then [parsed.value] else []
  }

  /** An explicitly empty list stands for one entry: grantee GRANTEE holding nothing. */
  lemma PlaceholderText()
    ensures "GRANTEE=/GRANTOR" == "GRANTEE" + "=" + "" + "/" + "GRANTOR"
  {
  }

  lemma EmptyKindRow(privileges: Option<string>)
    ensures RowAcls(privileges, "Empty") == [ACL("GRANTEE", {})]
  {
    ParseAclText("GRANTEE", "", "GRANTOR");
    PlaceholderText();
    assert (set p | p in AllKinds && Letter(p) in "") == {};
  }

  /** A NULL or empty privileges text that is not marked empty (the default privileges) contributes no entry. */
  lemma NullRow(privileges: Option<string>, kind: string)
    requires kind != "Empty"
    requires privileges.None? || privileges.value == ""
    ensures RowAcls(privileges, kind) == []
  {
    ParseEmptyACL();
  }

  /** A row holding an aclitem with one privilege letter (`r` for SELECT, `a` for INSERT, ...) contributes that grantee holding that privilege alone. */
  lemma SingleLetterRow(grantee: string, p: Privilege, grantor: string, kind: string)
    requires '\n' !in grantee && '\n' !in grantor && '=' !in grantor && kind != "Empty"
    ensures RowAcls(Some(grantee + "=" + [Letter(p)] + "/" + grantor), kind) == [ACL(grantee, {p})]
  {
    SingleLetterItem(grantee, p, grantor);
  }

  /* ------------------------------------------------ restore statements */

  /** COMMENT ON statement for an object; the comment is written as a quoted literal. */
  function CommentStatement(t: ObjectType, name: string, comment: string): string
  {
    "COMMENT ON " + Keyword(t) + " " + name + " IS '" + EscapeSingleQuotes(comment) + "';"
  }

  /** The comment literal cannot end early, and it reads back as the comment itself. */
  lemma CommentLiteralReadsBack(t: ObjectType, name: string, comment: string)
    ensures exists body ::
      && CommentStatement(t, name, comment) == "COMMENT ON " + Keyword(t) + " " + name + " IS '" + body + "';"
      && QuotesDoubled(body) && UnescapeSingleQuotes(body) == comment
  {
    EscapeSingleQuotesRoundTrip(comment);
    var body := EscapeSingleQuotes(comment);
    assert CommentStatement(t, name, comment) == "COMMENT ON " + Keyword(t) + " " + name + " IS '" + body + "';";
  }

  /**
   * ALTER ... OWNER TO statement, or "" when there is none to write: a
   * sequence is altered as a TABLE, and a view's owner is not restored.
   */
  function OwnerStatement(t: ObjectType, name: string, owner: string): (r: string)
    ensures r == "" <==> owner == "" || t == View
  {
    if owner == "" || t == View then ""
    else
      var typeStr := if t == Sequence then "TABLE" else Keyword(t);
      "ALTER " + typeStr + " " + name + " OWNER TO " + owner + ";"
  }

  /** The privileges that together make up ALL for an object of type `t`; other types have no ALL form here. */
  function AllPrivileges(t: ObjectType): set<Privilege>
  {
    match t
    case Column => {Select, Insert, Update, References}
    case Sequence => {Select, Update, Usage}
    case Table => {Select, Insert, Update, Delete, Truncate, References, Trigger}
    case View => {Select, Insert, Update, Delete, Truncate, References, Trigger}
    case _ => {}
  }

  predicate HasAllPrivileges(a: ACL, t: ObjectType)
  {
    AllPrivileges(t) != {} && AllPrivileges(t) <= a.granted
  }

  /** The keyword of a privilege in GRANT. */
  function PrivilegeName(p: Privilege): (r: string)
    ensures |r| > 0 && r[0] != 'A' && ',' !in r && '\n' !in r
  {
    match p
    case Select => "SELECT"
    case Insert => "INSERT"
    case Update => "UPDATE"
    case Delete => "DELETE"
    case Truncate => "TRUNCATE"
    case References => "REFERENCES"
    case Trigger => "TRIGGER"
    case Usage => "USAGE"
    case Execute => "EXECUTE"
    case Create => "CREATE"
    case Temporary => "TEMPORARY"
    case Connect => "CONNECT"
  }

  lemma NameInjective(p: Privilege, q: Privilege)
    ensures PrivilegeName(p) == PrivilegeName(q) ==> p == q
  {
  }

  /** The order in which GRANT lists privileges. */
  const GrantOrder: seq<Privilege> :=
    [Select, Insert, Update, Delete, Truncate, References, Trigger, Usage, Execute, Create, Temporary, Connect]

  /** The keywords of the privileges in `order` that the entry holds. */
  function NamesOf(a: ACL, order: seq<Privilege>): (r: seq<string>)
    ensures forall n :: n in r ==> |n| > 0 && n[0] != 'A' && ',' !in n && '\n' !in n
  {
    if order == [] then []
    else (if order[0] in a.granted then [PrivilegeName(order[0])] else []) + NamesOf(a, order[1..])
  }

  lemma {:induction false} NamesOfMember(a: ACL, order: seq<Privilege>, p: Privilege)
    ensures PrivilegeName(p) in NamesOf(a, order) <==> p in order && p in a.granted
  {
    if order != [] {
      NameInjective(p, order[0]);
      NamesOfMember(a, order[1..], p);
      var head := if order[0] in a.granted then [PrivilegeName(order[0])] else [];
      assert NamesOf(a, order) == head + NamesOf(a, order[1..]);
      assert p in order <==> p == order[0] || p in order[1..] by {
        assert order == [order[0]] + order[1..];
      }
    }
  }

  /** The privilege keywords an entry holds, in GRANT order. */
  function PrivilegeNames(a: ACL): seq<string>
  {
    NamesOf(a, GrantOrder)
  }

  /** Reads a GRANT privilege list back into an entry for `grantee`. */
  function EntryFromNames(grantee: string, names: seq<string>): ACL
  {
    ACL(grantee, set p | p in AllKinds && PrivilegeName(p) in names)
  }

  /** An entry lists no privilege keyword exactly when it holds no privilege. */
  lemma PrivilegeNamesEmpty(a: ACL)
    ensures PrivilegeNames(a) == [] <==> a.granted == {}
  {
    if a.granted != {} {
      var p :| p in a.granted;
      EveryKind(p);
      NamesOfMember(a, GrantOrder, p);
    } else {
      NamesOfNone(a, GrantOrder);
    }
  }

  lemma {:induction false} NamesOfNone(a: ACL, order: seq<Privilege>)
    requires a.granted == {}
    ensures NamesOf(a, order) == []
  {
    if order != [] {
      NamesOfNone(a, order[1..]);
    }
  }

  /** The comma-separated privilege list of a GRANT reads back as the entry it was written from. */
  lemma PrivilegeListReadsBack(a: ACL)
    requires a.granted != {}
    ensures Split(Join(PrivilegeNames(a), ","), ',') == PrivilegeNames(a)
    ensures EntryFromNames(a.grantee, PrivilegeNames(a)) == a
  {
    var names := PrivilegeNames(a);
    PrivilegeNamesEmpty(a);
    SplitJoin(names, ',');
    var read := set p | p in AllKinds && PrivilegeName(p) in names;
    forall p
      ensures p in read <==> p in a.granted
    {
      EveryKind(p);
      NamesOfMember(a, GrantOrder, p);
    }
    assert read == a.granted;
  }

  /** The `ON ...` part of a statement: an optional column list, the type word (none for a view, TABLE for a column) and the name. */
  function Target(t: ObjectType, name: string, column: Option<string>): (r: string)
    ensures '\n' !in name && (column.Some? ==> '\n' !in column.value) ==> '\n' !in r
  {
    var columnStr := if column.Some? then "(" + column.value + ") " else "";
    var typeStr := if t == View then "" else if t == Column then "TABLE " else Keyword(t) + " ";
    columnStr + "ON " + typeStr + name
  }

  /** `GRANT privileges ON ... TO grantee;` */
  function GrantLine(privileges: string, target: string, grantee: string): (g: string)
    ensures '\n' !in privileges && '\n' !in target && '\n' !in grantee ==> '\n' !in g
    ensures |g| > 7 + |privileges| && g[..6] == "GRANT " && g[6..6 + |privileges|] == privileges
    ensures g[6 + |privileges|] == ' '
  {
    var g := "GRANT " + privileges + " " + target + " TO " + grantee + ";";
    assert g == "GRANT " + (privileges + (" " + target + " TO " + grantee + ";"));
    g
  }

  /** GRANT statement for one entry, or "" when the entry holds no privilege. */
  function GrantStatement(a: ACL, t: ObjectType, target: string): (g: string)
    ensures '\n' !in target && '\n' !in a.grantee ==> '\n' !in g
  {
    var grantee := if a.grantee == "" then "PUBLIC" else a.grantee;
    var all := HasAllPrivileges(a, t);
    var names := PrivilegeNames(a);
    JoinWithout(names, ",", '\n');
    if all then GrantLine("ALL", target, grantee)
    else if names == [] then ""
    else GrantLine(Join(names, ","), target, grantee)
  }

  lemma AllPrivilegesHeld(a: ACL, t: ObjectType)
    requires HasAllPrivileges(a, t)
    ensures a.granted != {}
  {
    var p :| p in AllPrivileges(t);
    assert p in a.granted;
  }

  /** A GRANT is written exactly for an entry that holds some privilege. */
  lemma GrantStatementEmpty(a: ACL, t: ObjectType, target: string)
    ensures GrantStatement(a, t, target) == "" <==> a.granted == {}
  {
    PrivilegeNamesEmpty(a);
    if HasAllPrivileges(a, t) {
      AllPrivilegesHeld(a, t);
    }
  }

  lemma GrantLineAll(target: string, grantee: string)
    ensures var g := GrantLine("ALL", target, grantee);
      |g| >= 10 && g[..10] == "GRANT ALL "
  {
    var g := GrantLine("ALL", target, grantee);
    assert g[..10] == g[..6] + g[6..9] + [g[9]];
  }

  lemma GrantLineList(names: seq<string>, target: string, grantee: string)
    requires names != [] && forall n :: n in names ==> |n| > 0 && n[0] != 'A'
    ensures var g := GrantLine(Join(names, ","), target, grantee);
      !(|g| >= 10 && g[..10] == "GRANT ALL ")
  {
    var list := Join(names, ",");
    var g := GrantLine(list, target, grantee);
    JoinPrefix(names, ",");
    assert names[0] in names;
    assert g[6] == list[0] == names[0][0] != 'A';
    if |g| >= 10 {
      assert g[..10][6] != "GRANT ALL "[6];
    }
  }

  /** A GRANT says ALL exactly when the entry holds every privilege that ALL stands for on that type of object. */
  lemma GrantStatementAll(a: ACL, t: ObjectType, target: string)
    ensures var g := GrantStatement(a, t, target);
      (|g| >= 10 && g[..10] == "GRANT ALL ") <==> HasAllPrivileges(a, t)
  {
    var grantee := if a.grantee == "" then "PUBLIC" else a.grantee;
    if HasAllPrivileges(a, t) {
      GrantLineAll(target, grantee);
    } else if PrivilegeNames(a) != [] {
      GrantLineList(PrivilegeNames(a), target, grantee);
    }
  }

  /** GRANT statements for the entries that hold some privilege, in entry order. */
  function GrantStatements(acls: seq<ACL>, t: ObjectType, target: string): (r: seq<string>)
    ensures |r| <= |acls|
  {
    if acls == [] then []
    else
      var g := GrantStatement(acls[0], t, target);
      (if g == "" then [] else [g]) + GrantStatements(acls[1..], t, target)
  }

  /** The two REVOKE lines that open a privilege block: from PUBLIC, then from the owner when there is one. */
  function RevokeStatements(target: string, owner: string): (r: seq<string>)
    ensures '\n' !in target && '\n' !in owner ==> forall l :: l in r ==> '\n' !in l
  {
    ["REVOKE ALL " + target + " FROM PUBLIC;"]
    + (if owner != "" then ["REVOKE ALL " + target + " FROM " + owner + ";"] else [])
  }

  /**
   * The REVOKE/GRANT block of an object, or "" when it has no privilege
   * entries; its lines are separated by line breaks.
   */
  function PrivilegesStatements(m: ObjectMetadata, t: ObjectType, name: string, column: Option<string>): string
  {
    if m.privileges == [] then ""
    else
      var target := Target(t, name, column);
      Join(RevokeStatements(target, m.owner) + GrantStatements(m.privileges, t, target), "\n")
  }

  lemma {:induction false} GrantStatementsWithoutBreaks(acls: seq<ACL>, t: ObjectType, target: string)
    requires '\n' !in target
    requires forall a :: a in acls ==> '\n' !in a.grantee
    ensures forall g :: g in GrantStatements(acls, t, target) ==> '\n' !in g
  {
    if acls != [] {
      GrantStatementsWithoutBreaks(acls[1..], t, target);
      assert acls[0] in acls;
    }
  }

  /**
   * The lines of a privilege block are exactly the revokes followed by one
   * GRANT per entry that holds a privilege.
   */
  lemma PrivilegesStatementsLines(m: ObjectMetadata, t: ObjectType, name: string, column: Option<string>)
    requires m.privileges != []
    requires '\n' !in name && '\n' !in m.owner && (column.Some? ==> '\n' !in column.value)
    requires forall a :: a in m.privileges ==> '\n' !in a.grantee
    ensures var target := Target(t, name, column);
      Split(PrivilegesStatements(m, t, name, column), '\n')
      == RevokeStatements(target, m.owner) + GrantStatements(m.privileges, t, target)
  {
    var target := Target(t, name, column);
    GrantStatementsWithoutBreaks(m.privileges, t, target);
    var lines := RevokeStatements(target, m.owner) + GrantStatements(m.privileges, t, target);
    assert forall l :: l in lines ==> '\n' !in l;
    SplitJoin(RevokeStatements(target, m.owner) + GrantStatements(m.privileges, t, target), '\n');
  }

  /** A statement as the printers write it: preceded by a blank line, followed by a line break; nothing for "". */
  function Block(statement: string): string
  {
    if statement == "" then "" else "\n\n" + statement + "\n"
  }

  /** The metadata of an object as printed after its definition: comment, then owner, then privileges. */
  function ObjectMetadataText(m: ObjectMetadata, t: ObjectType, name: string): string
  {
    Block(if m.comment == "" then "" else CommentStatement(t, name, m.comment))
    + Block(OwnerStatement(t, name, m.owner))
    + Block(PrivilegesStatements(m, t, name, None))
  }

  /** Nothing follows an object's definition exactly when it has no comment, no restorable owner and no privileges. */
  lemma ObjectMetadataTextEmpty(m: ObjectMetadata, t: ObjectType, name: string)
    ensures ObjectMetadataText(m, t, name) == "" <==> m.comment == "" && (m.owner == "" || t == View) && m.privileges == []
  {
    if m.privileges != [] {
      var target := Target(t, name, None);
      JoinPrefix(RevokeStatements(target, m.owner) + GrantStatements(m.privileges, t, target), "\n");
    }
  }

  /** An object whose oid has no recorded metadata gets nothing printed after its definition. */
  lemma MissingMetadataPrintsNothing(m: MetadataMap, oid: nat, t: ObjectType, name: string)
    ensures oid !in m ==> ObjectMetadataText(MetadataFor(m, oid), t, name) == ""
    ensures oid in m && ObjectMetadataText(MetadataFor(m, oid), t, name) == "" ==> m[oid].privileges == [] && m[oid].comment == ""
  {
    ObjectMetadataTextEmpty(MetadataFor(m, oid), t, name);
  }
}
