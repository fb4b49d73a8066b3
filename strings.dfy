/**
 * String helpers that the DDL printers and the catalog-query layer share:
 * joining and splitting, decimal rendering of integers, single-quote
 * escaping of SQL string literals, whitespace trimming, byte-wise string
 * ordering (used to sort text-search tokens and relation names) and
 * occurrence of a text inside another.
 */
module Strings {

  /* ---------------------------------------------------------------- joining */

  /** `parts` separated by `sep`, as Go's strings.Join. */
  function Join(parts: seq<string>, sep: string): string
  {
    if |parts| == 0 then ""
    else if |parts| == 1 then parts[0]
    else parts[0] + sep + Join(parts[1..], sep)
  }

  /** Splits `s` at every occurrence of `c`, as Go's strings.Split with a one-character separator. */
  function Split(s: string, c: char): (r: seq<string>)
    ensures |r| >= 1
  {
    if s == [] then [""]
    else
      var rest := Split(s[1..], c);
      if s[0] == c then [""] + rest else [[s[0]] + rest[0]] + rest[1..]
  }

  /** Every part followed by `sep`, except the last one. */
  function Punctuated(parts: seq<string>, sep: string): (r: seq<string>)
    ensures |r| == |parts|
  {
    if |parts| <= 1 then parts else [parts[0] + sep] + Punctuated(parts[1..], sep)
  }

  lemma {:induction false} SplitWithout(a: string, c: char)
    requires c !in a
    ensures Split(a, c) == [a]
  {
    if a != [] {
      SplitWithout(a[1..], c);
      assert [a[0]] + a[1..] == a;
    }
  }

  lemma {:induction false} SplitAfter(a: string, c: char, b: string)
    requires c !in a
    ensures Split(a + [c] + b, c) == [a] + Split(b, c)
  {
    if a == [] {
      assert a + [c] + b == [c] + b;
      assert ([c] + b)[1..] == b;
    } else {
      SplitAfter(a[1..], c, b);
      assert (a + [c] + b)[1..] == a[1..] + [c] + b;
      assert [a[0]] + a[1..] == a;
    }
  }

  /** Appending in two steps is appending once. */
  lemma AppendAssoc(a: string, b: string, c: string)
    ensures a + (b + c) == a + b + c
  {
  }

  /** Splitting two texts joined by the separator gives the pieces of the first followed by the pieces of the second. */
  lemma {:induction false} SplitConcat(a: string, c: char, b: string)
    ensures Split(a + [c] + b, c) == Split(a, c) + Split(b, c)
  {
    if a == [] {
      assert a + [c] + b == [c] + b;
      assert ([c] + b)[1..] == b;
    } else {
      var s := a + [c] + b;
      assert s[0] == a[0] && s[1..] == a[1..] + [c] + b;
      SplitConcat(a[1..], c, b);
      var rest, left := Split(s[1..], c), Split(a[1..], c);
      assert rest == left + Split(b, c);
      if a[0] != c {
        assert rest[0] == left[0] && rest[1..] == left[1..] + Split(b, c);
      }
    }
  }

  /**
   * Lines joined with `sep` plus a line break can be recovered by splitting
   * at the line breaks: the i-th line is the i-th part, followed by `sep`
   * unless it is the last one.
   */
  lemma {:induction false} SplitJoinedLines(parts: seq<string>, sep: string)
    requires '\n' !in sep
    requires forall p :: p in parts ==> '\n' !in p
    ensures Split(Join(parts, sep + "\n"), '\n') == if parts == [] then [""] else Punctuated(parts, sep)
  {
    if |parts| == 1 {
      SplitWithout(parts[0], '\n');
    } else if |parts| > 1 {
      SplitJoinedLines(parts[1..], sep);
      var first := parts[0] + sep;
      assert '\n' !in first;
      assert Join(parts, sep + "\n") == first + ['\n'] + Join(parts[1..], sep + "\n");
      SplitAfter(first, '\n', Join(parts[1..], sep + "\n"));
    }
  }

  /** Parts joined with a one-character separator that none of them contains split back into the same parts. */
  lemma {:induction false} SplitJoin(parts: seq<string>, c: char)
    requires parts != []
    requires forall p :: p in parts ==> c !in p
    ensures Split(Join(parts, [c]), c) == parts
  {
    if |parts| == 1 {
      SplitWithout(parts[0], c);
    } else {
      SplitJoin(parts[1..], c);
      SplitAfter(parts[0], c, Join(parts[1..], [c]));
      assert [parts[0]] + parts[1..] == parts;
    }
  }

  /** As SplitJoin, with text that holds no separator appended to the last part. */
  lemma {:induction false} SplitJoinTail(parts: seq<string>, c: char, tail: string)
    requires parts != []
    requires forall p :: p in parts ==> c !in p
    requires c !in tail
    ensures Split(Join(parts, [c]) + tail, c) == parts[..|parts| - 1] + [parts[|parts| - 1] + tail]
  {
    if |parts| == 1 {
      SplitWithout(parts[0] + tail, c);
    } else {
      var rest := parts[1..];
      SplitJoinTail(rest, c, tail);
      assert Join(parts, [c]) + tail == parts[0] + [c] + (Join(rest, [c]) + tail);
      SplitAfter(parts[0], c, Join(rest, [c]) + tail);
      assert parts[..|parts| - 1] == [parts[0]] + rest[..|rest| - 1];
    }
  }

  lemma {:induction false} JoinWithout(parts: seq<string>, sep: string, c: char)
    requires c !in sep
    requires forall p :: p in parts ==> c !in p
    ensures c !in Join(parts, sep)
  {
    if |parts| > 1 {
      JoinWithout(parts[1..], sep, c);
    }
  }

  /** A join starts with its first part. */
  lemma JoinPrefix(parts: seq<string>, sep: string)
    requires parts != []
    ensures |parts[0]| <= |Join(parts, sep)| && Join(parts, sep)[..|parts[0]|] == parts[0]
  {
  }

  /* ------------------------------------------------------ occurrences */

  predicate StartsWith(s: string, prefix: string)
  {
    |prefix| <= |s| && s[..|prefix|] == prefix
  }

  predicate EndsWith(s: string, suffix: string)
  {
    |suffix| <= |s| && s[|s| - |suffix|..] == suffix
  }

  /** `t` occurs in `s` starting at index `i`. */
  predicate OccursAt(s: string, t: string, i: nat)
  {
    i + |t| <= |s| && s[i..i + |t|] == t
  }

  /** `t` occurs somewhere in `s`. */
  predicate Contains(s: string, t: string)
  {
    exists i: nat | i <= |s| :: OccursAt(s, t, i)
  }

  lemma ContainsWithin(a: string, t: string, b: string)
    ensures Contains(a + t + b, t)
  {
    assert OccursAt(a + t + b, t, |a|);
  }

  lemma ContainsTransitive(s: string, t: string, u: string)
    requires Contains(s, t) && Contains(t, u)
    ensures Contains(s, u)
  {
    var i: nat :| i <= |s| && OccursAt(s, t, i);
    var j: nat :| j <= |t| && OccursAt(t, u, j);
    assert t == s[i..i + |t|];
    assert forall k | 0 <= k < |u| :: s[i + j + k] == t[j + k] == u[k];
    assert s[i + j..i + j + |u|] == u;
    assert OccursAt(s, u, i + j);
  }

  /** Joining without a separator distributes over concatenation of the parts. */
  lemma {:induction false} JoinAppend(a: seq<string>, b: seq<string>)
    ensures Join(a + b, "") == Join(a, "") + Join(b, "")
  {
    if a == [] {
      assert a + b == b;
    } else if |a| == 1 {
      if b != [] {
        assert (a + b)[1..] == b;
      }
    } else {
      assert (a + b)[1..] == a[1..] + b;
      JoinAppend(a[1..], b);
    }
  }

  /** The text joined without a separator is what the first k parts join to followed by what the rest join to. */
  lemma JoinSplit(parts: seq<string>, k: nat)
    requires k <= |parts|
    ensures Join(parts, "") == Join(parts[..k], "") + Join(parts[k..], "")
  {
    assert parts == parts[..k] + parts[k..];
    JoinAppend(parts[..k], parts[k..]);
  }

  /** The text joined without a separator consists of what the first k parts, the next n parts and the rest join to. */
  lemma JoinRun(parts: seq<string>, k: nat, n: nat)
    requires k + n <= |parts|
    ensures Join(parts, "") == Join(parts[..k], "") + Join(parts[k..k + n], "") + Join(parts[k + n..], "")
  {
    var rest := parts[k..];
    JoinSplit(parts, k);
    JoinSplit(rest, n);
    assert rest[..n] == parts[k..k + n] && rest[n..] == parts[k + n..];
  }

  /** Every run of consecutive parts occurs in the text they are joined to without a separator. */
  lemma JoinContainsRun(parts: seq<string>, k: nat, n: nat)
    requires k + n <= |parts|
    ensures Contains(Join(parts, ""), Join(parts[k..k + n], ""))
  {
    JoinRun(parts, k, n);
    ContainsWithin(Join(parts[..k], ""), Join(parts[k..k + n], ""), Join(parts[k + n..], ""));
  }

  lemma Join2(a: string, b: string)
    ensures Join([a, b], "") == a + b
  {
    assert [a, b][1..] == [b];
  }

  lemma Join3(a: string, b: string, c: string)
    ensures Join([a, b, c], "") == a + b + c
  {
    assert [a, b, c][1..] == [b, c];
    Join2(b, c);
  }

  lemma Join4(a: string, b: string, c: string, d: string)
    ensures Join([a, b, c, d], "") == a + b + c + d
  {
    assert [a, b, c, d][1..] == [b, c, d];
    Join3(b, c, d);
  }

  lemma RunOf3(parts: seq<string>, k: nat)
    requires k + 3 <= |parts|
    ensures parts[k..k + 3] == [parts[k], parts[k + 1], parts[k + 2]]
  {
    var run := parts[k..k + 3];
    assert run[0] == parts[k] && run[1] == parts[k + 1] && run[2] == parts[k + 2];
    assert run == [run[0], run[1], run[2]];
  }

  lemma RunOf4(parts: seq<string>, k: nat)
    requires k + 4 <= |parts|
    ensures parts[k..k + 4] == [parts[k], parts[k + 1], parts[k + 2], parts[k + 3]]
  {
    var run := parts[k..k + 4];
    assert run[0] == parts[k] && run[1] == parts[k + 1] && run[2] == parts[k + 2] && run[3] == parts[k + 3];
    assert run == [run[0], run[1], run[2], run[3]];
  }

  /** One part, or two, three or four consecutive parts concatenated, occur in the text the parts are joined to without a separator. */
  lemma JoinContains1(parts: seq<string>, k: nat)
    requires k < |parts|
    ensures Contains(Join(parts, ""), parts[k])
  {
    JoinContainsRun(parts, k, 1);
    assert parts[k..k + 1] == [parts[k]];
  }

  lemma JoinContains2(parts: seq<string>, k: nat)
    requires k + 2 <= |parts|
    ensures Contains(Join(parts, ""), parts[k] + parts[k + 1])
  {
    JoinContainsRun(parts, k, 2);
    assert parts[k..k + 2] == [parts[k], parts[k + 1]];
    Join2(parts[k], parts[k + 1]);
  }

  lemma JoinContains3(parts: seq<string>, k: nat)
    requires k + 3 <= |parts|
    ensures Contains(Join(parts, ""), parts[k] + parts[k + 1] + parts[k + 2])
  {
    JoinContainsRun(parts, k, 3);
    RunOf3(parts, k);
    Join3(parts[k], parts[k + 1], parts[k + 2]);
  }

  lemma JoinContains4(parts: seq<string>, k: nat)
    requires k + 4 <= |parts|
    ensures Contains(Join(parts, ""), parts[k] + parts[k + 1] + parts[k + 2] + parts[k + 3])
  {
    JoinContainsRun(parts, k, 4);
    RunOf4(parts, k);
    Join4(parts[k], parts[k + 1], parts[k + 2], parts[k + 3]);
  }

  /** The text joined without a separator starts with its first two parts. */
  lemma JoinStartsWith2(parts: seq<string>)
    requires 2 <= |parts|
    ensures StartsWith(Join(parts, ""), parts[0] + parts[1])
  {
    JoinRun(parts, 0, 2);
    assert parts[..0] == [] && parts[0..2] == [parts[0], parts[1]];
    Join2(parts[0], parts[1]);
  }

  /** The text joined without a separator ends with its last three parts. */
  lemma JoinEndsWith3(parts: seq<string>)
    requires 3 <= |parts|
    ensures EndsWith(Join(parts, ""), parts[|parts| - 3] + parts[|parts| - 2] + parts[|parts| - 1])
  {
    var k := |parts| - 3;
    assert parts[k..] == parts[k..k + 3];
    assert parts == parts[..k] + parts[k..];
    JoinAppend(parts[..k], parts[k..]);
    RunOf3(parts, k);
    Join3(parts[k], parts[k + 1], parts[k + 2]);
    EndsWithAppend(Join(parts[..k], ""), parts[k] + parts[k + 1] + parts[k + 2]);
  }

  /** A four-piece concatenation starts with its first piece and with its first two. */
  lemma FourPiecesStart(a: string, b: string, c: string, d: string)
    ensures StartsWith(a + b + c + d, a) && StartsWith(a + b + c + d, a + b)
  {
    assert a + b + c + d == a + (b + c + d);
    StartsWithAppend(a, b + c + d);
    assert a + b + c + d == (a + b) + (c + d);
    StartsWithAppend(a + b, c + d);
  }

  /** A four-piece concatenation contains its middle pieces and ends with its last two and its last one. */
  lemma FourPiecesEnd(a: string, b: string, c: string, d: string)
    ensures Contains(a + b + c + d, b + c)
    ensures EndsWith(a + b + c + d, c + d) && EndsWith(a + b + c + d, d)
  {
    assert a + b + c + d == a + (b + c) + d;
    ContainsWithin(a, b + c, d);
    assert a + b + c + d == (a + b) + (c + d);
    EndsWithAppend(a + b, c + d);
    EndsWithAppend(a + b + c, d);
  }

  lemma StartsWithAppend(a: string, b: string)
    ensures StartsWith(a + b, a)
  {
    assert (a + b)[..|a|] == a;
  }

  lemma EndsWithAppend(a: string, b: string)
    ensures EndsWith(a + b, b)
  {
    assert (a + b)[|a|..] == b;
  }

  /* ------------------------------------------------------ statements */

  /** The lines of a parenthesised list joined by commas and line breaks, with a final line break; nothing when there are none. */
  function ListBlock(lines: seq<string>): string
  {
    if lines == [] then "" else Join(lines, ",\n") + "\n"
  }

  /** A statement made of a header line, a comma-separated list with one item per line, and a closing line. */
  function ListStatement(header: string, lines: seq<string>, closing: string): string
  {
    header + "\n" + ListBlock(lines) + closing
  }

  /** Header, list items and closing line, none holding a line break, are the lines of the statement. */
  lemma ListStatementLines(header: string, lines: seq<string>, closing: string)
    requires '\n' !in header && '\n' !in closing
    requires forall l :: l in lines ==> '\n' !in l
    ensures Split(ListStatement(header, lines, closing), '\n') == [header] + Punctuated(lines, ",") + [closing]
  {
    SplitWithout(closing, '\n');
    if lines == [] {
      assert ListStatement(header, lines, closing) == header + ['\n'] + closing;
      SplitAfter(header, '\n', closing);
    } else {
      var body := Join(lines, ",\n");
      assert ",\n" == "," + "\n";
      SplitJoinedLines(lines, ",");
      assert ListStatement(header, lines, closing) == header + ['\n'] + (body + ['\n'] + closing);
      SplitAfter(header, '\n', body + ['\n'] + closing);
      SplitConcat(body, '\n', closing);
    }
  }

  /* --------------------------------------------------------------- integers */

  function DigitChar(d: nat): (c: char)
    requires d < 10
  {
    ('0' as int + d) as char
  }

  function DigitValue(c: char): int
  {
    c as int - '0' as int
  }

  /** Decimal digits of `n` without leading zeros, as Go's %d. */
  function NatToString(n: nat): (r: string)
    ensures |r| >= 1 && '0' <= r[0] <= '9'
  {
    if n < 10 then [DigitChar(n)] else NatToString(n / 10) + [DigitChar(n % 10)]
  }

  /** Decimal rendering of an integer, with a leading '-' when negative. */
  function IntToString(i: int): string
  {
    if i < 0 then "-" + NatToString(-i) else NatToString(i)
  }

  /** A rendered integer is a single line. */
  lemma IntToStringSingleLine(i: int)
    ensures '\n' !in IntToString(i)
  {
    var n: nat := if i < 0 then -i else i;
    NatToStringDigits(n);
  }

  lemma {:induction false} NatToStringDigits(n: nat)
    ensures '\n' !in NatToString(n)
  {
    if n >= 10 {
      NatToStringDigits(n / 10);
    }
  }

  /** Value of a string of decimal digits (the reader that undoes NatToString). */
  function ParseDecimal(s: string): int
  {
    if s == [] then 0 else ParseDecimal(s[..|s| - 1]) * 10 + DigitValue(s[|s| - 1])
  }

  function ParseInt(s: string): int
  {
    if |s| > 0 && s[0] == '-' then -ParseDecimal(s[1..]) else ParseDecimal(s)
  }

  lemma {:induction false} ParseNatToString(n: nat)
    ensures ParseDecimal(NatToString(n)) == n
  {
    if n >= 10 {
      ParseNatToString(n / 10);
      var s := NatToString(n / 10) + [DigitChar(n % 10)];
      assert s[..|s| - 1] == NatToString(n / 10);
    }
  }

  /** Every integer the printers render reads back as itself. */
  lemma ParseIntToString(i: int)
    ensures ParseInt(IntToString(i)) == i
  {
    if i < 0 {
      ParseNatToString(-i);
      assert ("-" + NatToString(-i))[1..] == NatToString(-i);
    } else {
      ParseNatToString(i);
    }
  }

  function BoolToString(b: bool): string
  {
    if b then "true" else "false"
  }

  /* -------------------------------------------------- single-quote escaping */

  /** Doubles every single quote and leaves every other character as it is. */
  function EscapeSingleQuotes(s: string): string
  {
    if s == [] then ""
    else (if s[0] == '\'' then "''" else [s[0]]) + EscapeSingleQuotes(s[1..])
  }

  /** Reads the body of a SQL string literal back: a doubled quote stands for one quote. */
  function UnescapeSingleQuotes(s: string): string
  {
    if s == [] then ""
    else if |s| >= 2 && s[0] == '\'' && s[1] == '\'' then "'" + UnescapeSingleQuotes(s[2..])
    else [s[0]] + UnescapeSingleQuotes(s[1..])
  }

  /** A literal body in which every single quote belongs to a doubled pair. */
  predicate QuotesDoubled(s: string)
  {
    if s == [] then true
    else if s[0] == '\'' then |s| >= 2 && s[1] == '\'' && QuotesDoubled(s[2..])
    else QuotesDoubled(s[1..])
  }

  function CountQuotes(s: string): nat
  {
    if s == [] then 0 else (if s[0] == '\'' then 1 else 0) + CountQuotes(s[1..])
  }

  /** Escaping adds exactly one character per quote, never ends the literal early, and reads back unchanged. */
  lemma {:induction false} EscapeSingleQuotesRoundTrip(s: string)
    ensures |EscapeSingleQuotes(s)| == |s| + CountQuotes(s)
    ensures QuotesDoubled(EscapeSingleQuotes(s))
    ensures UnescapeSingleQuotes(EscapeSingleQuotes(s)) == s
  {
    if s != [] {
      EscapeSingleQuotesRoundTrip(s[1..]);
      var rest := EscapeSingleQuotes(s[1..]);
      if s[0] == '\'' {
        assert EscapeSingleQuotes(s) == "''" + rest;
        assert ("''" + rest)[2..] == rest;
      } else {
        assert EscapeSingleQuotes(s) == [s[0]] + rest;
        assert ([s[0]] + rest)[1..] == rest;
      }
      assert [s[0]] + s[1..] == s;
    }
  }

  /** Every well-formed literal body is the escaping of exactly one string. */
  lemma {:induction false} EscapeUnescape(s: string)
    requires QuotesDoubled(s)
    ensures EscapeSingleQuotes(UnescapeSingleQuotes(s)) == s
  {
    if s != [] {
      if s[0] == '\'' {
        EscapeUnescape(s[2..]);
        var u := UnescapeSingleQuotes(s[2..]);
        assert ("'" + u)[1..] == u;
        assert "''" + s[2..] == s;
      } else {
        EscapeUnescape(s[1..]);
        var u := UnescapeSingleQuotes(s[1..]);
        assert ([s[0]] + u)[1..] == u;
        assert [s[0]] + s[1..] == s;
      }
    }
  }

  /* --------------------------------------------------------------- trimming */

  /** White space as Go's unicode.IsSpace. */
  predicate IsSpace(c: char)
  {
    || c == ' ' || c == '\t' || c == '\n' || c == '\r' || c == '\U{000B}' || c == '\U{000C}'
    || c == '\U{0085}' || c == '\U{00A0}' || c == '\U{1680}' || ('\U{2000}' <= c <= '\U{200A}')
    || c == '\U{2028}' || c == '\U{2029}' || c == '\U{202F}' || c == '\U{205F}' || c == '\U{3000}'
  }

  predicate AllSpace(s: string)
  {
    forall i :: 0 <= i < |s| ==> IsSpace(s[i])
  }

  function TrimLeft(s: string): (r: string)
    ensures r == [] || !IsSpace(r[0])
  {
    if s != [] && IsSpace(s[0]) then TrimLeft(s[1..]) else s
  }

  function TrimRight(s: string): (r: string)
    ensures r == [] || !IsSpace(r[|r| - 1])
  {
    if s != [] && IsSpace(s[|s| - 1]) then TrimRight(s[..|s| - 1]) else s
  }

  /** `s` without leading and trailing white space, as Go's strings.TrimSpace. */
  function TrimSpace(s: string): string
  {
    TrimRight(TrimLeft(s))
  }

  lemma {:induction false} TrimLeftSpaces(a: string, x: string)
    requires AllSpace(a)
    requires x == [] || !IsSpace(x[0])
    ensures TrimLeft(a + x) == x
  {
    if a != [] {
      TrimLeftSpaces(a[1..], x);
      assert (a + x)[1..] == a[1..] + x;
    } else {
      assert a + x == x;
    }
  }

  lemma {:induction false} TrimRightSpaces(x: string, b: string)
    requires AllSpace(b)
    requires x == [] || !IsSpace(x[|x| - 1])
    ensures TrimRight(x + b) == x
  {
    if b != [] {
      TrimRightSpaces(x, b[..|b| - 1]);
      assert (x + b)[..|x + b| - 1] == x + b[..|b| - 1];
    } else {
      assert x + b == x;
    }
  }

  /** Trimming removes exactly the white space around a text that neither starts nor ends with white space. */
  lemma TrimSpaceAround(a: string, x: string, b: string)
    requires AllSpace(a) && AllSpace(b)
    requires x == [] || (!IsSpace(x[0]) && !IsSpace(x[|x| - 1]))
    ensures TrimSpace(a + x + b) == x
  {
    if x == [] {
      assert a + x + b == a + b;
      assert AllSpace(a + b);
      TrimLeftSpaces(a + b, []);
      assert a + b + [] == a + b;
      assert TrimRight([]) == [];
    } else {
      assert a + x + b == a + (x + b);
      TrimLeftSpaces(a, x + b);
      TrimRightSpaces(x, b);
    }
  }

  /* ------------------------------------------------------ string ordering */

  /** `a` sorts at or before `b` byte-wise (Go's string comparison; code-point order is UTF-8 byte order). */
  predicate Below(a: string, b: string)
  {
    |a| == 0 || (|b| > 0 && (a[0] < b[0] || (a[0] == b[0] && Below(a[1..], b[1..]))))
  }

  lemma {:induction false} BelowReflexive(a: string)
    ensures Below(a, a)
  {
    if |a| > 0 {
      BelowReflexive(a[1..]);
    }
  }

  lemma {:induction false} BelowTotal(a: string, b: string)
    ensures Below(a, b) || Below(b, a)
  {
    if |a| > 0 && |b| > 0 && a[0] == b[0] {
      BelowTotal(a[1..], b[1..]);
    }
  }

  lemma {:induction false} BelowAntisymmetric(a: string, b: string)
    requires Below(a, b) && Below(b, a)
    ensures a == b
  {
    if |a| > 0 {
      BelowAntisymmetric(a[1..], b[1..]);
      assert a == [a[0]] + a[1..];
      assert b == [b[0]] + b[1..];
    }
  }

  lemma {:induction false} BelowTransitive(a: string, b: string, c: string)
    requires Below(a, b) && Below(b, c)
    ensures Below(a, c)
  {
    if |a| > 0 && a[0] == b[0] && b[0] == c[0] {
      BelowTransitive(a[1..], b[1..], c[1..]);
    }
  }

  /** `m` belongs to `s` and sorts before or equal to every element of it. */
  predicate IsLeast(m: string, s: set<string>)
  {
    m in s && forall y :: y in s ==> Below(m, y)
  }

  lemma {:induction false} LeastExists(s: set<string>)
    requires s != {}
    ensures exists m :: IsLeast(m, s)
    decreases |s|
  {
    var x :| x in s;
    var rest := s - {x};
    if rest == {} {
      LeastOfOne(s, x);
    } else {
      LeastExists(rest);
      var m :| IsLeast(m, rest);
      BelowTotal(x, m);
      if Below(x, m) {
        LeastBelowRest(s, x, m);
      } else {
        LeastOfRest(s, x, m);
      }
    }
  }

  lemma LeastOfOne(s: set<string>, x: string)
    requires x in s && s - {x} == {}
    ensures IsLeast(x, s)
  {
    BelowReflexive(x);
    forall y | y in s
      ensures Below(x, y)
    {
      assert y !in s - {x};
    }
  }

  /** An element below the least of the others is the least of all. */
  lemma LeastBelowRest(s: set<string>, x: string, m: string)
    requires x in s && Below(x, m) && IsLeast(m, s - {x})
    ensures IsLeast(x, s)
  {
    forall y | y in s
      ensures Below(x, y)
    {
      if y == x {
        BelowReflexive(x);
      } else {
        assert y in s - {x};
        BelowTransitive(x, m, y);
      }
    }
  }

  /** The least of the others stays least when the added element is not below it. */
  lemma LeastOfRest(s: set<string>, x: string, m: string)
    requires x in s && !Below(x, m) && IsLeast(m, s - {x})
    ensures IsLeast(m, s)
  {
    BelowTotal(x, m);
    forall y | y in s
      ensures Below(m, y)
    {
      if y != x {
        assert y in s - {x};
      }
    }
  }

  /** The first string of a non-empty set in byte-wise order. */
  function Least(s: set<string>): (m: string)
    requires s != {}
    ensures m in s && forall y :: y in s ==> Below(m, y)
  {
    LeastExists(s);
    assert forall a, b :: a in s && b in s && Below(a, b) && Below(b, a) ==> a == b by {
      forall a, b | a in s && b in s && Below(a, b) && Below(b, a)
        ensures a == b
      {
        BelowAntisymmetric(a, b);
      }
    }
    var m :| IsLeast(m, s);
    m
  }

  /** Each element sorts strictly before every later one. */
  predicate StrictlySorted(r: seq<string>)
  {
    forall i, j :: 0 <= i < j < |r| ==> Below(r[i], r[j]) && r[i] != r[j]
  }

  /** The elements of `s` in ascending byte-wise order, as Go's sort.Strings over the keys of a map. */
  function SortedSet(s: set<string>): (r: seq<string>)
    ensures forall x :: x in r <==> x in s
    ensures StrictlySorted(r)
    ensures |r| == |s|
    decreases |s|
  {
    if s == {} then []
    else
      var m := Least(s);
      [m] + SortedSet(s - {m})
  }

  lemma HeadIsLeast(r: seq<string>, s: set<string>)
    requires r != [] && StrictlySorted(r)
    requires forall x :: x in r <==> x in s
    ensures s != {} && r[0] == Least(s)
  {
    assert r[0] in s;
    var m := Least(s);
    var k :| 0 <= k < |r| && r[k] == m;
    if k == 0 {
    } else {
      assert Below(r[0], r[k]);
      BelowAntisymmetric(r[0], m);
    }
  }

  lemma TailElements(r: seq<string>, s: set<string>)
    requires r != [] && StrictlySorted(r)
    requires forall x :: x in r <==> x in s
    ensures StrictlySorted(r[1..])
    ensures forall x :: x in r[1..] <==> x in s - {r[0]}
  {
    forall x
      ensures x in r[1..] <==> x in s - {r[0]}
    {
      if x in r[1..] {
        var k :| 0 <= k < |r[1..]| && r[1..][k] == x;
        assert r[k + 1] == x;
      }
      if x in s - {r[0]} {
        var k :| 0 <= k < |r| && r[k] == x;
        assert r[1..][k - 1] == x;
      }
    }
  }

  /** A strictly sorted sequence is fixed by its elements, so sorting the keys gives one order only. */
  lemma {:induction false} SortedSetUnique(r: seq<string>, s: set<string>)
    requires StrictlySorted(r)
    requires forall x :: x in r <==> x in s
    ensures r == SortedSet(s)
    decreases |r|
  {
    if r == [] {
      assert s == {};
    } else {
      HeadIsLeast(r, s);
      TailElements(r, s);
      SortedSetUnique(r[1..], s - {r[0]});
      assert r == [r[0]] + r[1..];
    }
  }

  /* ------------------------------------------------------------ duplicates */

  predicate NoDuplicates(s: seq<string>)
  {
    forall i, j :: 0 <= i < j < |s| ==> s[i] != s[j]
  }
}
