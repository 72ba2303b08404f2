/**
 * The text of an insert query, and a reader of it by the rules of quoted names:
 * what the query says of its columns, and when that is not what was meant.
 */
module InsertQuery {
  import opened Options
  import opened Replacing
  import opened Sequences

  // ---- Writing ----

  const INSERT := "INSERT INTO "
  const VALUES := " VALUES ("

  function Quoted(c: string): string {
    "`" + c + "`"
  }

  function ColumnList(columns: seq<string>): string {
    if columns == [] then ""
    else if |columns| == 1 then Quoted(columns[0])
    else Quoted(columns[0]) + (", " + ColumnList(columns[1..]))
  }

  function Marks(n: nat): string {
    if n == 0 then "" else if n == 1 then "?" else "?, " + Marks(n - 1)
  }

  function Query(table: string, columns: seq<string>): string {
    INSERT + (table + (" (" + (ColumnList(columns) + (")" + After(|columns|)))))
  }

  /** What follows the list of columns. */
  function After(n: nat): string {
    VALUES + (Marks(n) + ")")
  }

  lemma {:induction false} ColumnListNext(columns: seq<string>, c: string)
    ensures ColumnList(columns + [c]) == if columns == [] then Quoted(c) else ColumnList(columns) + (", " + Quoted(c))
    decreases |columns|
  {
    if columns != [] {
      ColumnListNext(columns[1..], c);
      assert (columns + [c])[1..] == columns[1..] + [c];
      if |columns| > 1 {
        var rest := ColumnList(columns[1..]);
        Regroup(", ", rest, ", " + Quoted(c));
        Regroup(Quoted(columns[0]), ", " + rest, ", " + Quoted(c));
      }
    }
  }

  lemma {:induction false} MarksNext(n: nat)
    ensures Marks(n + 1) == Marks(n) + (if n == 0 then "" else ", ") + "?"
  {
    if n > 0 {
      MarksNext(n - 1);
    }
  }

  method WriteColumns(columns: seq<string>) returns (b: string)
    ensures b == ColumnList(columns)
  {
    b := "";
    for i := 0 to |columns|
      invariant b == ColumnList(columns[..i])
    {
      ColumnListNext(columns[..i], columns[i]);
      assert columns[..i + 1] == columns[..i] + [columns[i]];
      if i > 0 {
        Regroup(b, ", ", Quoted(columns[i]));
        b := b + ", ";
      }
      b := b + ("`" + columns[i] + "`");
    }
    assert columns[..|columns|] == columns;
  }

  method WriteMarks(columns: seq<string>) returns (b: string)
    ensures b == Marks(|columns|)
  {
    b := "";
    for i := 0 to |columns|
      invariant b == Marks(i)
    {
      MarksNext(i);
      if i > 0 {
        b := b + ", ";
      }
      b := b + "?";
    }
  }

  method BuildInsertQuery(table: string, columns: seq<string>) returns (b: string)
    ensures b == Query(table, columns)
  {
    var list := WriteColumns(columns);
    var marks := WriteMarks(columns);
    b := INSERT + (table + (" (" + (list + (")" + (VALUES + (marks + ")"))))));
  }

  // ---- Reading quoted names ----

  /** What a backslash and a character stand for; None when the two stand for themselves. */
  type Escapes = char -> Option<char>

  /** The backtick and the backslash are escaped as themselves, and nothing else stands for them. */
  ghost predicate Lexical(esc: Escapes) {
    forall c :: (esc(c) == Some('`') <==> c == '`') && (esc(c) == Some('\\') <==> c == '\\')
  }

  predicate Special(c: char) {
    c == '`' || c == '\\'
  }

  datatype NameRead = NameRead(name: string, rest: string)

  function Prepend(a: string, r: Option<NameRead>): Option<NameRead> {
    match r
    case None => None
    case Some(n) => Some(NameRead(a + n.name, n.rest))
  }

  /** The name up to its closing backtick: a doubled backtick is one, and a backslash escapes what follows it. */
  function ReadName(esc: Escapes, s: string): (r: Option<NameRead>)
    ensures r.Some? ==> |r.value.rest| < |s|
  {
    if s == "" then None
    else if s[0] == '`' then
      if |s| > 1 && s[1] == '`' then Prepend("`", ReadName(esc, s[2..])) else Some(NameRead("", s[1..]))
    else if s[0] == '\\' then
      if |s| == 1 then None
      else Prepend(match esc(s[1]) case Some(c) => [c] case None => s[..2], ReadName(esc, s[2..]))
    else Prepend(s[..1], ReadName(esc, s[1..]))
  }

  /** This character stands for itself: it is no backtick, and no backslash that escapes. */
  predicate StandsAt(esc: Escapes, c: string, i: nat)
    requires i < |c|
  {
    c[i] != '`' && (c[i] == '\\' ==> i + 1 < |c| && esc(c[i + 1]).None?)
  }

  /** Between backticks the column stands for itself. */
  predicate Verbatim(esc: Escapes, c: string) {
    forall i: nat :: i < |c| ==> StandsAt(esc, c, i)
  }

  /** The column, its closing backtick, and text that does not go on with a quoting character. */
  function Closed(c: string, tail: string): string {
    c + ("`" + tail)
  }

  predicate Ordinary(tail: string) {
    tail != "" && !Special(tail[0])
  }

  lemma ClosedNext(c: string, tail: string, n: nat)
    requires n <= |c|
    ensures Closed(c, tail)[n..] == Closed(c[n..], tail)
    ensures forall i :: 0 <= i < |c| ==> Closed(c, tail)[i] == c[i]
    ensures Closed(c, tail)[|c|] == '`' && Closed(c, tail)[|c| + 1..] == tail
  {}

  lemma VerbatimNext(esc: Escapes, c: string, n: nat)
    requires n <= |c|
    ensures Verbatim(esc, c) <==> Verbatim(esc, c[n..]) && forall i: nat :: i < n ==> StandsAt(esc, c, i)
  {
    assert forall i: nat :: i < |c| - n ==> (StandsAt(esc, c[n..], i) <==> StandsAt(esc, c, n + i));
    if Verbatim(esc, c[n..]) {
      forall i: nat | n <= i < |c| ensures StandsAt(esc, c, i) {
        assert StandsAt(esc, c[n..], i - n);
      }
    }
  }

  /**
   * Once quoting characters have been swallowed, the reader stays behind: it
   * never reads back a text that the swallowed ones still stand in front of.
   */
  lemma {:induction false} NeverCatchesUp(esc: Escapes, w: string, q: string, tail: string)
    requires Lexical(esc) && Ordinary(tail)
    requires w != "" && forall i :: 0 <= i < |w| ==> Special(w[i])
    ensures ReadName(esc, Closed(q, tail)).Some? ==> ReadName(esc, Closed(q, tail)).value.name != w + q
    decreases |q|
  {
    ClosedNext(q, tail, 0);
    if q == "" {
      assert Closed(q, tail)[0] == '`' && Closed(q, tail)[1] == tail[0];
    } else if !Special(q[0]) {
      assert (w + q)[0] == w[0];
    } else {
      assert (w + q)[0] == w[0] && Special((w + q)[1]);
      if |q| == 1 {
        LoneSpecialReads(esc, q, tail);
      } else if Special(q[1]) {
        var behind := w[1..] + q[..2];
        assert forall i :: 0 <= i < |behind| ==> Special(behind[i]);
        NeverCatchesUp(esc, behind, q[2..], tail);
        assert (w + q)[1..] == behind + q[2..];
        PairReads(esc, q, tail);
      } else {
        PairReads(esc, q, tail);
      }
    }
  }

  /** A quoting character at the end of the column swallows the closing backtick, and the tail is read on. */
  lemma LoneSpecialReads(esc: Escapes, q: string, tail: string)
    requires Lexical(esc) && Ordinary(tail) && |q| == 1 && Special(q[0])
    ensures ReadName(esc, Closed(q, tail)) == Prepend("`", ReadName(esc, tail))
    ensures ReadName(esc, tail).Some? ==>
      var name := ReadName(esc, Closed(q, tail)).value.name;
      |name| > 1 && name[0] == '`' && name[1] == tail[0]
  {
    var s := Closed(q, tail);
    assert s[0] == q[0] && s[1] == '`' && s[2..] == tail;
  }

  /** A quoting character with another character after it: what the two are read as. */
  lemma PairReads(esc: Escapes, q: string, tail: string)
    requires |q| > 1 && Special(q[0])
    ensures
      var r, rest := ReadName(esc, Closed(q, tail)), ReadName(esc, Closed(q[2..], tail));
      if q[0] == '`' && q[1] != '`' then r.Some? && r.value.name == ""
      else if q[0] == '`' then r == Prepend("`", rest)
      else if esc(q[1]).Some? then r == Prepend([esc(q[1]).value], rest)
      else r == Prepend(q[..2], rest)
  {
    ClosedNext(q, tail, 2);
    assert Closed(q, tail)[..2] == q[..2];
  }

  /** The column is read back exactly when it stands for itself between backticks. */
  lemma {:induction false} NameIff(esc: Escapes, c: string, tail: string)
    requires Lexical(esc) && Ordinary(tail)
    ensures Verbatim(esc, c) ==> ReadName(esc, Closed(c, tail)) == Some(NameRead(c, tail))
    ensures ReadName(esc, Closed(c, tail)).Some? && ReadName(esc, Closed(c, tail)).value.name == c ==> Verbatim(esc, c)
    decreases |c|
  {
    ClosedNext(c, tail, 0);
    if c == "" {
      assert Closed(c, tail)[1] == tail[0];
    } else if !Special(c[0]) {
      PlainFirst(esc, c, tail);
      NameIff(esc, c[1..], tail);
    } else if |c| == 1 {
      assert !StandsAt(esc, c, 0);
      LoneSpecialReads(esc, c, tail);
    } else if c[0] == '\\' && esc(c[1]).None? {
      PairReads(esc, c, tail);
      NameIff(esc, c[2..], tail);
      KeptPair(esc, c);
    } else {
      assert !StandsAt(esc, c, 0);
      PairReads(esc, c, tail);
      if Special(c[1]) {
        NeverCatchesUp(esc, c[1..2], c[2..], tail);
        assert c[1..] == c[1..2] + c[2..];
      }
    }
  }

  lemma PlainFirst(esc: Escapes, c: string, tail: string)
    requires c != "" && !Special(c[0])
    ensures ReadName(esc, Closed(c, tail)) == Prepend(c[..1], ReadName(esc, Closed(c[1..], tail)))
    ensures Verbatim(esc, c) <==> Verbatim(esc, c[1..])
    ensures c == c[..1] + c[1..]
  {
    ClosedNext(c, tail, 1);
    assert Closed(c, tail)[..1] == c[..1];
    VerbatimNext(esc, c, 1);
  }

  lemma KeptPair(esc: Escapes, c: string)
    requires Lexical(esc) && |c| > 1 && c[0] == '\\' && esc(c[1]).None?
    ensures Verbatim(esc, c) <==> Verbatim(esc, c[2..])
    ensures c == c[..2] + c[2..]
  {
    assert !Special(c[1]);
    VerbatimNext(esc, c, 2);
  }

  /** A column without backticks and backslashes stands for itself; with every character an escape, no other does. */
  lemma PlainIsVerbatim(esc: Escapes, c: string)
    ensures '`' !in c && '\\' !in c ==> Verbatim(esc, c)
    ensures Verbatim(esc, c) && (forall x :: esc(x).Some?) ==> '`' !in c && '\\' !in c
  {
    if Verbatim(esc, c) && forall x :: esc(x).Some? {
      forall i: nat | i < |c| ensures !Special(c[i]) {
        assert StandsAt(esc, c, i);
      }
    }
  }

  // ---- Reading a query ----

  datatype ColumnsRead = ColumnsRead(columns: seq<string>, rest: string)

  datatype Statement = Statement(table: string, columns: seq<string>)

  function Until(s: string, c: char): (n: nat)
    ensures n <= |s| && (n < |s| ==> s[n] == c) && c !in s[..n]
  {
    if s == "" || s[0] == c then 0
    else
      var n := 1 + Until(s[1..], c);
      assert s[..n] == [s[0]] + s[1..][..n - 1];
      n
  }

  /** Quoted names with commas between, up to the closing parenthesis; with what follows it. */
  function ParseColumns(esc: Escapes, s: string): (r: Option<ColumnsRead>)
    ensures r.Some? ==> r.value.columns != []
    decreases |s|
  {
    if s == "" || s[0] != '`' then None
    else
      match ReadName(esc, s[1..])
      case None => None
      case Some(NameRead(name, after)) => MoreColumns(esc, name, after)
  }

  function MoreColumns(esc: Escapes, name: string, after: string): (r: Option<ColumnsRead>)
    ensures r.Some? ==> r.value.columns != []
    decreases |after|
  {
    if after != "" && after[0] == ')' then Some(ColumnsRead([name], after[1..]))
    else if StartsWith(after, ", ") then FirstColumn(name, ParseColumns(esc, after[2..]))
    else None
  }

  function FirstColumn(name: string, r: Option<ColumnsRead>): Option<ColumnsRead> {
    match r
    case None => None
    case Some(more) => Some(ColumnsRead([name] + more.columns, more.rest))
  }

  function ParseMarks(s: string): Option<nat> {
    if s == ")" then Some(0)
    else if s == "?)" then Some(1)
    else if StartsWith(s, "?, ") then
      match ParseMarks(s[3..])
      case None => None
      case Some(n) => Some(n + 1)
    else None
  }

  /** A query read back: the table up to the first parenthesis, the columns, and as many marks as columns. */
  function Parse(esc: Escapes, q: string): Option<Statement> {
    if !StartsWith(q, INSERT) then None
    else
      var rest := q[|INSERT|..];
      var n := Until(rest, '(');
      if n == |rest| || n == 0 || rest[n - 1] != ' ' then None
      else ParseBody(esc, rest[..n - 1], rest[n + 1..])
  }

  function ParseList(esc: Escapes, body: string): Option<ColumnsRead> {
    if body != "" && body[0] == ')' then Some(ColumnsRead([], body[1..])) else ParseColumns(esc, body)
  }

  function ParseBody(esc: Escapes, table: string, body: string): Option<Statement> {
    match ParseList(esc, body)
    case None => None
    case Some(ColumnsRead(names, rest)) =>
      if StartsWith(rest, VALUES) && ParseMarks(rest[|VALUES|..]) == Some(|names|)
      then Some(Statement(table, names)) else None
  }

  lemma {:induction false} UntilAt(a: string, c: char, b: string)
    requires c !in a
    ensures Until(a + [c] + b, c) == |a|
    decreases |a|
  {
    var s := a + [c] + b;
    if a != "" {
      UntilAt(a[1..], c, b);
      assert s[1..] == a[1..] + [c] + b && s[0] == a[0];
    }
  }

  lemma {:induction false} ParseOfMarks(n: nat)
    ensures ParseMarks(Marks(n) + ")") == Some(n)
  {
    if n > 1 {
      ParseOfMarks(n - 1);
      var rest := Marks(n - 1) + ")";
      assert Marks(n) + ")" == "?, " + rest;
      assert ("?, " + rest)[3..] == rest && ("?, " + rest)[..3] == "?, ";
    }
  }

  ghost predicate AllVerbatim(esc: Escapes, columns: seq<string>) {
    forall i :: 0 <= i < |columns| ==> Verbatim(esc, columns[i])
  }

  lemma FirstColumnReads(esc: Escapes, c: string, tail: string)
    ensures ParseColumns(esc, Quoted(c) + tail) ==
      match ReadName(esc, Closed(c, tail))
      case None => None
      case Some(NameRead(name, after)) => MoreColumns(esc, name, after)
  {
    assert (Quoted(c) + tail)[0] == '`' && (Quoted(c) + tail)[1..] == Closed(c, tail);
  }

  /** The list is read back exactly when every column stands for itself. */
  lemma {:induction false} ColumnsIff(esc: Escapes, columns: seq<string>, rest: string)
    requires Lexical(esc) && columns != []
    ensures
      var r := ParseColumns(esc, ColumnList(columns) + (")" + rest));
      && (AllVerbatim(esc, columns) ==> r == Some(ColumnsRead(columns, rest)))
      && (r.Some? && r.value.columns == columns ==> AllVerbatim(esc, columns))
    decreases |columns|
  {
    if |columns| == 1 {
      LastColumnIff(esc, columns[0], rest);
      assert columns == [columns[0]];
    } else {
      ColumnsIff(esc, columns[1..], rest);
      NextColumnIff(esc, columns[0], ColumnList(columns[1..]) + (")" + rest));
      ListMore(columns, ")" + rest);
      VerbatimFirst(esc, columns);
    }
  }

  lemma VerbatimFirst(esc: Escapes, columns: seq<string>)
    requires columns != []
    ensures AllVerbatim(esc, columns) <==> Verbatim(esc, columns[0]) && AllVerbatim(esc, columns[1..])
    ensures columns == [columns[0]] + columns[1..]
  {
    if AllVerbatim(esc, columns[1..]) {
      assert forall i :: 0 < i < |columns| ==> columns[1..][i - 1] == columns[i];
    }
  }

  lemma LastColumnIff(esc: Escapes, c: string, rest: string)
    requires Lexical(esc)
    ensures
      var r := ParseColumns(esc, Quoted(c) + (")" + rest));
      && (Verbatim(esc, c) ==> r == Some(ColumnsRead([c], rest)))
      && (r.Some? && r.value.columns == [c] ==> Verbatim(esc, c))
  {
    var tail := ")" + rest;
    FirstColumnReads(esc, c, tail);
    NameIff(esc, c, tail);
    FirstIsName(esc, c, tail);
    assert tail[1..] == rest;
  }

  lemma NextColumnIff(esc: Escapes, c: string, more: string)
    requires Lexical(esc)
    ensures
      var r := ParseColumns(esc, Quoted(c) + (", " + more));
      && (Verbatim(esc, c) ==> r == FirstColumn(c, ParseColumns(esc, more)))
      && (r.Some? && r.value.columns[0] == c ==> Verbatim(esc, c))
  {
    var tail := ", " + more;
    FirstColumnReads(esc, c, tail);
    NameIff(esc, c, tail);
    FirstIsName(esc, c, tail);
    assert tail[..2] == ", " && tail[2..] == more;
  }

  /** The first column read is the first name read. */
  lemma FirstIsName(esc: Escapes, c: string, tail: string)
    ensures
      var r := ParseColumns(esc, Quoted(c) + tail);
      r.Some? ==>
        && r.value.columns != [] && ReadName(esc, Closed(c, tail)).Some?
        && r.value.columns[0] == ReadName(esc, Closed(c, tail)).value.name
  {
    FirstColumnReads(esc, c, tail);
  }

  lemma ListMore(columns: seq<string>, rest: string)
    requires |columns| > 1
    ensures ColumnList(columns) + rest == Quoted(columns[0]) + (", " + (ColumnList(columns[1..]) + rest))
  {
    var list := ColumnList(columns[1..]);
    Regroup(", ", list, rest);
    Regroup(Quoted(columns[0]), ", " + list, rest);
  }

  /**
   * With any table free of parentheses, the query says exactly its columns if and
   * only if every one of them stands for itself between backticks.
   */
  lemma ParseOfQueryIff(esc: Escapes, table: string, columns: seq<string>)
    requires Lexical(esc) && '(' !in table
    ensures Parse(esc, Query(table, columns)) == Some(Statement(table, columns)) <==> AllVerbatim(esc, columns)
  {
    var rest := After(|columns|);
    ParseTable(esc, table, ColumnList(columns) + (")" + rest));
    ListIff(esc, columns, rest);
    ParseOfMarks(|columns|);
    assert rest[..|VALUES|] == VALUES && rest[|VALUES|..] == Marks(|columns|) + ")";
  }

  lemma ParseTable(esc: Escapes, table: string, body: string)
    requires '(' !in table
    ensures Parse(esc, INSERT + (table + (" (" + body))) == ParseBody(esc, table, body)
  {
    var rest := table + (" (" + body);
    var q := INSERT + rest;
    assert q[..|INSERT|] == INSERT && q[|INSERT|..] == rest;
    assert rest == table + " " + ['('] + body;
    UntilAt(table + " ", '(', body);
    assert rest[..|table|] == table && rest[|table| + 2..] == body;
  }

  lemma ListIff(esc: Escapes, columns: seq<string>, rest: string)
    requires Lexical(esc)
    ensures
      var r := ParseList(esc, ColumnList(columns) + (")" + rest));
      && (AllVerbatim(esc, columns) ==> r == Some(ColumnsRead(columns, rest)))
      && (r.Some? && r.value.columns == columns ==> AllVerbatim(esc, columns))
  {
    var body := ColumnList(columns) + (")" + rest);
    if columns == [] {
      assert body == ")" + rest && body[1..] == rest;
    } else {
      ColumnsIff(esc, columns, rest);
      assert body[0] == '`';
    }
  }

  // ---- Queries that do not say what was meant ----

  /** One column with a quote, a comma and a quote inside writes the very text of two columns. */
  lemma OneColumnLooksLikeTwo(a: string, b: string)
    ensures ColumnList([a + ("`, `" + b)]) == ColumnList([a, b])
  {
    assert ColumnList([b]) == Quoted(b) && [a, b][1..] == [b];
    assert Quoted(a + ("`, `" + b)) == Quoted(a) + (", " + Quoted(b));
  }

  /** So its query has one value for two columns, and is read as no statement at all. */
  lemma OneValueForTwoColumns(esc: Escapes, table: string, a: string, b: string)
    requires Lexical(esc) && '(' !in table && Verbatim(esc, a) && Verbatim(esc, b)
    ensures Parse(esc, Query(table, [a + ("`, `" + b)])) == None
  {
    var rest := After(1);
    OneColumnLooksLikeTwo(a, b);
    ParseTable(esc, table, ColumnList([a, b]) + (")" + rest));
    ListIff(esc, [a, b], rest);
    ParseOfMarks(1);
    assert rest[|VALUES|..] == Marks(1) + ")";
  }

  /** A column that ends with a backslash escapes its closing quote: the name never ends. */
  lemma TrailingBackslash(esc: Escapes, table: string, a: string)
    requires Lexical(esc) && '(' !in table && Verbatim(esc, a)
    ensures Parse(esc, Query(table, [a + "\\"])) == None
  {
    var c, tail := a + "\\", ")" + After(1);
    ParseTable(esc, table, ColumnList([c]) + tail);
    FirstColumnReads(esc, c, tail);
    ReadPrefix(esc, a, "\\" + ("`" + tail));
    Regroup(a, "\\", "`" + tail);
    LoneSpecialReads(esc, "\\", tail);
    NoClosingQuote(esc, tail);
  }

  lemma {:induction false} ReadPrefix(esc: Escapes, a: string, s: string)
    requires Lexical(esc) && Verbatim(esc, a)
    ensures ReadName(esc, a + s) == Prepend(a, ReadName(esc, s))
    decreases |a|
  {
    if a == "" {
      assert a + s == s;
      assert ReadName(esc, s).Some? ==> "" + ReadName(esc, s).value.name == ReadName(esc, s).value.name;
    } else {
      assert StandsAt(esc, a, 0);
      var n := if a[0] == '\\' then 2 else 1;
      assert (a + s)[n..] == a[n..] + s && (a + s)[..n] == a[..n] && a == a[..n] + a[n..];
      VerbatimNext(esc, a, n);
      ReadPrefix(esc, a[n..], s);
      PrependTwice(a[..n], a[n..], ReadName(esc, s));
      assert (a + s)[0] == a[0] && (n == 2 ==> (a + s)[1] == a[1]);
    }
  }

  lemma PrependTwice(a: string, b: string, r: Option<NameRead>)
    ensures Prepend(a, Prepend(b, r)) == Prepend(a + b, r)
  {
    if r.Some? {
      Regroup(a, b, r.value.name);
    }
  }

  lemma {:induction false} NoClosingQuote(esc: Escapes, s: string)
    requires '`' !in s
    ensures ReadName(esc, s) == None
    decreases |s|
  {
    if |s| > 1 && s[0] == '\\' {
      NoClosingQuote(esc, s[2..]);
    } else if s != "" {
      NoClosingQuote(esc, s[1..]);
    }
  }

  // ---- A query letter by letter ----

  lemma ThreeColumns()
    ensures Query("events", ["date", "path", "count"])
         == "INSERT INTO events (`date`, `path`, `count`) VALUES (?, ?, ?)"
  {
    ThreeColumnList();
    ThreeMarks();
    Assembled("`date`, `path`, `count`", " VALUES (?, ?, ?)");
    assert "INSERT INTO events (" + "`date`, `path`, `count`" + ")" == "INSERT INTO events (`date`, `path`, `count`)";
    assert "INSERT INTO events (`date`, `path`, `count`)" + " VALUES (?, ?, ?)"
        == "INSERT INTO events (`date`, `path`, `count`) VALUES (?, ?, ?)";
  }

  lemma Assembled(list: string, after: string)
    ensures INSERT + ("events" + (" (" + (list + (")" + after)))) == "INSERT INTO events (" + list + ")" + after
  {
    assert INSERT + ("events" + " (") == "INSERT INTO events (";
  }

  lemma ThreeColumnList()
    ensures ColumnList(["date", "path", "count"]) == "`date`, `path`, `count`"
  {
    assert ["date", "path", "count"][1..] == ["path", "count"] && ["path", "count"][1..] == ["count"];
    assert ColumnList(["count"]) == "`count`";
    assert ColumnList(["path", "count"]) == "`path`, `count`";
  }

  lemma ThreeMarks()
    ensures After(3) == " VALUES (?, ?, ?)"
  {
    assert Marks(2) == "?, ?" && Marks(3) == "?, ?, ?";
  }
}
