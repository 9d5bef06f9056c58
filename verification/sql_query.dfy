/** `executeQuery` of both text-to-SQL tools: the SELECT-only safety guard
    and the projection of result-row objects into a column list plus one
    array of cells per row. */
module SqlQuery {
  import opened Wrappers
  import opened Text

  /** A SQLite cell value, by storage class. */
  datatype Value = Null | Integer(i: int) | Real(x: real) | TextValue(s: string) | Blob(bytes: seq<bv8>)

  /** One result row as the driver hands it over: (column, value) pairs in
      column order. Read as a JavaScript object it has one property per
      distinct column name; a repeated name keeps its first position and its
      last value, as repeated property assignment does. */
  type Row = seq<(string, Value)>

  /** The database's answer to one statement: its rows, or the message of
      the error it raised. */
  type Database = string -> Result<seq<Row>, string>

  /** The `{ columns, rows }` value `executeQuery` returns; a `None` cell is
      JavaScript's `undefined`. */
  datatype QueryResult = QueryResult(columns: seq<string>, rows: seq<seq<Option<Value>>>)

  const SelectKeyword: string := "SELECT"
  const GuardPrefix: string := "安全性チェック: SELECTクエリのみ許可されています。受信: "
  const GuardSuffix: string := "..."
  /** How much of the rejected statement the guard's message quotes. */
  const SnippetLength: nat := 50

  /** The guard: the statement, trimmed and upper-cased, starts with SELECT.
      It accepts exactly the statements whose six characters from the first
      non-blank one on spell SELECT in either letter case: leading blanks are
      skipped, trailing text of any kind (`SELECTED`, a newline, nothing at
      all) does not matter, and `WITH`, `INSERT` and every other opening word
      are refused. */
  function IsSelectStatement(sql: string): (accepted: bool)
    ensures accepted <==> SelectKeywordAt(sql, FirstNonBlank(sql))
  {
    UpperTrimFindsKeyword(sql);
    StartsWith(Upper(Trim(sql)), SelectKeyword)
  }

  /** Index of the first character of `sql` that is not whitespace (`|sql|` if none). */
  function FirstNonBlank(sql: string): (i: nat)
    ensures i <= |sql|
    ensures forall k :: 0 <= k < i ==> IsJsWhitespace(sql[k])
    ensures i == |sql| || !IsJsWhitespace(sql[i])
  {
    TrimStartShape(sql);
    |sql| - |TrimStart(sql)|
  }

  /** The characters that may stand at position `k` of the keyword: those
      whose upper case is the `k`-th letter of SELECT, long s counting as s,
      and for the last letter also U+1E97, whose upper case is T followed by
      a combining diaeresis. */
  predicate FitsKeywordLetter(c: char, k: nat)
  {
    if k == 0 then c in {'S', 's', '\U{017F}'}
    else if k == 1 || k == 3 then c in {'E', 'e'}
    else if k == 2 then c in {'L', 'l'}
    else if k == 4 then c in {'C', 'c'}
    else k == 5 && c in {'T', 't', '\U{1E97}'}
  }

  /** The six characters of `sql` from `i` on spell SELECT under upper-casing. */
  predicate SelectKeywordAt(sql: string, i: nat)
  {
    && i + 6 <= |sql|
    && FitsKeywordLetter(sql[i], 0)
    && FitsKeywordLetter(sql[i + 1], 1)
    && FitsKeywordLetter(sql[i + 2], 2)
    && FitsKeywordLetter(sql[i + 3], 3)
    && FitsKeywordLetter(sql[i + 4], 4)
    && FitsKeywordLetter(sql[i + 5], 5)
  }

  /** The characters of `u` from `i` on fit the keyword's letters from `k` on. */
  predicate KeywordFrom(u: string, i: nat, k: nat)
    decreases 6 - k
  {
    k >= 6 || (i < |u| && FitsKeywordLetter(u[i], k) && KeywordFrom(u, i + 1, k + 1))
  }

  /** Matching the keyword from letter `k` against an upper-cased character
      followed by more text: the character must fit letter `k`, and the text
      must match the rest of the keyword unless `k` was the last letter. */
  lemma UpperOfFits(c: char, rest: string, k: nat)
    requires k < 6
    ensures StartsWith(UpperOf(c) + rest, SelectKeyword[k..])
        <==> FitsKeywordLetter(c, k) && (k == 5 || StartsWith(rest, SelectKeyword[k + 1..]))
  {
    var e := UpperOf(c);
    var p := SelectKeyword[k..];
    StartsWithConcat(e, rest, p);
    assert p[1..] == SelectKeyword[k + 1..];
    if |e| == 2 {
      assert c in {'\U{00DF}', '\U{1E97}', '\U{FB05}', '\U{FB06}'};
      assert e[0] in {'S', 'T'} && e[1] in {'S', 'T', '\U{0308}'};
      if k < 5 {
        assert !FitsKeywordLetter(c, k);
        assert p[0] != e[0] || p[1] != e[1];
      } else {
        assert p == "T";
      }
    } else {
      assert e[0] == p[0] <==> FitsKeywordLetter(c, k);
      assert StartsWith(p, e) <==> e[0] == p[0];
      assert |p| == 1 ==> (StartsWith(e, p) <==> e[0] == p[0]);
    }
  }

  lemma {:induction false} UpperMatchesKeyword(u: string, i: nat, k: nat)
    requires i <= |u| && k <= 6
    ensures StartsWith(Upper(u[i..]), SelectKeyword[k..]) <==> KeywordFrom(u, i, k)
    decreases 6 - k
  {
    if k < 6 && i < |u| {
      assert u[i..][1..] == u[i + 1..];
      assert Upper(u[i..]) == UpperOf(u[i]) + Upper(u[i + 1..]);
      UpperOfFits(u[i], Upper(u[i + 1..]), k);
      if k < 5 {
        UpperMatchesKeyword(u, i + 1, k + 1);
      }
    } else if k < 6 {
      assert u[i..] == "";
    }
  }

  lemma UpperStartsWithSelect(u: string)
    ensures StartsWith(Upper(u), SelectKeyword) <==> SelectKeywordAt(u, 0)
  {
    UpperMatchesKeyword(u, 0, 0);
    assert u[0..] == u;
    assert KeywordFrom(u, 0, 0) <==> 0 < |u| && FitsKeywordLetter(u[0], 0) && KeywordFrom(u, 1, 1);
    assert KeywordFrom(u, 1, 1) <==> 1 < |u| && FitsKeywordLetter(u[1], 1) && KeywordFrom(u, 2, 2);
    assert KeywordFrom(u, 2, 2) <==> 2 < |u| && FitsKeywordLetter(u[2], 2) && KeywordFrom(u, 3, 3);
    assert KeywordFrom(u, 3, 3) <==> 3 < |u| && FitsKeywordLetter(u[3], 3) && KeywordFrom(u, 4, 4);
    assert KeywordFrom(u, 4, 4) <==> 4 < |u| && FitsKeywordLetter(u[4], 4) && KeywordFrom(u, 5, 5);
    assert KeywordFrom(u, 5, 5) <==> 5 < |u| && FitsKeywordLetter(u[5], 5);
  }

  /** Trimming the end cannot cut into a leading keyword, whose last letter is
      not blank. */
  lemma TrimEndKeepsKeyword(t: string)
    ensures SelectKeywordAt(TrimEnd(t), 0) <==> SelectKeywordAt(t, 0)
  {
    var u := TrimEnd(t);
    TrimEndShape(t);
    if SelectKeywordAt(t, 0) {
      assert !IsJsWhitespace(t[5]);
      assert |u| >= 6;
    }
  }

  lemma TrimStartFindsKeyword(sql: string)
    ensures SelectKeywordAt(TrimStart(sql), 0) <==> SelectKeywordAt(sql, FirstNonBlank(sql))
  {
    var t := TrimStart(sql);
    TrimStartShape(sql);
    assert forall k :: 0 <= k < |t| ==> t[k] == sql[FirstNonBlank(sql) + k];
  }

  /** The guard's test, trimmed and upper-cased text starting with SELECT,
      holds exactly when the keyword's letters stand at the first non-blank
      character. */
  lemma {:induction false} UpperTrimFindsKeyword(sql: string)
    ensures StartsWith(Upper(Trim(sql)), SelectKeyword) <==> SelectKeywordAt(sql, FirstNonBlank(sql))
  {
    UpperStartsWithSelect(Trim(sql));
    TrimEndKeepsKeyword(TrimStart(sql));
    TrimStartFindsKeyword(sql);
  }

  /** The guard's verdict on a statement whose first character is not blank. */
  lemma GuardAtStart(sql: string)
    requires |sql| > 0 && !IsJsWhitespace(sql[0])
    ensures IsSelectStatement(sql) <==> SelectKeywordAt(sql, 0)
  {
    assert FirstNonBlank(sql) == 0;
  }

  /** Any run of leading blanks, including ideographic spaces (U+3000) and
      line breaks, leaves the guard's verdict unchanged. */
  lemma GuardSkipsLeadingBlanks(blanks: string, rest: string)
    requires forall k :: 0 <= k < |blanks| ==> IsJsWhitespace(blanks[k])
    ensures IsSelectStatement(blanks + rest) <==> IsSelectStatement(rest)
  {
    TrimStartSkipsBlanks(blanks, rest);
  }

  /** A statement that opens, after any blanks, with a data-changing or
      schema-changing keyword, or with a common table expression, written in
      any letter case, is refused whatever follows it. */
  lemma GuardRefusesOtherStatements(blanks: string, keyword: string, rest: string)
    requires forall k :: 0 <= k < |blanks| ==> IsJsWhitespace(blanks[k])
    requires Upper(keyword) in {"INSERT", "UPDATE", "DELETE", "DROP", "CREATE", "ALTER", "WITH", "PRAGMA"}
    ensures !IsSelectStatement(blanks + keyword + rest)
  {
    var u := Upper(keyword);
    assert u[0] in {'I', 'U', 'D', 'C', 'A', 'W', 'P'};
    assert |keyword| > 0;
    assert u == UpperOf(keyword[0]) + Upper(keyword[1..]);
    OpeningLetter(keyword[0]);
    var sql := keyword + rest;
    assert sql[0] == keyword[0];
    assert blanks + keyword + rest == blanks + sql;
    GuardRefusesOtherOpening(blanks, sql);
  }

  /** A character whose upper case opens with one of those keywords' first
      letters is neither blank nor a spelling of S. */
  lemma OpeningLetter(c: char)
    requires UpperOf(c)[0] in {'I', 'U', 'D', 'C', 'A', 'W', 'P'}
    ensures !IsJsWhitespace(c) && c !in {'S', 's', '\U{017F}'}
  {
  }

  /** `toUpperCase` maps U+1E97 (t with diaeresis) to T and a combining
      diaeresis, so a statement whose keyword ends in that letter passes the
      guard, as do the long-s and lower-case spellings. */
  lemma GuardFollowsFullCaseMapping(rest: string)
    ensures IsSelectStatement("selec\U{1E97}" + rest)
    ensures IsSelectStatement("\U{017F}elect" + rest)
  {
    var a := "selec\U{1E97}" + rest;
    var b := "\U{017F}elect" + rest;
    assert a[..6] == "selec\U{1E97}" && b[..6] == "\U{017F}elect";
    GuardAtStart(a);
    GuardAtStart(b);
  }

  /** A statement whose first non-blank character is anything but S, s or
      long s is refused, in any letter case and whatever follows. */
  lemma GuardRefusesOtherOpening(blanks: string, rest: string)
    requires forall k :: 0 <= k < |blanks| ==> IsJsWhitespace(blanks[k])
    requires |rest| > 0 && !IsJsWhitespace(rest[0]) && rest[0] !in {'S', 's', '\U{017F}'}
    ensures !IsSelectStatement(blanks + rest)
  {
    GuardSkipsLeadingBlanks(blanks, rest);
    GuardAtStart(rest);
  }

  /** A statement with fewer than six characters after its leading blanks,
      such as `SELEC` or the empty statement, is refused. */
  lemma GuardRefusesShortStatements(blanks: string, rest: string)
    requires forall k :: 0 <= k < |blanks| ==> IsJsWhitespace(blanks[k])
    requires |rest| < 6
    ensures !IsSelectStatement(blanks + rest)
  {
    GuardSkipsLeadingBlanks(blanks, rest);
  }

  /** The refusal message: the fixed prefix, the first (at most) 50
      characters of the statement as given, untrimmed, and `...`. */
  function GuardMessage(sql: string): (m: string)
    ensures var n := if |sql| < SnippetLength then |sql| else SnippetLength;
            && |m| == |GuardPrefix| + n + |GuardSuffix|
            && m[..|GuardPrefix|] == GuardPrefix
            && m[|GuardPrefix|..|GuardPrefix| + n] == sql[..n]
            && m[|GuardPrefix| + n..] == GuardSuffix
  {
    GuardPrefix + Take(sql, SnippetLength) + GuardSuffix
  }

  /** The column names of a row, in order, repeats included. */
  function ColumnNames(row: Row): (names: seq<string>)
    ensures |names| == |row|
    ensures forall i :: 0 <= i < |row| ==> names[i] == row[i].0
  {
    seq(|row|, i requires 0 <= i < |row| => row[i].0)
  }

  predicate Distinct(s: seq<string>)
  {
    forall i, j :: 0 <= i < j < |s| ==> s[i] != s[j]
  }

  /** `s` with every repeat of an earlier element removed. */
  function Dedup(s: seq<string>): (r: seq<string>)
    ensures forall x :: x in r <==> x in s
    ensures Distinct(r)
    ensures |r| <= |s|
  {
    if |s| == 0 then []
    else
      var d := Dedup(s[..|s| - 1]);
      var x := s[|s| - 1];
      assert forall y :: y in s <==> y in s[..|s| - 1] || y == x;
      if x in d then d else d + [x]
  }

  lemma {:induction false} DedupOfDistinct(s: seq<string>)
    requires Distinct(s)
    ensures Dedup(s) == s
    decreases |s|
  {
    if |s| > 0 {
      var p := s[..|s| - 1];
      assert Distinct(p);
      DedupOfDistinct(p);
      assert s[|s| - 1] !in p;
      assert p + [s[|s| - 1]] == s;
    }
  }

  /** The position of the first occurrence of `x` in `s`. */
  function FirstIndex(s: seq<string>, x: string): (i: nat)
    requires x in s
    ensures i < |s| && s[i] == x
  {
    if s[0] == x then 0 else FirstIndex(s[1..], x) + 1
  }

  lemma {:induction false} FirstIndexExtend(p: seq<string>, y: string, x: string)
    requires y in p
    ensures FirstIndex(p + [x], y) == FirstIndex(p, y)
    decreases |p|
  {
    if p[0] != y {
      assert (p + [x])[1..] == p[1..] + [x];
      FirstIndexExtend(p[1..], y, x);
    }
  }

  lemma {:induction false} FirstIndexAtEnd(p: seq<string>, x: string)
    requires x !in p
    ensures FirstIndex(p + [x], x) == |p|
    decreases |p|
  {
    if |p| > 0 {
      assert (p + [x])[1..] == p[1..] + [x];
      FirstIndexAtEnd(p[1..], x);
    }
  }

  /** `Dedup` lists the names in the order of their first appearance, which
      with its membership and distinctness facts fixes it completely. */
  lemma {:induction false} DedupKeepsFirstAppearanceOrder(s: seq<string>)
    ensures forall i, j :: 0 <= i < j < |Dedup(s)| ==> FirstIndex(s, Dedup(s)[i]) < FirstIndex(s, Dedup(s)[j])
    decreases |s|
  {
    if |s| > 0 {
      var p := s[..|s| - 1];
      var x := s[|s| - 1];
      var d := Dedup(p);
      assert s == p + [x];
      DedupKeepsFirstAppearanceOrder(p);
      forall y | y in p ensures FirstIndex(s, y) == FirstIndex(p, y) {
        FirstIndexExtend(p, y, x);
      }
      if x !in d {
        FirstIndexAtEnd(p, x);
        forall i, j | 0 <= i < j < |Dedup(s)|
          ensures FirstIndex(s, Dedup(s)[i]) < FirstIndex(s, Dedup(s)[j])
        {
          if j == |d| {
            assert FirstIndex(p, d[i]) < |p|;
          }
        }
      }
    }
  }

  /** `Object.keys(row)`: each column name once, in order of first appearance. */
  function ObjectKeys(row: Row): seq<string>
  {
    Dedup(ColumnNames(row))
  }

  /** `row[col]`: the value last paired with `col`, or `None` (undefined). */
  function Lookup(row: Row, col: string): (v: Option<Value>)
    ensures v.None? <==> col !in ColumnNames(row)
  {
    if |row| == 0 then None
    else if row[|row| - 1].0 == col then Some(row[|row| - 1].1)
    else
      assert ColumnNames(row) == ColumnNames(row[..|row| - 1]) + [row[|row| - 1].0];
      Lookup(row[..|row| - 1], col)
  }

  /** A found value is the one paired with the last occurrence of the name. */
  lemma {:induction false} LookupFindsLastPair(row: Row, col: string)
    requires col in ColumnNames(row)
    ensures exists i :: && 0 <= i < |row| && row[i] == (col, Lookup(row, col).value)
                        && forall k :: i < k < |row| ==> row[k].0 != col
    decreases |row|
  {
    var last := |row| - 1;
    if row[last].0 != col {
      assert ColumnNames(row) == ColumnNames(row[..last]) + [row[last].0];
      LookupFindsLastPair(row[..last], col);
      var i :| && 0 <= i < last && row[..last][i] == (col, Lookup(row[..last], col).value)
               && forall k :: i < k < last ==> row[..last][k].0 != col;
      assert row[i] == row[..last][i];
    }
  }

  /** In a row with distinct names, looking up the j-th name gives the j-th value. */
  lemma LookupInDistinctRow(row: Row, j: nat)
    requires Distinct(ColumnNames(row)) && j < |row|
    ensures Lookup(row, row[j].0) == Some(row[j].1)
  {
    var names := ColumnNames(row);
    assert names[j] in names;
    LookupFindsLastPair(row, row[j].0);
    var i :| 0 <= i < |row| && row[i] == (row[j].0, Lookup(row, row[j].0).value);
    assert names[i] == names[j];
    assert i == j by {
      assert Distinct(names);
    }
  }

  /** `columns.map((col) => row[col])` for every row. */
  function Project(columns: seq<string>, rows: seq<Row>): (cells: seq<seq<Option<Value>>>)
    ensures |cells| == |rows|
    ensures forall i :: 0 <= i < |rows| ==> |cells[i]| == |columns|
    ensures forall i, j :: 0 <= i < |rows| && 0 <= j < |columns| ==> cells[i][j] == Lookup(rows[i], columns[j])
  {
    seq(|rows|, i requires 0 <= i < |rows| =>
      seq(|columns|, j requires 0 <= j < |columns| => Lookup(rows[i], columns[j])))
  }

  /** `executeQuery(db, sql)`: refuses anything but a SELECT before the
      database sees it, passes the database's error on, and otherwise
      projects the rows onto the first row's keys. */
  function ExecuteQuery(db: Database, sql: string): (r: Result<QueryResult, string>)
    ensures !IsSelectStatement(sql) ==> r == Failure(GuardMessage(sql))
    ensures IsSelectStatement(sql) && db(sql).Failure? ==> r == Failure(db(sql).error)
    ensures IsSelectStatement(sql) && db(sql).Success? ==>
      var rows := db(sql).value;
      && r.Success?
      && |r.value.rows| == |rows|
      && (|rows| == 0 ==> r.value.columns == [])
      && (|rows| > 0 ==> r.value.columns == ObjectKeys(rows[0]))
      && (forall i :: 0 <= i < |rows| ==> |r.value.rows[i]| == |r.value.columns|)
      && (forall i, j :: 0 <= i < |rows| && 0 <= j < |r.value.columns| ==>
            r.value.rows[i][j] == Lookup(rows[i], r.value.columns[j]))
  {
    if !IsSelectStatement(sql) then Failure(GuardMessage(sql))
    else
      var rows :- db(sql);
      if |rows| == 0 then Success(QueryResult([], []))
      else
        var columns := ObjectKeys(rows[0]);
        Success(QueryResult(columns, Project(columns, rows)))
  }

  /** Every row carries the same distinct column names, in the same order, as
      a SQL result set does. */
  predicate UniformRows(rows: seq<Row>)
  {
    forall i :: 0 <= i < |rows| ==>
      ColumnNames(rows[i]) == ColumnNames(rows[0]) && Distinct(ColumnNames(rows[i]))
  }

  /** For a uniform result set the projection loses nothing: the columns are
      the result's column names, and cell (i, j) is row i's j-th value. */
  lemma {:induction false} ProjectionKeepsUniformRows(db: Database, sql: string)
    requires IsSelectStatement(sql) && db(sql).Success?
    requires UniformRows(db(sql).value)
    ensures var rows := db(sql).value; var q := ExecuteQuery(db, sql).value;
      && (|rows| > 0 ==> q.columns == ColumnNames(rows[0]))
      && |q.rows| == |rows|
      && forall i, j :: 0 <= i < |rows| && 0 <= j < |rows[i]| ==>
           j < |q.columns| && q.columns[j] == rows[i][j].0 && q.rows[i][j] == Some(rows[i][j].1)
  {
    var rows := db(sql).value;
    var q := ExecuteQuery(db, sql).value;
    if |rows| > 0 {
      DedupOfDistinct(ColumnNames(rows[0]));
      assert q.columns == ColumnNames(rows[0]);
      forall i, j | 0 <= i < |rows| && 0 <= j < |rows[i]|
        ensures j < |q.columns| && q.columns[j] == rows[i][j].0 && q.rows[i][j] == Some(rows[i][j].1)
      {
        assert ColumnNames(rows[i]) == q.columns;
        LookupInDistinctRow(rows[i], j);
      }
    }
  }

  /** A one-row, one-column answer projects to that column and that cell. */
  lemma SingleValueResult(db: Database, sql: string, col: string, v: Value)
    requires IsSelectStatement(sql)
    requires db(sql) == Success([[(col, v)]])
    ensures ExecuteQuery(db, sql) == Success(QueryResult([col], [[Some(v)]]))
  {
    var row: Row := [(col, v)];
    assert ColumnNames(row) == [col];
    DedupOfDistinct([col]);
    ProjectSingleCell(col, v);
  }

  lemma ProjectSingleCell(col: string, v: Value)
    ensures Project([col], [[(col, v)]]) == [[Some(v)]]
  {
    var cells := Project([col], [[(col, v)]]);
    assert Lookup([(col, v)], col) == Some(v);
    assert cells[0] == [Some(v)];
  }

  /** A refused statement never reaches the database: the outcome is the same
      whatever the database would have answered. */
  lemma RefusalIgnoresDatabase(db1: Database, db2: Database, sql: string)
    requires !IsSelectStatement(sql)
    ensures ExecuteQuery(db1, sql) == ExecuteQuery(db2, sql)
    ensures ExecuteQuery(db1, sql).Failure?
  {
  }
}
