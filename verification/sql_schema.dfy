/** `getSchemaInfo` of both text-to-SQL tools: the schema description given
    to the language model, one `CREATE TABLE` line per user table followed,
    for a table holding rows, by two comment lines quoting sample rows. */
module SqlSchema {
  import opened Wrappers
  import opened Text
  import SqlQuery

  /** The `type` column of `sqlite_master`. */
  datatype ObjectKind = Table | Index | View | Trigger

  /** One row of `PRAGMA table_info`. */
  datatype ColumnInfo = ColumnInfo(
    cid: int,
    name: string,
    declaredType: string,
    notnull: int,
    dfltValue: Option<string>,
    pk: int)

  /** One `sqlite_master` entry with the table's column descriptions and its
      stored rows in scan order. */
  datatype CatalogEntry = CatalogEntry(
    kind: ObjectKind,
    name: string,
    columns: seq<ColumnInfo>,
    rows: seq<SqlQuery.Row>)

  /** The `LIMIT` of the sample-row query. */
  const SampleLimit: nat := 3
  const InternalPrefix: string := "sqlite"
  const LineBreak: char := '\n'

  /** `name LIKE 'sqlite_%'`: `sqlite` in any ASCII letter case, then at
      least one more character (`_` matches any one character). */
  predicate IsInternalName(name: string)
  {
    |name| >= 7 && forall k :: 0 <= k < 6 ==> LowerAscii(name[k]) == InternalPrefix[k]
  }

  /** The catalog query's filter: `type='table' AND name NOT LIKE 'sqlite_%'`. */
  predicate IsListed(e: CatalogEntry)
  {
    e.kind == Table && !IsInternalName(e.name)
  }

  /** The listed tables, in catalog order. */
  function ListedTables(catalog: seq<CatalogEntry>): (tables: seq<CatalogEntry>)
    ensures |tables| <= |catalog|
    ensures forall e :: e in tables <==> e in catalog && IsListed(e)
  {
    if |catalog| == 0 then []
    else
      var rest := ListedTables(catalog[1..]);
      assert forall e :: e in catalog <==> e == catalog[0] || e in catalog[1..];
      if IsListed(catalog[0]) then [catalog[0]] + rest else rest
  }

  /** `ListedTables` is a filter: the listing of a concatenation is the
      concatenation of the listings, ... */
  lemma {:induction false} ListedTablesAppend(a: seq<CatalogEntry>, b: seq<CatalogEntry>)
    ensures ListedTables(a + b) == ListedTables(a) + ListedTables(b)
    decreases |a|
  {
    if |a| > 0 {
      assert (a + b)[0] == a[0];
      assert (a + b)[1..] == a[1..] + b;
      ListedTablesAppend(a[1..], b);
    } else {
      assert a + b == b;
    }
  }

  /** ... and a single entry is kept exactly when it is a listed table. */
  lemma ListedTablesSingle(e: CatalogEntry)
    ensures ListedTables([e]) == if IsListed(e) then [e] else []
  {
    assert [e][1..] == [];
  }

  /** One column's definition: name and type, then `PRIMARY KEY` for a key
      column, then `NOT NULL` for a non-null one, joined by single spaces. */
  function ColumnDef(col: ColumnInfo): (def: string)
    ensures def == col.name + " " + col.declaredType
      + (if col.pk != 0 then " PRIMARY KEY" else "")
      + (if col.notnull != 0 then " NOT NULL" else "")
  {
    var base := [col.name, col.declaredType];
    var withKey := if col.pk != 0 then base + ["PRIMARY KEY"] else base;
    var parts := if col.notnull != 0 then withKey + ["NOT NULL"] else withKey;
    assert base[1..] == [col.declaredType];
    JoinAppend(base, "PRIMARY KEY", " ");
    JoinAppend(withKey, "NOT NULL", " ");
    Join(parts, " ")
  }

  /** `CREATE TABLE name (def, def, ...)`: the column definitions in column
      order, separated by a comma and a space. */
  function CreateLine(t: CatalogEntry): (line: string)
    ensures StartsWith(line, "CREATE TABLE " + t.name + " (") && line[|line| - 1] == ')'
    ensures |t.columns| == 0 ==> line == "CREATE TABLE " + t.name + " ()"
    ensures |t.columns| == 1 ==> line == "CREATE TABLE " + t.name + " (" + ColumnDef(t.columns[0]) + ")"
  {
    "CREATE TABLE " + t.name + " ("
      + Join(seq(|t.columns|, i requires 0 <= i < |t.columns| => ColumnDef(t.columns[i])), ", ")
      + ")"
  }

  /** Adding a column appends `, ` and its definition inside the
      parentheses; with the zero- and one-column forms this fixes the line as
      the column definitions in column order, separated by a comma and a space. */
  lemma CreateLineAddsColumn(t: CatalogEntry, c: ColumnInfo)
    requires |t.columns| >= 1
    ensures var line := CreateLine(t);
      CreateLine(t.(columns := t.columns + [c])) == line[..|line| - 1] + ", " + ColumnDef(c) + ")"
  {
    var u := t.(columns := t.columns + [c]);
    var defs := seq(|t.columns|, i requires 0 <= i < |t.columns| => ColumnDef(t.columns[i]));
    var defs2 := seq(|u.columns|, i requires 0 <= i < |u.columns| => ColumnDef(u.columns[i]));
    assert defs2 == defs + [ColumnDef(c)];
    JoinAppend(defs, ColumnDef(c), ", ");
    var line := CreateLine(t);
    assert line[..|line| - 1] == "CREATE TABLE " + t.name + " (" + Join(defs, ", ");
  }

  /** The rows `SELECT * FROM "name" LIMIT 3` yields. */
  function SampleRows(t: CatalogEntry): (sample: seq<SqlQuery.Row>)
    ensures |sample| == if |t.rows| < SampleLimit then |t.rows| else SampleLimit
    ensures sample == t.rows[..|sample|]
  {
    if |t.rows| <= SampleLimit then t.rows else t.rows[..SampleLimit]
  }

  /** The lines one table contributes; `stringify` stands for `JSON.stringify`. */
  function TableLines(t: CatalogEntry, stringify: seq<SqlQuery.Row> -> string): (lines: seq<string>)
    ensures |lines| == if |t.rows| > 0 then 3 else 1
    ensures lines[0] == CreateLine(t)
    ensures |t.rows| > 0 ==>
      lines[1] == "/* Sample rows from " + t.name + ": */"
      && lines[2] == "/* " + stringify(SampleRows(t)) + " */"
  {
    var sample := SampleRows(t);
    [CreateLine(t)]
      + if |sample| > 0 then
          ["/* Sample rows from " + t.name + ": */", "/* " + stringify(sample) + " */"]
        else []
  }

  /** The lines of all the given tables, table after table. */
  function SchemaLines(tables: seq<CatalogEntry>, stringify: seq<SqlQuery.Row> -> string): seq<string>
  {
    if |tables| == 0 then []
    else TableLines(tables[0], stringify) + SchemaLines(tables[1..], stringify)
  }

  /** `getSchemaInfo(db)`: the listed tables' lines joined by line breaks.
      It is empty exactly when no table is listed, and otherwise opens with
      the first listed table's `CREATE TABLE` line. */
  function SchemaInfo(catalog: seq<CatalogEntry>, stringify: seq<SqlQuery.Row> -> string): (info: string)
    ensures info == "" <==> |ListedTables(catalog)| == 0
    ensures |ListedTables(catalog)| > 0 ==> StartsWith(info, CreateLine(ListedTables(catalog)[0]))
  {
    var tables := ListedTables(catalog);
    var lines := SchemaLines(tables, stringify);
    if |tables| > 0 then
      assert lines[0] == CreateLine(tables[0]);
      JoinStartsWithFirst(lines, [LineBreak]);
      Join(lines, [LineBreak])
    else
      Join(lines, [LineBreak])
  }

  /** Lines a table contributes: one, plus two when it holds a row. */
  function LinesFor(t: CatalogEntry): nat
  {
    if |t.rows| > 0 then 3 else 1
  }

  function TotalLines(tables: seq<CatalogEntry>): nat
  {
    if |tables| == 0 then 0 else LinesFor(tables[0]) + TotalLines(tables[1..])
  }

  /** No table name, column name or type, and no sample text contains a line break. */
  predicate SingleLineTables(tables: seq<CatalogEntry>, stringify: seq<SqlQuery.Row> -> string)
  {
    forall i :: 0 <= i < |tables| ==>
      SingleLineTable(tables[i]) && LineBreak !in stringify(SampleRows(tables[i]))
  }

  /** Neither the table's name nor a column's name or type contains a line break. */
  predicate SingleLineTable(t: CatalogEntry)
  {
    && LineBreak !in t.name
    && forall j :: 0 <= j < |t.columns| ==>
         LineBreak !in t.columns[j].name && LineBreak !in t.columns[j].declaredType
  }

  lemma ColumnDefIsSingleLine(col: ColumnInfo)
    requires LineBreak !in col.name && LineBreak !in col.declaredType
    ensures LineBreak !in ColumnDef(col)
  {
  }

  lemma CreateLineIsSingleLine(t: CatalogEntry)
    requires SingleLineTable(t)
    ensures LineBreak !in CreateLine(t)
  {
    var defs := seq(|t.columns|, i requires 0 <= i < |t.columns| => ColumnDef(t.columns[i]));
    forall i | 0 <= i < |defs| ensures LineBreak !in defs[i] {
      ColumnDefIsSingleLine(t.columns[i]);
    }
    JoinAvoids(defs, ", ", LineBreak);
  }

  lemma TableLinesAreSingleLine(t: CatalogEntry, stringify: seq<SqlQuery.Row> -> string)
    requires SingleLineTable(t) && LineBreak !in stringify(SampleRows(t))
    ensures NoneContains(TableLines(t, stringify), LineBreak)
  {
    CreateLineIsSingleLine(t);
  }

  /** The tables' blocks together have `TotalLines` lines: three for a
      table holding rows, one for an empty table. */
  lemma {:induction false} SchemaLinesCount(tables: seq<CatalogEntry>, stringify: seq<SqlQuery.Row> -> string)
    ensures |SchemaLines(tables, stringify)| == TotalLines(tables)
    decreases |tables|
  {
    if |tables| > 0 {
      SchemaLinesCount(tables[1..], stringify);
    }
  }

  /** With single-line names, types and sample texts, no line of the
      schema contains a line break. */
  lemma {:induction false} SchemaLinesAreSingleLine(tables: seq<CatalogEntry>, stringify: seq<SqlQuery.Row> -> string)
    requires SingleLineTables(tables, stringify)
    ensures NoneContains(SchemaLines(tables, stringify), LineBreak)
    decreases |tables|
  {
    if |tables| > 0 {
      assert SingleLineTables(tables[1..], stringify) by {
        forall i | 0 <= i < |tables| - 1 ensures tables[1..][i] == tables[i + 1] { }
      }
      TableLinesAreSingleLine(tables[0], stringify);
      SchemaLinesAreSingleLine(tables[1..], stringify);
    }
  }

  /** With single-line names, types and sample texts, the schema text read
      back line by line is exactly the tables' blocks: a `CREATE TABLE` line
      per listed table, followed by the two sample comment lines exactly when
      the table holds a row. */
  lemma {:induction false} SchemaInfoLines(catalog: seq<CatalogEntry>, stringify: seq<SqlQuery.Row> -> string)
    requires |ListedTables(catalog)| > 0
    requires SingleLineTables(ListedTables(catalog), stringify)
    ensures var tables := ListedTables(catalog);
      && Split(SchemaInfo(catalog, stringify), LineBreak) == SchemaLines(tables, stringify)
      && |Split(SchemaInfo(catalog, stringify), LineBreak)| == TotalLines(tables)
  {
    var tables := ListedTables(catalog);
    SchemaLinesCount(tables, stringify);
    SchemaLinesAreSingleLine(tables, stringify);
    assert |SchemaLines(tables, stringify)| >= 1;
    SplitJoin(SchemaLines(tables, stringify), LineBreak);
  }
}
