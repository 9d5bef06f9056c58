/** `formatResults` of both text-to-SQL tools: a pipe-separated text table
    with a header line, a `---` separator line and one line per row. */
module SqlFormat {
  import opened Text

  const NoResults: string := "結果が見つかりませんでした。"
  const CellSeparator: string := " | "
  const SeparatorCell: string := "---"
  const LineBreak: char := '\n'

  /** `columns.join(' | ')`. */
  function Header(columns: seq<string>): string
  {
    Join(columns, CellSeparator)
  }

  /** `columns.map(() => '---').join(' | ')` for `n` columns. */
  function SeparatorLine(n: nat): string
  {
    Join(seq(n, _ => SeparatorCell), CellSeparator)
  }

  /** `row.map(String).join(' | ')`, with `show` standing for `String`. */
  function DataLine<C>(row: seq<C>, show: C -> string): string
  {
    Join(seq(|row|, j requires 0 <= j < |row| => show(row[j])), CellSeparator)
  }

  /** The lines of a non-empty table: header, separator, then the rows in order. */
  function TableLines<C>(columns: seq<string>, rows: seq<seq<C>>, show: C -> string): (lines: seq<string>)
    ensures |lines| == |rows| + 2
  {
    [Header(columns), SeparatorLine(|columns|)]
      + seq(|rows|, i requires 0 <= i < |rows| => DataLine(rows[i], show))
  }

  /** `formatResults(columns, rows)`: the fixed no-results message exactly
      when there are no rows, whatever the columns. */
  function FormatResults<C>(columns: seq<string>, rows: seq<seq<C>>, show: C -> string): (r: string)
    ensures r == NoResults <==> |rows| == 0
    ensures |rows| > 0 ==> LineBreak in r
  {
    if |rows| == 0 then NoResults
    else
      var lines := TableLines(columns, rows, show);
      JoinShowsSeparator(lines, LineBreak);
      assert LineBreak !in NoResults;
      Join(lines, [LineBreak])
  }

  /** Neither a column name nor a rendered cell contains a line break. */
  predicate SingleLineCells<C>(columns: seq<string>, rows: seq<seq<C>>, show: C -> string)
  {
    && (forall j :: 0 <= j < |columns| ==> LineBreak !in columns[j])
    && (forall i, j :: 0 <= i < |rows| && 0 <= j < |rows[i]| ==> LineBreak !in show(rows[i][j]))
  }

  /** With single-line cells, a non-empty result reads back, split at line
      breaks, as exactly `|rows| + 2` lines: header, separator, and each row's
      cells joined by ` | `, in input order. */
  lemma {:induction false} FormatResultsLines<C>(columns: seq<string>, rows: seq<seq<C>>, show: C -> string)
    requires |rows| > 0
    requires SingleLineCells(columns, rows, show)
    ensures var lines := Split(FormatResults(columns, rows, show), LineBreak);
      && |lines| == |rows| + 2
      && lines[0] == Join(columns, CellSeparator)
      && lines[1] == SeparatorLine(|columns|)
      && forall i :: 0 <= i < |rows| ==>
           lines[i + 2] == Join(seq(|rows[i]|, j requires 0 <= j < |rows[i]| => show(rows[i][j])), CellSeparator)
  {
    var lines := TableLines(columns, rows, show);
    forall k | 0 <= k < |lines| ensures LineBreak !in lines[k] {
      if k == 0 {
        JoinAvoids(columns, CellSeparator, LineBreak);
      } else if k == 1 {
        JoinAvoids(seq(|columns|, _ => SeparatorCell), CellSeparator, LineBreak);
      } else {
        var row := rows[k - 2];
        JoinAvoids(seq(|row|, j requires 0 <= j < |row| => show(row[j])), CellSeparator, LineBreak);
      }
    }
    SplitJoin(lines, LineBreak);
  }

  /** A one-column, one-row result is the column name, the separator and the
      cell, on three lines. */
  lemma SingleCellTable<C>(col: string, c: C, show: C -> string)
    ensures FormatResults([col], [[c]], show) == col + "\n---\n" + show(c)
  {
    assert seq(1, _ => SeparatorCell) == [SeparatorCell];
    assert seq(1, j requires 0 <= j < 1 => show([c][j])) == [show(c)];
    var lines := TableLines([col], [[c]], show);
    assert lines == [col, SeparatorCell, show(c)];
    assert lines[1..] == [SeparatorCell, show(c)];
    assert lines[1..][1..] == [show(c)];
    assert Join(lines[1..], "\n") == SeparatorCell + "\n" + show(c);
    assert Join(lines, "\n") == col + "\n" + (SeparatorCell + "\n" + show(c));
    assert col + "\n" + (SeparatorCell + "\n" + show(c)) == col + "\n---\n" + show(c);
  }

  /** `s` written `n` times. */
  function Repeat(s: string, n: nat): (r: string)
    ensures |r| == n * |s|
  {
    if n == 0 then "" else s + Repeat(s, n - 1)
  }

  /** The separator line has one `---` per column: `---` followed by
      ` | ---` once for every further column, 6n - 3 characters for n columns. */
  lemma {:induction false} SeparatorLineShape(n: nat)
    ensures n == 0 ==> SeparatorLine(n) == ""
    ensures n >= 1 ==> SeparatorLine(n) == SeparatorCell + Repeat(CellSeparator + SeparatorCell, n - 1)
    ensures n >= 1 ==> |SeparatorLine(n)| == 6 * n - 3
  {
    if n >= 2 {
      SeparatorLineShape(n - 1);
      assert seq(n, _ => SeparatorCell)[1..] == seq(n - 1, _ => SeparatorCell);
      assert SeparatorLine(n) == SeparatorCell + CellSeparator + SeparatorLine(n - 1);
      assert CellSeparator + SeparatorCell + Repeat(CellSeparator + SeparatorCell, n - 2)
          == Repeat(CellSeparator + SeparatorCell, n - 1);
    } else if n == 1 {
      assert seq(n, _ => SeparatorCell) == [SeparatorCell];
    }
  }
}
