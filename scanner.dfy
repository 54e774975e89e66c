/** `scan_excel_file`: copies the data rectangle of one input sheet to the
    output at the writer's cursor, styles each cell by its position in the row,
    and writes one trace line per row. */
module Scanner {
  import opened Values
  import opened Styles
  import opened Trace
  import opened Sheets
  import opened Workbooks
  import opened Streams

  /** How scanning a file fails (the script lets these exceptions propagate). */
  datatype ScanError =
    | CannotOpen(path: string)              // not a workbook, or no sheet "Data Table"
    | FormatIndexOutOfRange(index: nat)     // `CELL_FORMATS[idx]` with idx past the table

  /** The `%s` renderings of the first `n` copied cells of source row `r`,
      in column order. */
  function RowStrings(s: Sheet, r: int, n: nat): (xs: seq<string>)
    ensures |xs| == n
  {
    if n == 0 then [] else RowStrings(s, r, n - 1) + [ToString(ValueAt(s, r, IN_COL_OFFSET + n - 1))]
  }

  /** The text the inner loop has built after `n` columns of source row `r`:
      the renderings so far, each after the first preceded by `", "`. */
  function RowText(s: Sheet, r: int, n: nat): string {
    if n == 0 then ""
    else RowText(s, r, n - 1) + (if n == 1 then "" else SEPARATOR) + ToString(ValueAt(s, r, IN_COL_OFFSET + n - 1))
  }

  /** The values part of the trace line of source row `r`. */
  function RowLine(s: Sheet, r: int): string {
    RowText(s, r, ColumnCount(s))
  }

  /** The loop-built text is the renderings joined by `", "`: no leading or
      trailing separator, and an empty text for a row with no columns. */
  lemma {:induction false} RowTextIsJoin(s: Sheet, r: int, n: nat)
    ensures RowText(s, r, n) == Join(RowStrings(s, r, n))
  {
    if n > 0 {
      var xs, x := RowStrings(s, r, n - 1), ToString(ValueAt(s, r, IN_COL_OFFSET + n - 1));
      RowTextIsJoin(s, r, n - 1);
      JoinSnoc(xs, x);
      assert RowStrings(s, r, n) == xs + [x];
      assert RowText(s, r, n) == RowText(s, r, n - 1) + (if n == 1 then "" else SEPARATOR) + x;
    }
  }

  /** The first `n` trace lines a scan of `s` writes: the k-th (0-based)
      carries counter k + 1 and the values of source row 4 + k. */
  function ScanLog(s: Sheet, n: nat): (log: seq<string>)
    ensures |log| == n
  {
    if n == 0 then [] else ScanLog(s, n - 1) + [TraceLine(n, RowLine(s, IN_ROW_OFFSET + n - 1))]
  }

  /** The scan's logging step: the line for the next row extends the log. */
  lemma ScanLogNext(s: Sheet, n: nat, start: seq<string>, before: seq<string>, after: seq<string>, csv: string)
    requires before == start + ScanLog(s, n)
    requires csv == RowLine(s, IN_ROW_OFFSET + n)
    requires after == before + [TraceLine(n + 1, csv)]
    ensures after == start + ScanLog(s, n + 1)
  {
  }

  /** The block that writes one cell: the source value of column `col` in
      the reader's row goes into the same column of the writer's row, then the
      border, then the entry `idx` of the format table, which fails past the
      table's end after value and border are already set. Gives back the
      value written. */
  method CopyCell(reader: Reader, writer: Writer, col: int, idx: nat) returns (r: Result<Value, ScanError>)
    modifies writer`cells
    ensures var prior := CellAt(old(writer.cells), OUT_ROW_OFFSET + writer.row, col);
      idx < |CELL_FORMATS| ==>
        && r == Success(ValueAt(reader.sheet, IN_ROW_OFFSET + reader.row, col))
        && writer.cells == old(writer.cells)[(OUT_ROW_OFFSET + writer.row, col) := Styled(prior, CELL_FORMATS[idx], ValueAt(reader.sheet, IN_ROW_OFFSET + reader.row, col))]
    ensures var prior := CellAt(old(writer.cells), OUT_ROW_OFFSET + writer.row, col);
      idx >= |CELL_FORMATS| ==>
        && r == Failure(FormatIndexOutOfRange(idx))
        && writer.cells == old(writer.cells)[(OUT_ROW_OFFSET + writer.row, col) := prior.(value := ValueAt(reader.sheet, IN_ROW_OFFSET + reader.row, col), border := BorderAll)]
  {
    var fromValue := reader.Cell(col);
    var toCell := writer.Cell(col);
    toCell := toCell.(value := fromValue);
    toCell := toCell.(border := BorderAll);
    if idx >= |CELL_FORMATS| {
      writer.Store(col, toCell);
      return Failure(FormatIndexOutOfRange(idx));
    }
    toCell := toCell.(font := CELL_FORMATS[idx].font);
    if CELL_FORMATS[idx].alignment.Some? {
      toCell := toCell.(alignment := CELL_FORMATS[idx].alignment.value);
    }
    if CELL_FORMATS[idx].numberFormat.Some? {
      toCell := toCell.(numberFormat := CELL_FORMATS[idx].numberFormat.value);
    }
    writer.Store(col, toCell);
    return Success(toCell.value);
  }

  /** The inner loop of the scan: copies the columns of the reader's row into
      the writer's row and gives back their values joined by `", "`. */
  method CopyRow(reader: Reader, writer: Writer) returns (r: Result<string, ScanError>)
    modifies writer`cells
    ensures r.Success? <==> ColumnCount(reader.sheet) <= |CELL_FORMATS|
    ensures r.Success? ==>
      && writer.cells == Fill(old(writer.cells), reader.sheet, OUT_ROW_OFFSET + writer.row, IN_ROW_OFFSET + reader.row,
                              IN_COL_OFFSET, IN_COL_OFFSET + ColumnCount(reader.sheet))
      && r.value == RowLine(reader.sheet, IN_ROW_OFFSET + reader.row)
    ensures r.Failure? ==>
      && r.error == FormatIndexOutOfRange(|CELL_FORMATS|)
      && writer.cells == Halted(old(writer.cells), reader.sheet, OUT_ROW_OFFSET + writer.row, IN_ROW_OFFSET + reader.row)
  {
    ghost var s := reader.sheet;
    ghost var h0 := writer.cells;
    ghost var rOut := OUT_ROW_OFFSET + writer.row;
    ghost var k := IN_ROW_OFFSET + reader.row;
    var (_, _, colMin, colMax) := reader.Range();
    var sep := "";
    var csv := "";
    var idx: nat := 0;
    var colCurrent := colMin;
    while colCurrent < colMax
      invariant colCurrent == colMin + idx && idx <= ColumnCount(s) && idx <= |CELL_FORMATS|
      invariant writer.cells == Fill(h0, s, rOut, k, IN_COL_OFFSET, colCurrent)
      invariant csv == RowText(s, k, idx)
      invariant sep == if idx == 0 then "" else SEPARATOR
    {
      ghost var before := writer.cells;
      var v := CopyCell(reader, writer, colCurrent, idx);
      if v.Failure? {
        FillAt(h0, s, rOut, k, IN_COL_OFFSET, colCurrent, rOut, colCurrent);
        return Failure(v.error);
      }
      FillNext(h0, s, rOut, k, colCurrent, before, writer.cells);
      csv := csv + sep + ToString(v.value);
      sep := SEPARATOR;
      idx := idx + 1;
      colCurrent := colCurrent + 1;
    }
    assert colCurrent == IN_COL_OFFSET + ColumnCount(s);
    return Success(csv);
  }

  /** One pass of the row loop of `scan_excel_file`: copies the reader's row
      to the writer's row, advances both cursors and, when tracing, writes
      the row's line with the (already incremented) `counter`. */
  method ScanRow(reader: Reader, writer: Writer, fp: TextStream?, counter: nat) returns (r: Result<string, ScanError>)
    modifies reader, writer, fp
    ensures r.Success? <==> ColumnCount(reader.sheet) <= |CELL_FORMATS|
    ensures r.Success? ==>
      && writer.cells == Fill(old(writer.cells), reader.sheet, OUT_ROW_OFFSET + old(writer.row), IN_ROW_OFFSET + old(reader.row),
                              IN_COL_OFFSET, IN_COL_OFFSET + ColumnCount(reader.sheet))
      && r.value == RowLine(reader.sheet, IN_ROW_OFFSET + old(reader.row))
      && reader.row == old(reader.row) + 1 && writer.row == old(writer.row) + 1
      && (fp != null ==> fp.lines == old(fp.lines) + [TraceLine(counter, r.value)])
    ensures r.Failure? ==>
      && r.error == FormatIndexOutOfRange(|CELL_FORMATS|)
      && writer.cells == Halted(old(writer.cells), reader.sheet, OUT_ROW_OFFSET + old(writer.row), IN_ROW_OFFSET + old(reader.row))
      && reader.row == old(reader.row) && writer.row == old(writer.row)
      && (fp != null ==> fp.lines == old(fp.lines))
  {
    r := CopyRow(reader, writer);
    if r.Failure? {
      return;
    }
    reader.NextRow();
    writer.NextRow();
    if fp != null {
      fp.WriteLine(TraceLine(counter, r.value));
    }
  }

  /** The body of `scan_excel_file` once the reader is open on sheet `s`:
      copies rows 4 .. `max_row` to the writer's cursor, one trace line each. */
  method ScanSheet(writer: Writer, s: Sheet, fp: TextStream?) returns (r: Result<nat, ScanError>)
    modifies writer, fp
    ensures r.Success? <==> Fits(s)
    ensures r.Success? ==>
      && r.value == RowCount(s)
      && writer.cells == CopyRect(old(writer.cells), s, old(writer.row))
      && writer.row == old(writer.row) + r.value
      && (fp != null ==> fp.lines == old(fp.lines) + ScanLog(s, RowCount(s)))
    ensures r.Failure? ==>
      && r.error == FormatIndexOutOfRange(|CELL_FORMATS|)
      && writer.cells == Halted(old(writer.cells), s, OUT_ROW_OFFSET + old(writer.row), IN_ROW_OFFSET)
      && writer.row == old(writer.row)
      && (fp != null ==> fp.lines == old(fp.lines))
  {
    ghost var g0 := writer.cells;
    ghost var w := writer.row;
    var reader := new Reader(s);
    var (rowMin, rowMax, _, _) := reader.Range();

    var numLines: nat := 0;
    var rowCurrent := rowMin;
    while rowCurrent < rowMax
      invariant rowCurrent == rowMin + numLines && numLines <= RowCount(s)
      invariant numLines > 0 ==> ColumnCount(s) <= |CELL_FORMATS|
      invariant reader.sheet == s && reader.row == numLines && writer.row == w + numLines
      invariant writer.cells ==
        FillRows(g0, s, OUT_ROW_OFFSET + w, IN_ROW_OFFSET, numLines, IN_COL_OFFSET, IN_COL_OFFSET + ColumnCount(s))
      invariant fp != null ==> fp.lines == old(fp.lines) + ScanLog(s, numLines)
    {
      ghost var before := writer.cells;
      ghost var logged := if fp != null then fp.lines else [];
      ghost var n := numLines;
      ghost var rOut, k := OUT_ROW_OFFSET + writer.row, IN_ROW_OFFSET + reader.row;
      numLines := numLines + 1;
      var line := ScanRow(reader, writer, fp, numLines);
      if line.Failure? {
        assert numLines == 1 && before == g0;
        return Failure(line.error);
      }
      FillRowsNext(g0, s, OUT_ROW_OFFSET + w, IN_ROW_OFFSET, n, IN_COL_OFFSET, IN_COL_OFFSET + ColumnCount(s),
                   before, rOut, k, writer.cells);
      if fp != null {
        ScanLogNext(s, n, old(fp.lines), logged, fp.lines, line.value);
      }
      rowCurrent := rowCurrent + 1;
    }
    return Success(numLines);
  }

  /** `scan_excel_file`. `content` is what opening the file gives: its sheet
      "Data Table", or nothing when it cannot be opened. */
  method ScanExcelFile(writer: Writer, fullPath: string, content: Option<Sheet>, fp: TextStream?)
    returns (r: Result<nat, ScanError>)
    modifies writer, fp
    ensures content.None? ==> r == Failure(CannotOpen(fullPath)) && unchanged(writer) && (fp != null ==> unchanged(fp))
    ensures content.Some? ==> (r.Success? <==> Fits(content.value))
    ensures r.Success? ==>
      && r.value == RowCount(content.value)
      && writer.cells == CopyRect(old(writer.cells), content.value, old(writer.row))
      && writer.row == old(writer.row) + r.value
      && (fp != null ==> fp.lines == old(fp.lines) + ScanLog(content.value, RowCount(content.value)))
    ensures content.Some? && r.Failure? ==>
      && r == Failure(FormatIndexOutOfRange(|CELL_FORMATS|))
      && writer.cells == Halted(old(writer.cells), content.value, OUT_ROW_OFFSET + old(writer.row), IN_ROW_OFFSET)
      && writer.row == old(writer.row)
      && (fp != null ==> fp.lines == old(fp.lines))
  {
    if content.None? {
      return Failure(CannotOpen(fullPath));
    }
    r := ScanSheet(writer, content.value, fp);
  }

  /** Rows from two successive files land in contiguous output rows: the
      second file starts right after the first one's last row, and its rows
      leave the first file's cells untouched. */
  lemma SuccessiveScans(g: Grid, s1: Sheet, s2: Sheet, w: int, k: int, c: int)
    requires Fits(s1) && Fits(s2)
    ensures var g2 := CopyRect(CopyRect(g, s1, w), s2, w + RowCount(s1));
      && (0 <= k < RowCount(s1) && IN_COL_OFFSET <= c < IN_COL_OFFSET + ColumnCount(s1) ==>
            CellAt(g2, OUT_ROW_OFFSET + w + k, c).value == ValueAt(s1, IN_ROW_OFFSET + k, c))
      && (0 <= k < RowCount(s2) && IN_COL_OFFSET <= c < IN_COL_OFFSET + ColumnCount(s2) ==>
            CellAt(g2, OUT_ROW_OFFSET + w + RowCount(s1) + k, c).value == ValueAt(s2, IN_ROW_OFFSET + k, c))
  {
    var g1 := CopyRect(g, s1, w);
    CopyRectAt(g, s1, w, OUT_ROW_OFFSET + w + k, c);
    CopyRectAt(g1, s2, w + RowCount(s1), OUT_ROW_OFFSET + w + k, c);
    CopyRectAt(g1, s2, w + RowCount(s1), OUT_ROW_OFFSET + w + RowCount(s1) + k, c);
  }
}
