/** The source sheet, the output grid, and the rectangle a scan copies between
    them. Rows and columns are 1-based as in the spreadsheet. */
module Sheets {
  import opened Values
  import opened Styles

  /** `IN_CELL_ROW_OFFSET`, `IN_CELL_COL_OFFSET`: where data starts in an input sheet. */
  const IN_ROW_OFFSET: int := 4
  const IN_COL_OFFSET: int := 2
  /** `OUT_CELL_ROW_OFFSET`: where the first copied row lands in the output sheet.
      (The script also defines an output column offset of 2 but never uses it:
      output cells keep their source column.) */
  const OUT_ROW_OFFSET: int := 4

  /** A source sheet: the values it holds and the extent the library reports. */
  datatype Sheet = Sheet(cells: map<(int, int), Value>, maxRow: int, maxColumn: int)

  /** The value of a source cell; a cell never written reads as empty. */
  function ValueAt(s: Sheet, row: int, col: int): Value {
    if (row, col) in s.cells then s.cells[(row, col)] else Empty
  }

  /** The output sheet: the cells the library holds. */
  type Grid = map<(int, int), Cell>

  /** An output cell; one that does not exist yet is created with defaults. */
  function CellAt(g: Grid, row: int, col: int): Cell {
    if (row, col) in g then g[(row, col)] else DEFAULT_CELL
  }

  /** The number of values `range(lo, hi)` produces. */
  function RangeLength(lo: int, hi: int): (n: nat)
    ensures n == 0 <==> hi <= lo
    ensures n > 0 ==> lo + n == hi
  {
    if hi > lo then hi - lo else 0
  }

  /** Rows copied from a sheet: `range(4, max_row + 1)`. */
  function RowCount(s: Sheet): nat {
    RangeLength(IN_ROW_OFFSET, s.maxRow + 1)
  }

  /** Columns copied per row: `range(2, max_column + 1)`. */
  function ColumnCount(s: Sheet): nat {
    RangeLength(IN_COL_OFFSET, s.maxColumn + 1)
  }

  /** A scan finishes only when no copied cell has a position beyond the format
      table; with at least one row, that means at most four columns. */
  predicate Fits(s: Sheet) {
    RowCount(s) == 0 || ColumnCount(s) <= |CELL_FORMATS|
  }

  /** The number of rows copied is max(0, max_row - 3); a sheet whose
      `max_row` is below 4 (empty or header only) contributes none. */
  lemma RowCountValue(s: Sheet)
    ensures RowCount(s) == if s.maxRow >= IN_ROW_OFFSET then s.maxRow - IN_ROW_OFFSET + 1 else 0
    ensures s.maxRow < IN_ROW_OFFSET ==> RowCount(s) == 0
  {
  }

  /** A scan fails exactly when it has a row and `max_column` is beyond 5. */
  lemma FitsExactly(s: Sheet)
    ensures !Fits(s) <==> s.maxRow >= 4 && s.maxColumn > 5
  {
  }

  /** The copy loop's write of column `c` from source row `k` of `s`: the
      source value, the border and the format entry of the column's position in
      the row (only positions inside the table are ever written this way). */
  function PaintCell(s: Sheet, k: int, c: int, prior: Cell): Cell {
    if IN_COL_OFFSET <= c < IN_COL_OFFSET + |CELL_FORMATS| then
      Styled(prior, CELL_FORMATS[c - IN_COL_OFFSET], ValueAt(s, k, c))
    else prior
  }

  /** Output row `r` after the cells of columns `lo` .. `hi` - 1 have been
      rewritten one after another, in increasing column order, each painted
      from source row `k` of `s` over what it held before. */
  function Fill(h: Grid, s: Sheet, r: int, k: int, lo: int, hi: int): Grid
    decreases hi - lo
  {
    if hi <= lo then h
    else
      var h' := Fill(h, s, r, k, lo, hi - 1);
      h'[(r, hi - 1) := PaintCell(s, k, hi - 1, CellAt(h', r, hi - 1))]
  }

  /** Filling a row rewrites each of its cells `lo` .. `hi` - 1 exactly once,
      from the cell's original content, and leaves every other cell alone. */
  lemma {:induction false} FillAt(h: Grid, s: Sheet, r: int, k: int, lo: int, hi: int, r': int, c: int)
    ensures CellAt(Fill(h, s, r, k, lo, hi), r', c) ==
      if r' == r && lo <= c < hi then PaintCell(s, k, c, CellAt(h, r', c)) else CellAt(h, r', c)
    decreases hi - lo
  {
    if hi > lo {
      FillAt(h, s, r, k, lo, hi - 1, r', c);
      FillAt(h, s, r, k, lo, hi - 1, r, hi - 1);
    }
  }

  /** Output rows `r0` .. `r0 + n - 1` filled in turn from source rows
      `k0` .. `k0 + n - 1`, columns `lo` .. `hi` - 1 of each. */
  function FillRows(g: Grid, s: Sheet, r0: int, k0: int, n: nat, lo: int, hi: int): Grid {
    if n == 0 then g
    else Fill(FillRows(g, s, r0, k0, n - 1, lo, hi), s, r0 + n - 1, k0 + n - 1, lo, hi)
  }

  /** After `n` rows, each cell of the block has been written once, output
      row `r0 + j` from source row `k0 + j`, and every other cell is as it
      was. */
  lemma {:induction false} FillRowsAt(g: Grid, s: Sheet, r0: int, k0: int, n: nat, lo: int, hi: int, r: int, c: int)
    ensures CellAt(FillRows(g, s, r0, k0, n, lo, hi), r, c) ==
      if r0 <= r < r0 + n && lo <= c < hi then PaintCell(s, k0 + (r - r0), c, CellAt(g, r, c)) else CellAt(g, r, c)
  {
    if n > 0 {
      FillRowsAt(g, s, r0, k0, n - 1, lo, hi, r, c);
      FillAt(FillRows(g, s, r0, k0, n - 1, lo, hi), s, r0 + n - 1, k0 + n - 1, lo, hi, r, c);
    }
  }

  /** The scan's row step: filling the next row after `n` rows gives `n` + 1 rows. */
  lemma FillRowsNext(g: Grid, s: Sheet, r0: int, k0: int, n: nat, lo: int, hi: int,
                     before: Grid, r: int, k: int, after: Grid)
    requires before == FillRows(g, s, r0, k0, n, lo, hi)
    requires r == r0 + n && k == k0 + n
    requires after == Fill(before, s, r, k, lo, hi)
    ensures after == FillRows(g, s, r0, k0, n + 1, lo, hi)
  {
  }

  /** The copy loop's step: writing the styled source value into the next
      column of the row extends the fill by that column. */
  lemma FillNext(h: Grid, s: Sheet, r: int, k: int, cols: int, before: Grid, after: Grid)
    requires IN_COL_OFFSET <= cols < IN_COL_OFFSET + |CELL_FORMATS|
    requires before == Fill(h, s, r, k, IN_COL_OFFSET, cols)
    requires after == before[(r, cols) :=
      Styled(CellAt(before, r, cols), CELL_FORMATS[cols - IN_COL_OFFSET], ValueAt(s, k, cols))]
    ensures after == Fill(h, s, r, k, IN_COL_OFFSET, cols + 1)
  {
  }

  /** The output grid after a complete scan of `s` at writer cursor `w`:
      copied row j (source row 4 + j) goes to output row 4 + w + j. */
  function CopyRect(g: Grid, s: Sheet, w: int): Grid
    requires Fits(s)
  {
    FillRows(g, s, OUT_ROW_OFFSET + w, IN_ROW_OFFSET, RowCount(s), IN_COL_OFFSET, IN_COL_OFFSET + ColumnCount(s))
  }

  /** What a complete scan does to the output: every source cell (4 + j, c) of
      the copied rectangle lands, value unchanged, in output cell
      (4 + w + j, c), styled by its position c - 2 in the row; every other
      output cell is left as it was. */
  lemma CopyRectAt(g: Grid, s: Sheet, w: int, r: int, c: int)
    requires Fits(s)
    ensures var j := r - OUT_ROW_OFFSET - w;
      if 0 <= j < RowCount(s) && IN_COL_OFFSET <= c < IN_COL_OFFSET + ColumnCount(s) then
        && c - IN_COL_OFFSET < |CELL_FORMATS|
        && CellAt(CopyRect(g, s, w), r, c) ==
           Styled(CellAt(g, r, c), CELL_FORMATS[c - IN_COL_OFFSET], ValueAt(s, IN_ROW_OFFSET + j, c))
      else
        CellAt(CopyRect(g, s, w), r, c) == CellAt(g, r, c)
  {
    FillRowsAt(g, s, OUT_ROW_OFFSET + w, IN_ROW_OFFSET, RowCount(s), IN_COL_OFFSET, IN_COL_OFFSET + ColumnCount(s), r, c);
  }

  /** Output row `r` when the copy of source row `k` stops at the fifth
      column: the first four cells are written and styled, the fifth has its
      value and border but the format lookup fails before its font. */
  function Halted(h: Grid, s: Sheet, r: int, k: int): Grid {
    var c0 := IN_COL_OFFSET + |CELL_FORMATS|;
    Fill(h, s, r, k, IN_COL_OFFSET, c0)[(r, c0) := CellAt(h, r, c0).(value := ValueAt(s, k, c0), border := BorderAll)]
  }

  /** What a stopped row leaves in the output: positions 0 to 3 of the row
      written and styled, position 4 with value and border only, every other
      cell as it was. */
  lemma HaltedAt(h: Grid, s: Sheet, r: int, k: int, r': int, c: int)
    ensures r' == r && IN_COL_OFFSET <= c < IN_COL_OFFSET + |CELL_FORMATS| ==>
      CellAt(Halted(h, s, r, k), r', c) == Styled(CellAt(h, r', c), CELL_FORMATS[c - IN_COL_OFFSET], ValueAt(s, k, c))
    ensures r' == r && c == IN_COL_OFFSET + |CELL_FORMATS| ==>
      CellAt(Halted(h, s, r, k), r', c) == CellAt(h, r', c).(value := ValueAt(s, k, c), border := BorderAll)
    ensures r' != r || c < IN_COL_OFFSET || c > IN_COL_OFFSET + |CELL_FORMATS| ==>
      CellAt(Halted(h, s, r, k), r', c) == CellAt(h, r', c)
  {
    var c0 := IN_COL_OFFSET + |CELL_FORMATS|;
    FillAt(h, s, r, k, IN_COL_OFFSET, c0, r', c);
    FillAt(h, s, r, k, IN_COL_OFFSET, c0, r, c0);
  }
}
