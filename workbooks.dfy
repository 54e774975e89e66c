/** The two spreadsheet wrappers: a reader over one input sheet and a writer
    over the output sheet, each with a row cursor `_row` counted from 0. */
module Workbooks {
  import opened Values
  import opened Styles
  import opened Sheets

  /** `ReadExcel`: the input sheet of one file and the reader's row cursor. */
  class Reader {
    const sheet: Sheet
    var row: int

    /** Opening a file starts its cursor at 0, whatever any earlier file did. */
    constructor (sheet: Sheet)
      ensures this.sheet == sheet && row == 0
    {
      this.sheet := sheet;
      row := 0;
    }

    /** `range()`: first row, row bound, first column, column bound
        (bounds exclusive). */
    function Range(): (int, int, int, int) {
      (IN_ROW_OFFSET, sheet.maxRow + 1, IN_COL_OFFSET, sheet.maxColumn + 1)
    }

    method NextRow()
      modifies this
      ensures row == old(row) + 1
    {
      row := row + 1;
    }

    /** The value in column `col` of the cursor's row. */
    function Cell(col: int): Value
      reads this
    {
      ValueAt(sheet, IN_ROW_OFFSET + row, col)
    }
  }

  /** `WriteExcel`: the output sheet of the copied template and the writer's
      row cursor, which runs on across all files. */
  class Writer {
    var cells: Grid
    var row: int

    /** The output starts as the template's sheet, cursor at 0. */
    constructor (template: Grid)
      ensures cells == template && row == 0
    {
      cells := template;
      row := 0;
    }

    method NextRow()
      modifies this`row
      ensures row == old(row) + 1
    {
      row := row + 1;
    }

    /** The cell in column `col` of the cursor's row, as it is now. */
    function Cell(col: int): Cell
      reads this
    {
      CellAt(cells, OUT_ROW_OFFSET + row, col)
    }

    /** Puts `c` into column `col` of the cursor's row; nothing else changes. */
    method Store(col: int, c: Cell)
      modifies this`cells
      ensures cells == old(cells)[(OUT_ROW_OFFSET + row, col) := c]
    {
      cells := cells[(OUT_ROW_OFFSET + row, col) := c];
    }
  }
}
