# Excel summarizer — a Dafny model of its core

`excel_summarizer.py` walks a directory tree of spreadsheet files. It
copies the data rows of each input workbook's sheet "Data Table" into one
output sheet, styles each copied cell by its position in the row, and
writes an optional trace log.

This project models the part of the script that can be stated precisely
once the spreadsheet library and the filesystem are abstracted away:

- **The row cursors** (`ReadExcel`, `WriteExcel`): classes `Workbooks.Reader`
  and `Workbooks.Writer`, each with its `_row` cursor. A source sheet is a
  map from (row, column) to a value, together with the `max_row` and
  `max_column` the library reports. The output sheet is a map from
  (row, column) to a cell that carries a value and four style tokens.
- **The column format table** (`CELL_FORMATS`): `Styles`. The library's
  fonts, alignments, borders and number formats are opaque tokens.
- **`scan_excel_file`** (`Scanner`): written imperatively, with the row
  loop, the column loop and the write of each cell as methods. Each method
  is proved against pure functions of the sheet:
  - `CopyRect` gives the output grid after a complete scan;
  - `Halted` gives the output after the fifth column stops the scan;
  - `ScanLog` gives the trace lines.
- **The trace line** `'%5d: %s'` (`Trace`), with a parser that reads it
  back.
- **The input-file filter and the path helpers it needs** (`Paths`):
  `os.path.join`, `os.path.splitext`, the `.xlsx` test and the `~` test.
- **`seek_directories`** (`Directories`, `Ordering`, `Walker`), over an
  abstract directory tree. `Walker.Visits` gives the order of the walk as a
  sequence of events. `Walker.Process` folds what handling those events does
  to the output sheet, the writer's cursor, the trace log and the console.
  The imperative walk (`Walker.SeekDirectories` and its loops) is proved to
  have exactly the effect of `Process` applied to `Visits`.

A failure is an exception that ends the script (a file that cannot be
opened, a fifth column, a listed entry that is neither a regular file nor
a directory). It is modelled as a `Failure` result that ends the walk.

## Model

| member | source | states |
|---|---|---|
| Values.NatToDecimal | excel_summarizer.py:170 | `%d` of a non-negative counter; never empty; its digits and round trip are stated by `NatToDecimalDigits`, `DecimalRoundTrip` and `DecimalCanonical` |
| Values.IntToDecimal | excel_summarizer.py:163 | `%s` of an integer cell; its sign is stated by `IntToDecimalSign` |
| Values.ToString | excel_summarizer.py:163 | `'%s' % value` for an empty, text, integer or boolean cell (`None`, the text, the decimal spelling, `True`/`False`); a float or date carries its own rendering |
| Values.NatToDecimalDigits | excel_summarizer.py:170 | `%d` of a counter is all digits, with a leading zero only for zero itself |
| Values.NatToDecimalWidth | excel_summarizer.py:170 | a counter's spelling fits in k characters exactly when the counter is below 10^k (so `%5d` pads every counter below 100000) |
| Values.DecimalRoundTrip | excel_summarizer.py:170 | reading back the decimal spelling of n gives n |
| Values.DecimalCanonical | excel_summarizer.py:170 | every digit string without a leading zero is the spelling of its value |
| Values.IntToDecimalSign | excel_summarizer.py:163 | `%s` of an integer cell starts with a minus sign exactly when the integer is negative |
| Styles.Styled | excel_summarizer.py:155-161 | the cell after the value, the border and one entry of `CELL_FORMATS` are applied; stated position by position by `StyledAt` |
| Styles.CellFormatsShape | excel_summarizer.py:75-80 | `CELL_FORMATS`, the constant of the same name: the table has four entries; all use the Meiryo font; only position 1 sets an alignment (left); positions 0, 2 and 3 set a number format |
| Styles.StyledAt | excel_summarizer.py:155-161 | a written cell gets the value, `BORDER_ALL` and the entry's font; its alignment and number format change only where the entry sets one |
| Streams.TextStream.constructor | excel_summarizer.py:233 | a freshly opened trace file holds no lines |
| Streams.TextStream.WriteLine | excel_summarizer.py:170 | a write appends one line and keeps every earlier line |
| Workbooks.Reader.Range | excel_summarizer.py:93-94 | `range()`: first row 4, row bound `max_row + 1`, first column 2, column bound `max_column + 1`; the row count it yields is stated by `Sheets.RowCountValue` |
| Workbooks.Reader.Cell | excel_summarizer.py:100-101 | `cell(col)`: the value at (4 + cursor, col) |
| Workbooks.Writer.Cell | excel_summarizer.py:124-125 | `cell(col)`: the output cell at (4 + cursor, col), created with defaults on first access |
| Workbooks.Reader.constructor | excel_summarizer.py:86-91 | opening a file gives a reader on its sheet with cursor 0, whatever an earlier file did |
| Workbooks.Reader.NextRow | excel_summarizer.py:96-98 | `next_row` moves the reader's cursor by one |
| Workbooks.Writer.constructor | excel_summarizer.py:111-118 | the writer starts on the template's sheet with cursor 0 |
| Workbooks.Writer.NextRow | excel_summarizer.py:120-122 | `next_row` moves the writer's cursor by one and leaves the cells alone |
| Workbooks.Writer.Store | excel_summarizer.py:124-125 | writing through `cell(col)` changes only the cell at (4 + cursor, col) |
| Sheets.RowCount | excel_summarizer.py:142 | the rows a scan copies, `range(4, max_row + 1)`; closed form in `RowCountValue` |
| Sheets.ColumnCount | excel_summarizer.py:150 | the columns copied per row, `range(2, max_column + 1)` |
| Sheets.Fits | excel_summarizer.py:150-157 | a scan reaches no position past the format table; characterised by `FitsExactly` |
| Sheets.PaintCell | excel_summarizer.py:153-161 | the write of one cell from the source row, styled by its position |
| Sheets.Fill | excel_summarizer.py:150-165 | the output after the column loop over one row; stated cell by cell by `FillAt` |
| Sheets.FillRows | excel_summarizer.py:142-168 | the output after the row loop over n rows; stated cell by cell by `FillRowsAt` |
| Sheets.CopyRect | excel_summarizer.py:142-168 | the output after a complete scan at the writer's cursor; stated cell by cell by `CopyRectAt` |
| Sheets.Halted | excel_summarizer.py:153-157 | the output row when the fifth column stops the scan; stated cell by cell by `HaltedAt` |
| Sheets.RangeLength | excel_summarizer.py:142 | `range(lo, hi)` runs `hi - lo` times, and not at all when `hi <= lo` |
| Sheets.RowCountValue | excel_summarizer.py:93-94 | a scan copies max(0, max_row - 3) rows, so a sheet with `max_row` below 4 contributes none |
| Sheets.FitsExactly | excel_summarizer.py:150-157 | the format lookup fails exactly when the sheet has a data row and `max_column` is above 5 |
| Sheets.FillAt | excel_summarizer.py:150-161 | the column loop rewrites each cell of its row range once, from the cell's prior content, and no other cell |
| Sheets.FillRowsAt | excel_summarizer.py:142-168 | after n rows, output row r0 + j holds source row k0 + j, styled; every cell outside the block is unchanged |
| Sheets.FillRowsNext | excel_summarizer.py:167-168 | one more row, at the advanced cursors, extends the block by one row |
| Sheets.FillNext | excel_summarizer.py:150-165 | writing the styled value into the next column extends the row by one column |
| Sheets.CopyRectAt | excel_summarizer.py:142-165 | a complete scan at writer cursor w puts the value of source cell (4 + j, c) unchanged into output cell (4 + w + j, c), styled by position c - 2; every other cell is unchanged |
| Sheets.HaltedAt | excel_summarizer.py:153-161 | when the fifth column stops a row, positions 0 to 3 are written and styled, position 4 has only its value and border, and nothing else changes |
| Trace.Join | excel_summarizer.py:163-164 | the values separated by `", "`; stated by `JoinStep`, `JoinSnoc`, `JoinAppend`, `JoinEnds` and `JoinLength` |
| Trace.TraceLine | excel_summarizer.py:170 | `'%5d: %s' % (counter, values)`; stated by `TraceLineLayout` and `TraceLineRoundTrip` |
| Trace.JoinStep | excel_summarizer.py:163-164 | the loop's `csv += sep + value` appends each value after a separator, except the first |
| Trace.JoinSnoc | excel_summarizer.py:163-164 | appending one more value adds exactly one separator, unless it is the first value |
| Trace.JoinAppend | excel_summarizer.py:163-164 | joining two non-empty runs puts exactly one `", "` between them |
| Trace.JoinEnds | excel_summarizer.py:145-146 | the joined values have no leading and no trailing separator |
| Trace.JoinLength | excel_summarizer.py:163-164 | the length of the joined text is the total length of the values plus two per separator |
| Trace.SpacesAreSpaces | excel_summarizer.py:170 | the padding of `%5d` is all spaces |
| Trace.RightJustify | excel_summarizer.py:170 | the field is five characters wide, or the spelling's own width when that is wider (no truncation) |
| Trace.RightJustifyShape | excel_summarizer.py:170 | the field ends with the spelling and is spaces before it |
| Trace.TraceLineLayout | excel_summarizer.py:170 | below 100000 the counter fills columns 0-4, `": "` follows, and the values start at column 7 |
| Trace.TraceLineRoundTrip | excel_summarizer.py:170 | parsing a trace line gives back the counter and the joined values it was made from |
| Scanner.RowText | excel_summarizer.py:145-164 | the text the column loop builds; equal to the join of the renderings by `RowTextIsJoin` |
| Scanner.ScanLog | excel_summarizer.py:169-170 | the trace lines of a scan's first n rows, one per row, counters 1 to n; extended one row at a time by `ScanLogNext` |
| Scanner.RowTextIsJoin | excel_summarizer.py:145-164 | the text the column loop builds is the renderings joined by `", "`, and is empty for a row with no columns |
| Scanner.ScanLogNext | excel_summarizer.py:169-170 | the line for the next row, with the incremented counter, extends the trace log |
| Scanner.CopyCell | excel_summarizer.py:153-161 | the cell of the writer's row gets the reader's value and the styling of entry `idx`; past the table's end the value and the border are written, then the lookup fails |
| Scanner.CopyRow | excel_summarizer.py:145-165 | the column loop succeeds exactly when the sheet has at most four columns, fills the writer's row from the reader's row and returns the joined values; otherwise it stops at the fifth column |
| Scanner.ScanRow | excel_summarizer.py:142-170 | one row pass copies the row, advances both cursors by one and logs `TraceLine(counter, values)`; on failure neither cursor nor log moves |
| Scanner.ScanSheet | excel_summarizer.py:136-174 | the scan succeeds exactly when the sheet fits the table; it then returns the row count, leaves the output as `CopyRect`, moves the writer's cursor by the count and appends one trace line per row; a failing scan stops in its first row |
| Scanner.ScanExcelFile | excel_summarizer.py:134-174 | a file that cannot be opened fails and changes nothing; otherwise the file's sheet is scanned as `ScanSheet` states |
| Scanner.SuccessiveScans | excel_summarizer.py:115-125 | the rows of two files scanned one after the other land in contiguous output rows, the second right after the first, and the second does not overwrite the first |
| Ordering.LexLe | excel_summarizer.py:189 | Python's `<=` on strings; a total order by `LexLeReflexive`, `LexLeTotal`, `LexLeTransitive` and `LexLeAntisymmetric` |
| Ordering.LowerLe | excel_summarizer.py:189 | the order of `sort(key=str.lower)`; case-blind by `LowerLeIgnoresCase` |
| Ordering.Lower | excel_summarizer.py:189 | lowering keeps the length |
| Ordering.LowerAt | excel_summarizer.py:189 | each character is lowered where it stands |
| Ordering.LexLeReflexive | excel_summarizer.py:189 | Python's `<=` on strings is reflexive |
| Ordering.LexLeTotal | excel_summarizer.py:189 | any two strings are comparable |
| Ordering.LexLeTransitive | excel_summarizer.py:189 | the order is transitive |
| Ordering.LexLeAntisymmetric | excel_summarizer.py:189 | two strings each at most the other are equal |
| Ordering.LowerLeIgnoresCase | excel_summarizer.py:189 | a name and its lower-cased form have the same sort key |
| Directories.FilesOf | excel_summarizer.py:182-187 | the `files` list of the partition loop; stated by `PartitionMembers` and `PartitionIsPermutation` |
| Directories.DirsOf | excel_summarizer.py:182-187 | the `dirs` list of the partition loop; stated by the same two lemmas |
| Directories.Insert | excel_summarizer.py:189 | one step of the stable sort; stated by `InsertPermutation`, `InsertMembers` and `InsertSorted` |
| Directories.SortByName | excel_summarizer.py:189 | `sort(key=str.lower)` (also used at line 199); sorted and a permutation by `SortByNameSorted` and `SortByNamePermutation` |
| Directories.PartitionMembers | excel_summarizer.py:182-187 | an entry is in `files` exactly when it is a listed regular file, and in `dirs` exactly when it is any other listed entry |
| Directories.PartitionIsPermutation | excel_summarizer.py:182-187 | `files` and `dirs` together are exactly the listing |
| Directories.InsertPermutation | excel_summarizer.py:189 | inserting adds exactly one entry |
| Directories.InsertMembers | excel_summarizer.py:189 | after inserting, the list holds the new entry and the entries it held before |
| Directories.InsertSorted | excel_summarizer.py:189 | inserting into a list sorted by lower-cased name keeps it sorted |
| Directories.SortByNameSorted | excel_summarizer.py:189 | `sort(key=str.lower)` orders the entries by lower-cased name |
| Directories.SortByNamePermutation | excel_summarizer.py:189 | the sort is a permutation |
| Directories.SortByNameMembers | excel_summarizer.py:199 | the sorted list holds every entry and nothing else |
| Paths.PathJoin | excel_summarizer.py:191 | `os.path.join` of a directory and an entry name (also at line 202); stated by `PathJoinShape` |
| Paths.SplitExt | excel_summarizer.py:194 | `os.path.splitext`; stated by `SplitExtParts` |
| Paths.IsInputName | excel_summarizer.py:194-195 | the test `ext == '.xlsx' and not base.startswith('~')`; characterised by `InputNameExactly` |
| Paths.PathJoinShape | excel_summarizer.py:191 | the joined path starts with the directory, ends with the name, and has one `\` between them unless the directory is empty or already ends in a separator |
| Paths.RFind | excel_summarizer.py:194 | the index of the last occurrence is -1 or a position of the string |
| Paths.RFindLast | excel_summarizer.py:194 | that index holds the character and no later position does |
| Paths.LastSep | excel_summarizer.py:194 | the index of the last separator is -1 or a position of the path |
| Paths.LastSepLast | excel_summarizer.py:194 | a separator (`\` or `/`) is at that index and none after it |
| Paths.SplitExtParts | excel_summarizer.py:194 | `splitext` parts concatenate to the path; a non-empty extension is a dot followed by no dot and no separator; the extension is non-empty exactly when the last path component has a dot with a non-dot character somewhere before it |
| Paths.InputNameExactly | excel_summarizer.py:194-195 | a listed name is scanned exactly when it ends in `.xlsx` (case-sensitive), has a non-dot character before that suffix, and does not start with `~` |
| Paths.LockFileSkipped | excel_summarizer.py:195 | the lock file `~$Book.xlsx` is not scanned |
| Paths.UpperCaseExtensionSkipped | excel_summarizer.py:194-195 | `Book.XLSX` is not scanned |
| Paths.WorkbookScanned | excel_summarizer.py:194-195 | `Book.xlsx` is scanned |
| Walker.Summary | excel_summarizer.py:197 | the console line `'%s %s %d' % (dir_relative, file, lines)` |
| Walker.Step | excel_summarizer.py:190-197 | one pass of the file loop on the output, cursor, log and console; stated by `StepTracesPathFirst` and `StepScansExactlyInputs`, and met by `HandleFile` |
| Walker.Process | excel_summarizer.py:178-204 | the events handled in order, stopping at the first failure; stated by `ProcessConcat`, `ProcessPrefixFailure` and `ProcessTotals` |
| Walker.Visits | excel_summarizer.py:178-204 | the order of the walk of one directory; stated by `VisitsFilesFirst`, `VisitsDirsAfter` and `WalkOrderExample`, and met by `SeekDirectories` |
| Walker.VisitDirs | excel_summarizer.py:199-202 | the walks of the subdirectories one after another; met by `SeekSubdirectories` |
| Walker.FileEvents | excel_summarizer.py:189-191 | a level's files give one event each, in the same order, at the joined path |
| Walker.ProcessConcat | excel_summarizer.py:189-202 | handling two runs of events is handling the first and then the second from where the first left off; a failure in the first is final |
| Walker.ProcessNext | excel_summarizer.py:189-197 | handling one more event after a successful prefix is one `Step` |
| Walker.ProcessPrefixFailure | excel_summarizer.py:178-204 | once a prefix of the walk fails, the whole walk fails with the same error |
| Walker.VisitDirsPrefix | excel_summarizer.py:199-202 | the walks of the first k subdirectories are a prefix of the walks of all of them |
| Walker.ProcessTotals | excel_summarizer.py:196-197 | after a successful walk, the writer's cursor has moved by exactly the rows of the scanned files and the console has one more line per scanned file; the log only grows, and stays as it was without a trace file |
| Walker.StepTracesPathFirst | excel_summarizer.py:190-196 | with a trace file, every listed file's full path is logged, scanned or not, and comes before that file's row lines |
| Walker.StepScansExactlyInputs | excel_summarizer.py:194-197 | a listed file is opened and scanned exactly when its name passes the filter: one that does not pass, whatever it holds, only has its path logged and leaves the output, the cursor and the console alone; one that passes fails the walk when it cannot be opened or is too wide for the format table, and otherwise moves the cursor by its rows and adds one console line |
| Walker.VisitsFilesFirst | excel_summarizer.py:182-199 | at each level the walk first handles every regular file of the listing, each once, in lower-cased name order, at the joined path with the level's relative path; only then come the subdirectories |
| Walker.VisitsDirsAfter | excel_summarizer.py:199-202 | after a level's files, the walk goes on with every listed entry that is not a regular file, each once, in lower-cased name order, each walked in turn at the extended paths |
| Walker.WalkOrderExample | excel_summarizer.py:178-204 | in a directory holding `b.xlsx`, `Z/c.xlsx` and `A.xlsx`, the order is `A.xlsx`, `b.xlsx`, then `Z`'s `c.xlsx` at the extended paths |
| Walker.Partition | excel_summarizer.py:182-187 | the partition loop builds `files` and `dirs` as `FilesOf` and `DirsOf` of the listing |
| Walker.HandleFile | excel_summarizer.py:189-197 | one pass of the file loop logs the full path and, for an input workbook, scans it and prints its summary, exactly as `Step` on the file's event |
| Walker.HandleFileAt | excel_summarizer.py:189-197 | handling the j-th file after the first j is handling the first j + 1 events; a failure is the failure of the whole level |
| Walker.HandleFiles | excel_summarizer.py:189-197 | the file loop has the effect of `Process` on the level's file events, and stops at the first failure |
| Walker.SeekDirectories | excel_summarizer.py:178-204 | `seek_directories` has the effect of `Process` on `Visits` of the directory: files in lower-cased order, then each subdirectory depth-first at the extended paths; `level` plays no part |
| Walker.SeekSubdirectories | excel_summarizer.py:199-202 | the subdirectory loop has the effect of `Process` on the subdirectories' walks, one after another, and stops at the first failure |
| Walker.SeekSubdirectoryAt | excel_summarizer.py:200-202 | walking the k-th subdirectory after the first k is handling the events of the first k + 1 subdirectory walks; a failure is the failure of the whole loop |

## Left out

- The spreadsheet library itself is not modelled. That covers loading, saving and closing workbooks (`ReadExcel.close`, `WriteExcel.close`), looking up a sheet by name, the `shutil.copy` of the template, and how the library computes `max_row` and `max_column`. A file's sheet "Data Table" is given as an `Option<Sheet>`, and `None` means the file cannot be opened.
- Font, Alignment, Border and number-format objects are opaque tokens; their attributes (Meiryo UI 10pt, thin black border, ...) are in comments only.
- `%s` of floats, dates and times is not modelled: such a value carries its own rendering (`Value.Other`).
- Directory listing, `os.path.isfile` and the filesystem are replaced by an abstract tree of entries. The listing order is whatever the tree holds.
- Paths.PathJoin: the same restriction as `Paths.PathJoinShape` below.
- Paths.PathJoinShape: only the case the walk uses is modelled, a plain entry name joined to a directory. Drive letters and absolute second parts, which `ntpath.join` also handles, are left out.
- Ordering.Lower: `str.lower` is modelled for ASCII capitals only. Other Unicode case mappings are left out.
- Directories.SortByNameSorted: the order among names that lower-case equally is not stated. It depends on the listing order `os.listdir` returns.
- The contents of the output sheet, the log and the console after a failure are stated for a failing scan (`Scanner.ScanSheet`, `Sheets.Halted`) but not for a failing walk: `Walker.Process` keeps only the error. The model therefore says nothing about the trace lines and console lines that were already written before the failure, although the script does not take them back. The output workbook is never saved after a failure.
- `main` is not part of this model beyond a trace file that starts empty: getopt parsing, the help text and exit codes, the start and end banners with `get_current_time`, and closing the writer and the trace file are left out.
- The console is modelled as a sequence of lines (`print`). The trace file is modelled as a sequence of lines, one per `write`, each of which ends in a newline.
- `scan_excel_file` and `seek_directories` are each split into several methods, one per loop or loop pass. Together they perform the same statements in the same order as the source.
- `level` is passed along and incremented as in the source, but never read there, so nothing is stated about it.
- Trace.IndexOf: states only that the index is in range and holds the character, not that it is the first such index. The round trip through the trace-line parser is proved instead.
