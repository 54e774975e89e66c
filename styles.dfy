/** Presentation attributes of output cells and the four-entry column format
    table. The spreadsheet library's Font, Alignment, Border and number-format
    objects are opaque tokens here: each token stands for one of the objects
    the script builds once at start-up, and `Template…` stands for the
    attribute a cell had before the script wrote it: the template's, or the
    library's default for a cell it creates on first access. */
module Styles {
  import opened Values

  /** `BORDER_ALL` (thin black line on all four sides), or the template's own. */
  datatype Border = BorderAll | TemplateBorder

  /** `FONT_MEIRYO` (Meiryo UI 10pt black), `FONT_MEIRYO_GRAY`,
      `FONT_MEIRYO_BOLD`, or the template's own. */
  datatype Font = Meiryo | MeiryoGray | MeiryoBold | TemplateFont

  /** `ALIGN_LEFT`, `ALIGN_CENTER`, `ALIGN_RIGHT` (all top-aligned and
      wrapping), or the template's own. */
  datatype Alignment = AlignLeft | AlignCenter | AlignRight | TemplateAlignment

  /** The number-format strings `'0_ '`, `'0.00_ '`, `'#,##0_ '`,
      `'#,##0.00_ '`, or the template's own. */
  datatype NumberFormat = NoCubeInt | NoCubeCent | CubeInt | CubeCent | TemplateFormat

  /** One entry of the column format table: the font is always applied, the
      alignment and the number format only when present. */
  datatype CellFormat = CellFormat(font: Font, alignment: Option<Alignment>, numberFormat: Option<NumberFormat>)

  /** An output cell: its value and the presentation attributes the script sets. */
  datatype Cell = Cell(value: Value, border: Border, font: Font, alignment: Alignment, numberFormat: NumberFormat)

  /** `CELL_FORMATS`, indexed by a cell's position within its row (0-based). */
  const CELL_FORMATS: seq<CellFormat> := [
    CellFormat(Meiryo, None, Some(NoCubeInt)),
    CellFormat(Meiryo, Some(AlignLeft), None),
    CellFormat(Meiryo, None, Some(CubeCent)),
    CellFormat(Meiryo, None, Some(CubeInt))
  ]

  /** A cell the library creates on first access: no value, default presentation. */
  const DEFAULT_CELL: Cell := Cell(Empty, TemplateBorder, TemplateFont, TemplateAlignment, TemplateFormat)

  /** The cell after the script has written `v` into `prior` and applied `f`:
      value, border and font are replaced; alignment and number format only
      when the format entry has one. */
  function Styled(prior: Cell, f: CellFormat, v: Value): Cell {
    Cell(v, BorderAll, f.font,
         if f.alignment.Some? then f.alignment.value else prior.alignment,
         if f.numberFormat.Some? then f.numberFormat.value else prior.numberFormat)
  }

  /** The table's shape: every entry uses the same font; only position 1 sets
      an alignment (left); every other position sets a number format. */
  lemma CellFormatsShape()
    ensures |CELL_FORMATS| == 4
    ensures forall i :: 0 <= i < 4 ==> CELL_FORMATS[i].font == Meiryo
    ensures forall i :: 0 <= i < 4 ==> (CELL_FORMATS[i].alignment.Some? <==> i == 1)
    ensures forall i :: 0 <= i < 4 ==> (CELL_FORMATS[i].numberFormat.Some? <==> i != 1)
    ensures CELL_FORMATS[1].alignment == Some(AlignLeft)
  {
  }

  /** Applying the entry at position `i` gives the cell the written value,
      the border and the font, and keeps the prior alignment and number format
      exactly where the entry leaves them unset. */
  lemma StyledAt(prior: Cell, i: nat, v: Value)
    requires i < |CELL_FORMATS|
    ensures Styled(prior, CELL_FORMATS[i], v).value == v
    ensures Styled(prior, CELL_FORMATS[i], v).border == BorderAll
    ensures Styled(prior, CELL_FORMATS[i], v).font == Meiryo
    ensures Styled(prior, CELL_FORMATS[i], v).alignment == if i == 1 then AlignLeft else prior.alignment
    ensures Styled(prior, CELL_FORMATS[i], v).numberFormat ==
      if i == 0 then NoCubeInt else if i == 1 then prior.numberFormat else if i == 2 then CubeCent else CubeInt
  {
  }
}
