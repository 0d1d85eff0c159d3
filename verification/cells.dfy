/** The per-cell reconciliation of `_extract_sheet_info`: the scan of every
    address in the sheet's used rectangle, the hyperlink table filled for every
    linked cell, the sparse-inclusion policy for empty cells, the split of
    formula text from the cached value, and the convenience `color` and
    `backgroundColor` fields. */
module Cells {
  import opened Wrappers
  import opened Colors
  import opened Styles
  import Theme

  /** A cell's scalar content. */
  datatype Value = Null | Str(s: string) | Int(n: int) | Float(x: real) | Bool(b: bool) | Temporal(iso: string)
                 | Other(text: string)  // any other object stored as the value, such as an array formula

  datatype Hyperlink = Hyperlink(target: Option<string>, tooltip: Option<string>)

  datatype HyperlinkRecord = HyperlinkRecord(target: Option<string>, display: Option<string>, tooltip: Option<string>)

  /** A cell of the full (styled) view: its value and its optional facets;
      `rich` is the attribute view of its raw value used for rich text. */
  datatype Cell = Cell(value: Value, hyperlink: Option<Hyperlink>, numberFormat: Option<string>,
                       alignment: Option<Alignment>, font: Option<Font>, fill: Option<Fill>,
                       border: Option<Border>, rich: RichSource)

  /** The cell the scan sees at an address nothing was written to. */
  const BlankCell := Cell(Null, None, None, None, None, None, None, map[])

  /** The emitted record. `formula` and the optional facets are None when the
      key is omitted; `color` and `backgroundColor` are always emitted, None
      standing for null. */
  datatype CellRecord = CellRecord(formula: Option<string>, value: Value, numFmt: Option<string>,
                                   alignment: Option<map<string, string>>, font: Option<FontRecord>,
                                   fill: Option<FillRecord>, border: Option<BorderRecord>,
                                   richText: Option<seq<RunRecord>>,
                                   color: Option<string>, backgroundColor: Option<string>)

  /** `v is None or v == ""`. */
  predicate IsEmptyValue(v: Value)
  {
    v.Null? || v == Str("")
  }

  /** Text that starts with '='. */
  predicate IsFormula(v: Value)
  {
    v.Str? && |v.s| > 0 && v.s[0] == '='
  }

  /** The effective background of a fill: the resolved foreground colour when
      it is truthy, else the resolved background colour; nothing without a
      fill type. (The source computes this twice, for the inclusion test and
      for `backgroundColor`.) */
  function FillBackground(fill: Option<Fill>, toHex: Resolver): (r: Option<string>)
    ensures Declared(r) <==> fill.Some? && Declared(fill.value.fillType)
                              && (Declared(toHex(Unwrap(fill.value.fgColor))) || Declared(toHex(Unwrap(fill.value.bgColor))))
  {
    if fill.Some? && Declared(fill.value.fillType) then
      OrElse(toHex(Unwrap(fill.value.fgColor)), toHex(Unwrap(fill.value.bgColor)))
    else None
  }

  /** The convenience text colour: the font's colour, resolved. */
  function FontColor(font: Option<Font>, toHex: Resolver): (r: Option<string>)
    ensures font.None? ==> r.None?
    ensures font.Some? && font.value.color == Absent ==> r.None?
    ensures font.Some? && font.value.color != Absent ==> r == FontToRecord(font.value, toHex).color
    ensures font.Some? && toHex(Absent).None? ==> r == FontToRecord(font.value, toHex).color
  {
    if font.Some? && font.value.color != Absent then toHex(font.value.color) else None
  }

  /** The sparse-inclusion policy: a cell is kept unless its value is empty
      and its fill resolves to no background colour. */
  predicate Kept(c: Cell, toHex: Resolver)
    ensures Kept(c, toHex) <==> !IsEmptyValue(c.value)
                                || (c.fill.Some? && FillToRecord(c.fill, toHex).Some?
                                    && (Declared(FillToRecord(c.fill, toHex).value.fgColor)
                                        || Declared(FillToRecord(c.fill, toHex).value.bgColor)))
  {
    !IsEmptyValue(c.value) || Declared(FillBackground(c.fill, toHex))
  }

  /** The entry of the hyperlink table for a linked cell. */
  function HyperlinkToRecord(link: Hyperlink, v: Value): (r: HyperlinkRecord)
    ensures r.target == link.target && r.tooltip == link.tooltip
    ensures r.display.Some? <==> v.Str?
    ensures v.Str? ==> r.display == Some(v.s)
  {
    HyperlinkRecord(link.target, if v.Str? then Some(v.s) else None, link.tooltip)
  }

  /** The record of a kept cell; `cached` is the value-only view's value at
      the same address. */
  function CellToRecord(c: Cell, cached: Value, toHex: Resolver): (r: CellRecord)
    ensures r.formula.Some? <==> IsFormula(c.value)
    ensures r.formula.Some? ==> r.formula.value == c.value.s && r.value == cached
    ensures r.formula.None? ==> r.value == c.value
    ensures r.numFmt.Some? <==> Declared(c.numberFormat)
    ensures r.numFmt.Some? ==> r.numFmt == c.numberFormat
    ensures r.alignment.Some? <==> c.alignment.Some? && (c.alignment.value.horizontal.Some? || c.alignment.value.vertical.Some?)
    ensures r.alignment.Some? ==> r.alignment.value == AlignmentToRecord(c.alignment.value)
    ensures r.font.Some? <==> c.font.Some?
    ensures r.font.Some? ==> r.font.value == FontToRecord(c.font.value, toHex)
    ensures r.fill == FillToRecord(c.fill, toHex)
    ensures r.border.Some? <==> c.border.Some?
    ensures r.border.Some? ==> r.border.value == BorderToRecord(c.border.value, toHex)
    ensures r.richText == RichRuns(c.rich, toHex)
    ensures r.richText.Some? ==> r.richText.value != []
    ensures r.color == FontColor(c.font, toHex)
    ensures r.backgroundColor == FillBackground(c.fill, toHex)
  {
    var al := if c.alignment.Some? then AlignmentToRecord(c.alignment.value) else map[];
    CellRecord(
      formula := if IsFormula(c.value) then Some(c.value.s) else None,
      value := if IsFormula(c.value) then cached else c.value,
      numFmt := if Declared(c.numberFormat) then c.numberFormat else None,
      alignment := if al != map[] then Some(al) else None,
      font := if c.font.Some? then Some(FontToRecord(c.font.value, toHex)) else None,
      fill := FillToRecord(c.fill, toHex),
      border := if c.border.Some? then Some(BorderToRecord(c.border.value, toHex)) else None,
      richText := RichRuns(c.rich, toHex),
      color := FontColor(c.font, toHex),
      backgroundColor := FillBackground(c.fill, toHex))
  }

  /** One iteration of the cell loop after the hyperlink step: decide whether
      to skip, then build the record key by key. */
  method ReconcileCell(c: Cell, cached: Value, toHex: Resolver) returns (rec: Option<CellRecord>)
    ensures rec.Some? <==> Kept(c, toHex)
    ensures rec.Some? ==> rec.value == CellToRecord(c, cached, toHex)
  {
    var v := c.value;
    var isEmpty := IsEmptyValue(v);
    var hasBackground := false;
    if isEmpty {
      hasBackground := Declared(FillBackground(c.fill, toHex));
    }
    if isEmpty && !hasBackground {
      return None;
    }
    var obj := BuildRecord(c, cached, toHex);
    rec := Some(obj);
  }

  /** Building a kept cell's record key by key: each key is settled in
      turn and a key the source omits stays None. */
  method BuildRecord(c: Cell, cached: Value, toHex: Resolver) returns (obj: CellRecord)
    ensures obj == CellToRecord(c, cached, toHex)
  {
    var v := c.value;
    var formula: Option<string> := None;
    var value := v;
    if IsFormula(v) {
      formula, value := Some(v.s), cached;
    }
    var numFmt: Option<string> := None;
    if Declared(c.numberFormat) {
      numFmt := c.numberFormat;
    }
    var alignment: Option<map<string, string>> := None;
    if c.alignment.Some? {
      var al := AlignmentToRecord(c.alignment.value);
      if al != map[] {
        alignment := Some(al);
      }
    }
    var font: Option<FontRecord> := None;
    if c.font.Some? {
      font := Some(FontToRecord(c.font.value, toHex));
    }
    var fill: Option<FillRecord> := None;
    if c.fill.Some? && Declared(c.fill.value.fillType) {
      fill := FillToRecord(c.fill, toHex);
    }
    var border: Option<BorderRecord> := None;
    if c.border.Some? {
      border := Some(BorderToRecord(c.border.value, toHex));
    }
    var richText := RichTextRuns(c.rich, toHex);
    obj := CellRecord(formula, value, numFmt, alignment, font, fill, border, richText,
                      FontColor(c.font, toHex), FillBackground(c.fill, toHex));
  }

  /** An address: (row, column), both 1-based. */
  type Addr = (int, int)

  /** The used rectangle, inclusive on both ends. */
  datatype Bounds = Bounds(minRow: int, minCol: int, maxRow: int, maxCol: int)

  predicate InRect(b: Bounds, a: Addr)
  {
    b.minRow <= a.0 <= b.maxRow && b.minCol <= a.1 <= b.maxCol
  }

  function CellAt(sheet: map<Addr, Cell>, a: Addr): Cell
  {
    if a in sheet then sheet[a] else BlankCell
  }

  /** `ws_values[addr].value`, or None when there is no value-only view; an
      address the view never stored reads as an empty cell. */
  function CachedAt(values: Option<map<Addr, Value>>, a: Addr): (v: Value)
    ensures values.None? ==> v.Null?
    ensures values.Some? && a in values.value ==> v == values.value[a]
    ensures values.Some? && a !in values.value ==> v.Null?
  {
    if values.Some? && a in values.value then values.value[a] else Null
  }

  /** What the scan of `row` has produced once it has visited columns
      b.minCol .. col - 1: `f(a)` for each visited address `a` that `keep`
      accepts. */
  function RowScan<V>(b: Bounds, row: int, col: int, keep: Addr -> bool, f: Addr -> V): map<Addr, V>
    decreases col - b.minCol
  {
    if col <= b.minCol then map[]
    else
      var m := RowScan(b, row, col - 1, keep, f);
      if keep((row, col - 1)) then m[(row, col - 1) := f((row, col - 1))] else m
  }

  /** What the scan has produced once it has finished rows b.minRow .. row - 1. */
  function RowsScan<V>(b: Bounds, row: int, keep: Addr -> bool, f: Addr -> V): map<Addr, V>
    decreases row - b.minRow
  {
    if row <= b.minRow then map[]
    else RowsScan(b, row - 1, keep, f) + RowScan(b, row - 1, b.maxCol + 1, keep, f)
  }

  lemma {:induction false} RowScanContents<V>(b: Bounds, row: int, col: int, keep: Addr -> bool, f: Addr -> V, a: Addr)
    ensures a in RowScan(b, row, col, keep, f) <==> a.0 == row && b.minCol <= a.1 < col && keep(a)
    ensures a in RowScan(b, row, col, keep, f) ==> RowScan(b, row, col, keep, f)[a] == f(a)
    decreases col - b.minCol
  {
    if col > b.minCol {
      RowScanContents(b, row, col - 1, keep, f, a);
    }
  }

  /** The finished rows hold exactly the accepted addresses of those rows,
      each mapped to `f` of it. */
  lemma {:induction false} RowsScanContents<V>(b: Bounds, row: int, keep: Addr -> bool, f: Addr -> V, a: Addr)
    requires row <= b.maxRow + 1
    ensures a in RowsScan(b, row, keep, f) <==> InRect(b, a) && a.0 < row && keep(a)
    ensures a in RowsScan(b, row, keep, f) ==> RowsScan(b, row, keep, f)[a] == f(a)
    decreases row - b.minRow
  {
    if row > b.minRow {
      RowsScanContents(b, row - 1, keep, f, a);
      RowScanContents(b, row - 1, b.maxCol + 1, keep, f, a);
    }
  }

  function KeptAt(sheet: map<Addr, Cell>, toHex: Resolver): Addr -> bool
  {
    a => Kept(CellAt(sheet, a), toHex)
  }

  function RecordAt(sheet: map<Addr, Cell>, values: Option<map<Addr, Value>>, toHex: Resolver): Addr -> CellRecord
  {
    a => CellToRecord(CellAt(sheet, a), CachedAt(values, a), toHex)
  }

  function LinkedAt(sheet: map<Addr, Cell>): Addr -> bool
  {
    a => CellAt(sheet, a).hyperlink.Some?
  }

  function LinkAt(sheet: map<Addr, Cell>): Addr -> HyperlinkRecord
  {
    a => HyperlinkToRecord(CellAt(sheet, a).hyperlink.GetOr(Hyperlink(None, None)), CellAt(sheet, a).value)
  }

  /** The cell table the scan of the whole rectangle produces. */
  function ScannedCells(sheet: map<Addr, Cell>, values: Option<map<Addr, Value>>, toHex: Resolver, b: Bounds): map<Addr, CellRecord>
  {
    RowsScan(b, b.maxRow + 1, KeptAt(sheet, toHex), RecordAt(sheet, values, toHex))
  }

  /** The hyperlink table the scan of the whole rectangle produces. */
  function ScannedLinks(sheet: map<Addr, Cell>, b: Bounds): map<Addr, HyperlinkRecord>
  {
    RowsScan(b, b.maxRow + 1, LinkedAt(sheet), LinkAt(sheet))
  }

  /** The output tables of one sheet that the cell loop fills in place. */
  class SheetInfo {
    var cells: map<Addr, CellRecord>
    var hyperlinks: map<Addr, HyperlinkRecord>

    constructor ()
      ensures cells == map[] && hyperlinks == map[]
    {
      cells := map[];
      hyperlinks := map[];
    }

    /** The nested row/column loop over the used rectangle: record every
        hyperlink, then keep or skip the cell. */
    method ScanUsedRange(sheet: map<Addr, Cell>, values: Option<map<Addr, Value>>, toHex: Resolver, b: Bounds)
      modifies this
      ensures cells == old(cells) + ScannedCells(sheet, values, toHex, b)
      ensures hyperlinks == old(hyperlinks) + ScannedLinks(sheet, b)
    {
      ghost var cells0, links0 := cells, hyperlinks;
      ghost var keep, record := KeptAt(sheet, toHex), RecordAt(sheet, values, toHex);
      ghost var linked, link := LinkedAt(sheet), LinkAt(sheet);
      var row := b.minRow;
      while row <= b.maxRow
        invariant row == b.minRow || b.minRow <= row <= b.maxRow + 1
        invariant cells == cells0 + RowsScan(b, row, keep, record)
        invariant hyperlinks == links0 + RowsScan(b, row, linked, link)
        decreases b.maxRow - row
      {
        ScanRow(sheet, values, toHex, b, row, cells0, links0);
        row := row + 1;
      }
      RowsScanFinished(b, row, keep, record);
      RowsScanFinished(b, row, linked, link);
    }

    /** One row of the scan: the finished rows grow by this row. */
    method ScanRow(sheet: map<Addr, Cell>, values: Option<map<Addr, Value>>, toHex: Resolver, b: Bounds, row: int,
                   ghost cells0: map<Addr, CellRecord>, ghost links0: map<Addr, HyperlinkRecord>)
      requires b.minRow <= row
      requires cells == cells0 + RowsScan(b, row, KeptAt(sheet, toHex), RecordAt(sheet, values, toHex))
      requires hyperlinks == links0 + RowsScan(b, row, LinkedAt(sheet), LinkAt(sheet))
      modifies this
      ensures cells == cells0 + RowsScan(b, row + 1, KeptAt(sheet, toHex), RecordAt(sheet, values, toHex))
      ensures hyperlinks == links0 + RowsScan(b, row + 1, LinkedAt(sheet), LinkAt(sheet))
    {
      ScanColumns(sheet, values, toHex, b, row, cells, hyperlinks);
      UnionAssoc(cells0, RowsScan(b, row, KeptAt(sheet, toHex), RecordAt(sheet, values, toHex)),
                 RowScan(b, row, b.maxCol + 1, KeptAt(sheet, toHex), RecordAt(sheet, values, toHex)));
      UnionAssoc(links0, RowsScan(b, row, LinkedAt(sheet), LinkAt(sheet)),
                 RowScan(b, row, b.maxCol + 1, LinkedAt(sheet), LinkAt(sheet)));
    }

    /** The inner loop: every column of one row, left to right. */
    method ScanColumns(sheet: map<Addr, Cell>, values: Option<map<Addr, Value>>, toHex: Resolver, b: Bounds, row: int,
                       ghost cells0: map<Addr, CellRecord>, ghost links0: map<Addr, HyperlinkRecord>)
      requires cells == cells0 && hyperlinks == links0
      modifies this
      ensures cells == cells0 + RowScan(b, row, b.maxCol + 1, KeptAt(sheet, toHex), RecordAt(sheet, values, toHex))
      ensures hyperlinks == links0 + RowScan(b, row, b.maxCol + 1, LinkedAt(sheet), LinkAt(sheet))
    {
      var col := b.minCol;
      while col <= b.maxCol
        invariant col == b.minCol || b.minCol <= col <= b.maxCol + 1
        invariant cells == cells0 + RowScan(b, row, col, KeptAt(sheet, toHex), RecordAt(sheet, values, toHex))
        invariant hyperlinks == links0 + RowScan(b, row, col, LinkedAt(sheet), LinkAt(sheet))
        decreases b.maxCol - col
      {
        VisitCell(sheet, values, toHex, b, row, col, cells0, links0);
        col := col + 1;
      }
    }

    /** One iteration of the cell loop: the hyperlink first, then the cell
        unless it is skipped. */
    method VisitCell(sheet: map<Addr, Cell>, values: Option<map<Addr, Value>>, toHex: Resolver, b: Bounds, row: int, col: int,
                     ghost cells0: map<Addr, CellRecord>, ghost links0: map<Addr, HyperlinkRecord>)
      requires b.minCol <= col
      requires cells == cells0 + RowScan(b, row, col, KeptAt(sheet, toHex), RecordAt(sheet, values, toHex))
      requires hyperlinks == links0 + RowScan(b, row, col, LinkedAt(sheet), LinkAt(sheet))
      modifies this
      ensures cells == cells0 + RowScan(b, row, col + 1, KeptAt(sheet, toHex), RecordAt(sheet, values, toHex))
      ensures hyperlinks == links0 + RowScan(b, row, col + 1, LinkedAt(sheet), LinkAt(sheet))
    {
      ghost var keep, record := KeptAt(sheet, toHex), RecordAt(sheet, values, toHex);
      ghost var linked, link := LinkedAt(sheet), LinkAt(sheet);
      var addr := (row, col);
      var c := CellAt(sheet, addr);
      if c.hyperlink.Some? {
        UnionUpdate(links0, RowScan(b, row, col, linked, link), addr, link(addr));
        hyperlinks := hyperlinks[addr := HyperlinkToRecord(c.hyperlink.value, c.value)];
      }
      assert keep(addr) == Kept(c, toHex);
      var rec := ReconcileCell(c, CachedAt(values, addr), toHex);
      if rec.Some? {
        assert rec.value == record(addr);
        UnionUpdate(cells0, RowScan(b, row, col, keep, record), addr, record(addr));
        cells := cells[addr := rec.value];
      }
    }
  }

  /** Once the row loop stops, the finished rows are the whole rectangle. */
  lemma RowsScanFinished<V>(b: Bounds, row: int, keep: Addr -> bool, f: Addr -> V)
    requires row == b.minRow || b.minRow <= row <= b.maxRow + 1
    requires row > b.maxRow
    ensures RowsScan(b, row, keep, f) == RowsScan(b, b.maxRow + 1, keep, f)
  {
  }

  lemma UnionUpdate<K, V>(m: map<K, V>, n: map<K, V>, k: K, v: V)
    ensures (m + n)[k := v] == m + n[k := v]
  {
  }

  lemma UnionAssoc<K, V>(m: map<K, V>, n: map<K, V>, p: map<K, V>)
    ensures (m + n) + p == m + (n + p)
  {
  }

  /** The cell table holds exactly the kept addresses of the rectangle, each
      with the record of its cell. */
  lemma ScannedCellsContents(sheet: map<Addr, Cell>, values: Option<map<Addr, Value>>, toHex: Resolver, b: Bounds, a: Addr)
    ensures a in ScannedCells(sheet, values, toHex, b) <==> InRect(b, a) && Kept(CellAt(sheet, a), toHex)
    ensures a in ScannedCells(sheet, values, toHex, b) ==>
              ScannedCells(sheet, values, toHex, b)[a] == CellToRecord(CellAt(sheet, a), CachedAt(values, a), toHex)
  {
    RowsScanContents(b, b.maxRow + 1, KeptAt(sheet, toHex), RecordAt(sheet, values, toHex), a);
  }

  /** The hyperlink table holds exactly the linked addresses of the
      rectangle, kept or not. */
  lemma ScannedLinksContents(sheet: map<Addr, Cell>, b: Bounds, a: Addr)
    ensures a in ScannedLinks(sheet, b) <==> InRect(b, a) && CellAt(sheet, a).hyperlink.Some?
    ensures a in ScannedLinks(sheet, b) ==>
              ScannedLinks(sheet, b)[a] == HyperlinkToRecord(CellAt(sheet, a).hyperlink.value, CellAt(sheet, a).value)
  {
    RowsScanContents(b, b.maxRow + 1, LinkedAt(sheet), LinkAt(sheet), a);
  }

  /** The hyperlink is recorded before the skip: an empty, unfilled cell with
      a link is missing from the cell table but present in the link table. */
  lemma LinkRecordedForSkippedCell(sheet: map<Addr, Cell>, values: Option<map<Addr, Value>>, toHex: Resolver, b: Bounds, a: Addr)
    requires InRect(b, a) && CellAt(sheet, a).hyperlink.Some?
    requires IsEmptyValue(CellAt(sheet, a).value) && !Declared(FillBackground(CellAt(sheet, a).fill, toHex))
    ensures a !in ScannedCells(sheet, values, toHex, b)
    ensures a in ScannedLinks(sheet, b)
  {
    ScannedCellsContents(sheet, values, toHex, b, a);
    ScannedLinksContents(sheet, b, a);
  }

  /** The inclusion policy: only an empty value can drop a cell, and then
      only a fill with a resolvable colour keeps it; the font colour never
      does, and falsy values such as 0 and False are kept. */
  lemma InclusionPolicy(c: Cell, toHex: Resolver, f: Option<Font>)
    ensures IsEmptyValue(c.value) ==> (Kept(c, toHex) <==> Declared(FillBackground(c.fill, toHex)))
    ensures !IsEmptyValue(c.value) ==> Kept(c, toHex)
    ensures Kept(c.(font := f), toHex) == Kept(c, toHex)
    ensures Kept(c.(value := Int(0)), toHex) && Kept(c.(value := Bool(false)), toHex) && Kept(c.(value := Float(0.0)), toHex)
  {
  }

  /** A formula cell records its text as `formula` and the cached result as
      `value`; any other cell records its value and no formula. */
  lemma FormulaSplit(c: Cell, cached: Value, toHex: Resolver)
    ensures IsFormula(c.value) ==> CellToRecord(c, cached, toHex).formula == Some(c.value.s)
                                   && CellToRecord(c, cached, toHex).value == cached
    ensures !IsFormula(c.value) ==> CellToRecord(c, cached, toHex).formula.None?
                                    && CellToRecord(c, cached, toHex).value == c.value
  {
  }

  /** `=SUM(A1:A2)` with a cached result of 7. */
  lemma SumFormulaExample(c: Cell, toHex: Resolver)
    requires c.value == Str("=SUM(A1:A2)")
    ensures CellToRecord(c, Int(7), toHex).formula == Some("=SUM(A1:A2)")
    ensures CellToRecord(c, Int(7), toHex).value == Int(7)
  {
    FormulaSplit(c, Int(7), toHex);
  }

  /** The convenience fields agree with the facets: `color` is the font
      record's colour, and `backgroundColor` the fill record's foreground
      colour when that is truthy, else its background colour. */
  lemma ConvenienceColorsMatchFacets(c: Cell, cached: Value, toHex: Resolver)
    requires toHex(Absent).None?
    ensures var r := CellToRecord(c, cached, toHex);
            (r.font.Some? ==> r.color == r.font.value.color) && (r.font.None? ==> r.color.None?)
    ensures var r := CellToRecord(c, cached, toHex);
            (r.fill.Some? ==> r.backgroundColor == OrElse(r.fill.value.fgColor, r.fill.value.bgColor))
            && (r.fill.None? ==> r.backgroundColor.None?)
  {
  }

  /** With a well-formed theme table, both convenience colours are '#' and
      six characters. */
  lemma ConvenienceColorsAreHashColors(c: Cell, cached: Value, palette: seq<string>, theme: map<int, string>)
    requires Theme.ThemeMapShaped(theme)
    ensures var r := CellToRecord(c, cached, ResolverFor(palette, theme));
            (r.color.Some? ==> Theme.IsHashColor(r.color.value))
            && (r.backgroundColor.Some? ==> Theme.IsHashColor(r.backgroundColor.value))
  {
  }
}
