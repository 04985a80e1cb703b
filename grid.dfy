/** The worksheet as excel_writer.py sees it through openpyxl, as a value:
    cell values by position, the highest row and column in use, the merged
    (non-anchor) cells and the number formats. The steps of the
    synchronisation are defined here as functions over such values, in the
    order in which the code visits the cells; worksheet.dfy runs the same
    steps in place and is proved against these functions. */
module Grid {
  import opened Text
  import opened Columns
  import opened Coercion

  /** A 1-based (row, column) position. */
  datatype Pos = Pos(row: int, col: int)

  datatype Grid = Grid(cells: map<Pos, Value>, maxRow: nat, maxCol: nat, merged: set<Pos>, formats: map<Pos, string>)

  /** The value of a cell; a cell never written holds nothing. */
  function Get(g: Grid, p: Pos): Value {
    if p in g.cells then g.cells[p] else Empty
  }

  /** What openpyxl guarantees of a sheet: at least one row and column, and
      merged cells lie within the used rows and hold no value. */
  predicate WellFormed(g: Grid) {
    g.maxRow >= 1 && g.maxCol >= 1 &&
    forall p :: p in g.merged ==> 1 <= p.row <= g.maxRow && p !in g.cells
  }

  /** cell_has_formula: the value is text starting with "=". */
  predicate HasFormula(v: Value) {
    v.Str? && |v.s| > 0 && v.s[0] == '='
  }

  function Max(a: int, b: int): int {
    if a < b then b else a
  }

  // ---------------------------------------------------------------------
  // The managed columns.

  /** A managed column: its CSV name and its 1-based sheet column. */
  datatype Column = Column(name: string, index: int)

  /** A CSV record: field name to text, None for a field the line lacks. */
  type Record = map<string, Option<string>>

  /** record.get(name, ""). */
  function Field(rec: Record, name: string): Option<string> {
    if name in rec then rec[name] else Some("")
  }

  /** Position in cols of the first column with sheet index c, or |cols|. */
  function ColumnOf(cols: seq<Column>, c: int): (k: nat)
    ensures k <= |cols|
    ensures k < |cols| ==> cols[k].index == c
    ensures forall i :: 0 <= i < k ==> cols[i].index != c
  {
    if cols == [] then 0
    else if cols[0].index == c then 0
    else 1 + ColumnOf(cols[1..], c)
  }

  predicate Managed(cols: seq<Column>, c: int) {
    ColumnOf(cols, c) < |cols|
  }

  predicate DistinctIndices(cols: seq<Column>) {
    forall i, j :: 0 <= i < j < |cols| ==> cols[i].index != cols[j].index
  }

  lemma ColumnOfAt(cols: seq<Column>, k: nat)
    requires DistinctIndices(cols) && k < |cols|
    ensures ColumnOf(cols, cols[k].index) == k
  {
  }

  // ---------------------------------------------------------------------
  // analyze_sheet_structure: which cells the writes must leave alone.

  /** The analysis stops at this row to bound its cost. */
  const ScanLimit: nat := 10000

  /** min(max_row, 10000): the last row the analysis looks at. */
  function ScanEnd(g: Grid): int {
    if g.maxRow < ScanLimit then g.maxRow else ScanLimit
  }

  /** A cell of a managed column in the rows the analysis visits. */
  predicate Scanned(g: Grid, cols: seq<Column>, p: Pos) {
    2 <= p.row <= ScanEnd(g) && Managed(cols, p.col)
  }

  /** The cells found holding a formula. */
  function FormulaCells(g: Grid, cols: seq<Column>): set<Pos> {
    set r, k | 2 <= r <= ScanEnd(g) && 0 <= k < |cols| && HasFormula(Get(g, Pos(r, cols[k].index)))
      :: Pos(r, cols[k].index)
  }

  /** The cells found merged. */
  function MergedCells(g: Grid, cols: seq<Column>): set<Pos> {
    set r, k | 2 <= r <= ScanEnd(g) && 0 <= k < |cols| && Pos(r, cols[k].index) in g.merged
      :: Pos(r, cols[k].index)
  }

  /** The formula set is exactly the scanned cells holding a formula, the
      merged set exactly the scanned merged cells. */
  lemma FoundCells(g: Grid, cols: seq<Column>, p: Pos)
    ensures p in FormulaCells(g, cols) <==> Scanned(g, cols, p) && HasFormula(Get(g, p))
    ensures p in MergedCells(g, cols) <==> Scanned(g, cols, p) && p in g.merged
  {
    if Scanned(g, cols, p) {
      var k := ColumnOf(cols, p.col);
      assert Pos(p.row, cols[k].index) == p;
    }
  }

  /** A cell the analysis flags is never both: merged cells hold no value. */
  lemma FormulaNotMerged(g: Grid, cols: seq<Column>)
    requires WellFormed(g)
    ensures FormulaCells(g, cols) !! MergedCells(g, cols)
  {
    forall p | p in FormulaCells(g, cols)
      ensures p !in MergedCells(g, cols)
    {
      FoundCells(g, cols, p);
    }
  }

  /** A merged cell of a managed column that the analysis did not report
      lies below the scan limit. */
  lemma UnscannedMerged(g: Grid, cols: seq<Column>, p: Pos)
    requires WellFormed(g)
    requires p in g.merged && p.row >= 2 && ColumnOf(cols, p.col) < |cols|
    requires p !in MergedCells(g, cols)
    ensures p.row > ScanLimit
  {
    FoundCells(g, cols, p);
  }

  // ---------------------------------------------------------------------
  // ensure_row_exists and write_data_optimized.

  /** ensure_row_exists(ws, r) returns only when row r is already in use.
      openpyxl's max_row is the highest row holding a stored cell, and
      appending an empty row stores none, so the loop leaves the sheet as
      it is when r <= max_row and never exits otherwise. */
  predicate RowExists(g: Grid, r: int) {
    r <= g.maxRow
  }

  /** How many of n records write_data_optimized writes before
      ensure_row_exists stops returning: record i goes to row i + 2, and
      the first record whose row is not in use is never written. */
  function RowsReached(g: Grid, n: nat): (m: nat)
    ensures m <= n
    ensures forall r :: 2 <= r <= m + 1 ==> RowExists(g, r)
    ensures m < n ==> !RowExists(g, m + 2)
    ensures m == n <==> RowExists(g, n + 1) || n == 0
  {
    if n + 1 <= g.maxRow || n == 0 then n
    else if g.maxRow >= 1 then g.maxRow - 1
    else 0
  }

  function SetCell(g: Grid, p: Pos, v: Value): Grid {
    g.(cells := g.cells[p := v])
  }

  /** The value written into a managed column for a record. */
  function WriteValue(col: Column, rec: Record): Value {
    Coerce(col.name, Field(rec, col.name))
  }

  /** Row r after writing the first j managed columns of rec, skipping the
      cells in skip. */
  function WriteRow(g: Grid, r: int, cols: seq<Column>, rec: Record, skip: set<Pos>, j: nat): (h: Grid)
    requires j <= |cols|
    ensures h.maxRow == g.maxRow && h.merged == g.merged && h.formats == g.formats && h.maxCol == g.maxCol
  {
    if j == 0 then g
    else
      var h := WriteRow(g, r, cols, rec, skip, j - 1);
      var p := Pos(r, cols[j - 1].index);
      if p in skip then h else SetCell(h, p, WriteValue(cols[j - 1], rec))
  }

  /** The sheet after writing the first i records to rows 2 .. i + 1. */
  function WriteRows(g: Grid, cols: seq<Column>, rows: seq<Record>, skip: set<Pos>, i: nat): (h: Grid)
    requires i <= |rows|
    ensures h.maxRow == g.maxRow && h.merged == g.merged && h.formats == g.formats && h.maxCol == g.maxCol
  {
    if i == 0 then g
    else WriteRow(WriteRows(g, cols, rows, skip, i - 1), i + 1, cols, rows[i - 1], skip, |cols|)
  }

  /** How write_data_optimized ends: every record written, an assignment
      to a merged cell raised, or ensure_row_exists never returned. */
  datatype WriteEnd = Done | HitMerged | Stuck

  /** A cell a write would target: a managed column of a written row, not
      skipped. */
  predicate WriteTarget(cols: seq<Column>, n: int, skip: set<Pos>, p: Pos) {
    2 <= p.row <= n + 1 && Managed(cols, p.col) && p !in skip
  }

  /** Assigning to a merged cell raises in openpyxl: the write of the rows
      fails exactly when some target is merged. */
  predicate WriteHitsMerged(g: Grid, cols: seq<Column>, n: int, skip: set<Pos>) {
    exists r, k :: 2 <= r <= n + 1 && 0 <= k < |cols| && Pos(r, cols[k].index) !in skip
      && Pos(r, cols[k].index) in g.merged
  }

  /** A merged target among the first n records is one among the first m
      for any m >= n. */
  lemma WriteHitsMergedWithin(g: Grid, cols: seq<Column>, n: int, m: int, skip: set<Pos>)
    requires n <= m && WriteHitsMerged(g, cols, n, skip)
    ensures WriteHitsMerged(g, cols, m, skip)
  {
    var r, k :| 2 <= r <= n + 1 && 0 <= k < |cols| && Pos(r, cols[k].index) !in skip
      && Pos(r, cols[k].index) in g.merged;
    assert 2 <= r <= m + 1;
  }

  lemma {:induction false} WriteRowCell(g: Grid, r: int, cols: seq<Column>, rec: Record, skip: set<Pos>, j: nat, p: Pos)
    requires j <= |cols| && DistinctIndices(cols)
    ensures Get(WriteRow(g, r, cols, rec, skip, j), p)
         == if p.row == r && ColumnOf(cols, p.col) < j && p !in skip
            then WriteValue(cols[ColumnOf(cols, p.col)], rec) else Get(g, p)
  {
    if j > 0 {
      WriteRowCell(g, r, cols, rec, skip, j - 1, p);
      var h := WriteRow(g, r, cols, rec, skip, j - 1);
      var q := Pos(r, cols[j - 1].index);
      assert WriteRow(g, r, cols, rec, skip, j) == if q in skip then h else SetCell(h, q, WriteValue(cols[j - 1], rec));
      if p == q {
        ColumnOfAt(cols, j - 1);
      } else {
        assert p.row == r && ColumnOf(cols, p.col) == j - 1 ==> p == q;
      }
    }
  }

  /** After the writes, each target holds the coerced field of its record
      and every other cell is as before. */
  lemma {:induction false} WriteRowsCell(g: Grid, cols: seq<Column>, rows: seq<Record>, skip: set<Pos>, i: nat, p: Pos)
    requires i <= |rows| && DistinctIndices(cols)
    ensures Get(WriteRows(g, cols, rows, skip, i), p)
         == if WriteTarget(cols, i, skip, p)
            then WriteValue(cols[ColumnOf(cols, p.col)], rows[p.row - 2]) else Get(g, p)
  {
    if i > 0 {
      var prev := WriteRows(g, cols, rows, skip, i - 1);
      WriteRowsCell(g, cols, rows, skip, i - 1, p);
      WriteRowCell(prev, i + 1, cols, rows[i - 1], skip, |cols|, p);
      assert WriteRows(g, cols, rows, skip, i) == WriteRow(prev, i + 1, cols, rows[i - 1], skip, |cols|);
      if p.row == i + 1 {
        assert rows[p.row - 2] == rows[i - 1];
      }
    }
  }

  // ---------------------------------------------------------------------
  // clean_old_data_optimized.

  /** Row r after blanking the first j managed columns, skipping skip. */
  function BlankRow(g: Grid, r: int, cols: seq<Column>, skip: set<Pos>, j: nat): (h: Grid)
    requires j <= |cols|
    ensures h.maxRow == g.maxRow && h.merged == g.merged && h.formats == g.formats && h.maxCol == g.maxCol
  {
    if j == 0 then g
    else
      var h := BlankRow(g, r, cols, skip, j - 1);
      var p := Pos(r, cols[j - 1].index);
      if p in skip then h else SetCell(h, p, Str(""))
  }

  /** The sheet after blanking rows lo .. hi - 1. */
  function BlankRows(g: Grid, lo: int, hi: int, cols: seq<Column>, skip: set<Pos>): (h: Grid)
    ensures h.maxRow == g.maxRow && h.merged == g.merged && h.formats == g.formats && h.maxCol == g.maxCol
    decreases hi - lo
  {
    if hi <= lo then g else BlankRow(BlankRows(g, lo, hi - 1, cols, skip), hi - 1, cols, skip, |cols|)
  }

  /** clean_old_data_optimized: rows after lastNewRow up to max_row are
      blanked, when there are any. */
  function Clean(g: Grid, lastNewRow: int, cols: seq<Column>, skip: set<Pos>): (h: Grid)
    ensures h.maxRow == g.maxRow && h.merged == g.merged && h.formats == g.formats && h.maxCol == g.maxCol
  {
    if g.maxRow <= lastNewRow then g else BlankRows(g, lastNewRow + 1, g.maxRow + 1, cols, skip)
  }

  /** A cell the cleaning would blank. */
  predicate BlankTarget(g: Grid, lastNewRow: int, cols: seq<Column>, skip: set<Pos>, p: Pos) {
    lastNewRow < p.row <= g.maxRow && Managed(cols, p.col) && p !in skip
  }

  predicate CleanHitsMerged(g: Grid, lastNewRow: int, cols: seq<Column>, skip: set<Pos>) {
    exists r, k :: lastNewRow < r <= g.maxRow && 0 <= k < |cols| && Pos(r, cols[k].index) !in skip
      && Pos(r, cols[k].index) in g.merged
  }

  lemma {:induction false} BlankRowCell(g: Grid, r: int, cols: seq<Column>, skip: set<Pos>, j: nat, p: Pos)
    requires j <= |cols| && DistinctIndices(cols)
    ensures Get(BlankRow(g, r, cols, skip, j), p)
         == if p.row == r && ColumnOf(cols, p.col) < j && p !in skip then Str("") else Get(g, p)
  {
    if j > 0 {
      BlankRowCell(g, r, cols, skip, j - 1, p);
      if p == Pos(r, cols[j - 1].index) {
        ColumnOfAt(cols, j - 1);
      }
    }
  }

  lemma {:induction false} BlankRowsCell(g: Grid, lo: int, hi: int, cols: seq<Column>, skip: set<Pos>, p: Pos)
    requires DistinctIndices(cols)
    ensures Get(BlankRows(g, lo, hi, cols, skip), p)
         == if lo <= p.row < hi && Managed(cols, p.col) && p !in skip then Str("") else Get(g, p)
    decreases hi - lo
  {
    if lo < hi {
      BlankRowsCell(g, lo, hi - 1, cols, skip, p);
      BlankRowCell(BlankRows(g, lo, hi - 1, cols, skip), hi - 1, cols, skip, |cols|, p);
    }
  }

  /** After the cleaning the stale tail of every managed column is blank,
      except formula and merged cells, and nothing else changed. */
  lemma CleanCell(g: Grid, lastNewRow: int, cols: seq<Column>, skip: set<Pos>, p: Pos)
    requires DistinctIndices(cols)
    ensures Get(Clean(g, lastNewRow, cols, skip), p)
         == if BlankTarget(g, lastNewRow, cols, skip, p) then Str("") else Get(g, p)
  {
    if g.maxRow > lastNewRow {
      BlankRowsCell(g, lastNewRow + 1, g.maxRow + 1, cols, skip, p);
    }
  }

  // ---------------------------------------------------------------------
  // apply_date_formatting.

  const DatetimeFormat: string := "dd/mm/yyyy hh:mm"
  const DateFormat: string := "dd/mm/yyyy"

  /** Whether a value gets the format of its column: a datetime in FECHA,
      a date (and not a datetime) in JORNADA. */
  predicate Formattable(v: Value, stamp: bool) {
    if stamp then v.Stamp? else v.Day?
  }

  /** Column c after tagging rows lo .. hi - 1. */
  function FormatRows(g: Grid, c: int, lo: int, hi: int, stamp: bool, fmt: string): (h: Grid)
    ensures h.cells == g.cells && h.maxRow == g.maxRow && h.merged == g.merged && h.maxCol == g.maxCol
    decreases hi - lo
  {
    if hi <= lo then g
    else
      var h := FormatRows(g, c, lo, hi - 1, stamp, fmt);
      var p := Pos(hi - 1, c);
      if p !in h.merged && Formattable(Get(h, p), stamp) then h.(formats := h.formats[p := fmt]) else h
  }

  /** The number format of a cell, None for the default. */
  function FormatOf(g: Grid, p: Pos): Option<string> {
    if p in g.formats then Some(g.formats[p]) else None
  }

  lemma {:induction false} FormatRowsCell(g: Grid, c: int, lo: int, hi: int, stamp: bool, fmt: string, p: Pos)
    ensures FormatOf(FormatRows(g, c, lo, hi, stamp, fmt), p)
         == if p.col == c && lo <= p.row < hi && p !in g.merged && Formattable(Get(g, p), stamp)
            then Some(fmt) else FormatOf(g, p)
    decreases hi - lo
  {
    if lo < hi {
      FormatRowsCell(g, c, lo, hi - 1, stamp, fmt, p);
    }
  }

  /** 1 + the first index of name in header, as header.index(name) + 1. */
  function HeaderColumn(header: seq<string>, name: string): (c: int)
    ensures 1 <= c <= |header| + 1
    ensures c <= |header| ==> header[c - 1] == name
    ensures forall i :: 0 <= i < c - 1 ==> header[i] != name
  {
    if header == [] then 1
    else if header[0] == name then 1
    else 1 + HeaderColumn(header[1..], name)
  }

  /** apply_date_formatting over rows first .. last. A date column missing
      from the header (ValueError from index) is skipped. */
  function FormatDates(g: Grid, header: seq<string>, first: int, last: int): (h: Grid)
    ensures h.cells == g.cells && h.maxRow == g.maxRow && h.merged == g.merged && h.maxCol == g.maxCol
  {
    var g1 :=
      if DatetimeColumn in header
      then FormatRows(g, HeaderColumn(header, DatetimeColumn), first, last + 1, true, DatetimeFormat)
      else g;
    if DateColumn in header
    then FormatRows(g1, HeaderColumn(header, DateColumn), first, last + 1, false, DateFormat)
    else g1
  }

  /** Whether apply_date_formatting tags cell p for the column called name. */
  predicate Tagged(g: Grid, header: seq<string>, name: string, stamp: bool, first: int, last: int, p: Pos) {
    name in header && p.col == HeaderColumn(header, name) && first <= p.row <= last
    && p !in g.merged && Formattable(Get(g, p), stamp)
  }

  /** After apply_date_formatting, the tagged FECHA cells carry the
      datetime format, the tagged JORNADA cells the date format, and every
      other cell keeps its format. */
  lemma FormatDatesCell(g: Grid, header: seq<string>, first: int, last: int, p: Pos)
    ensures FormatOf(FormatDates(g, header, first, last), p)
         == if Tagged(g, header, DateColumn, false, first, last, p) then Some(DateFormat)
            else if Tagged(g, header, DatetimeColumn, true, first, last, p) then Some(DatetimeFormat)
            else FormatOf(g, p)
  {
    var g1 :=
      if DatetimeColumn in header
      then FormatRows(g, HeaderColumn(header, DatetimeColumn), first, last + 1, true, DatetimeFormat)
      else g;
    if DatetimeColumn in header {
      FormatRowsCell(g, HeaderColumn(header, DatetimeColumn), first, last + 1, true, DatetimeFormat, p);
    }
    if DateColumn in header {
      FormatRowsCell(g1, HeaderColumn(header, DateColumn), first, last + 1, false, DateFormat, p);
    }
  }
}
