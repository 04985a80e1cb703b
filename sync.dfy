/** The control logic of overwrite_non_formula_cells_with_csv: read the
    header, choose the managed columns, analyse, write, clean and format,
    with its three early exits. The workbook is a map from sheet name to
    sheet; the CSV file is its field names and records. */
module Sync {
  import opened Text
  import opened Dates
  import opened Numbers
  import opened Columns
  import opened Coercion
  import opened Grid
  import opened Worksheet

  /** The CSV input: the header's field names, and one record per line. */
  datatype Csv = Csv(fields: seq<string>, rows: seq<Record>)

  /** How a synchronisation ends: the named sheet is missing, its header
      is empty, no CSV column is in the header (the file is saved as it
      was), a write hit a merged cell (nothing is saved), a record's row is
      not in use and ensure_row_exists never returns (nothing is saved), or
      the sheet is saved with its new contents. */
  datatype Outcome = MissingSheet | EmptyHeader | NoColumns | MergedWrite | Hangs | Saved(sheet: Grid)

  // ---------------------------------------------------------------------
  // The header and the managed columns.

  /** A header cell as overwrite sees it: read_header strips a text and
      turns a falsy value (no value, the number 0) into "", and str() then
      gives the text of a number, a datetime or a date. */
  function HeaderText(v: Value): string {
    match v
    case Empty => ""
    case Str(s) => Strip(s)
    case Num(x) => if x == 0.0 then "" else NumberText(x)
    case Stamp(t) => DateText(t.date) + " " + Padded(t.hour, 2) + ":" + Padded(t.minute, 2) + ":" + Padded(t.second, 2)
    case Day(d) => DateText(d)
  }

  /** str() of a number: a whole number's digits; otherwise the digits of
      the whole part, a point and those of the fraction, at most 17. */
  function NumberText(x: real): (s: string)
    ensures s != []
  {
    if x < 0.0 then "-" + UnsignedText(-x) else UnsignedText(x)
  }

  function UnsignedText(x: real): (s: string)
    requires x >= 0.0
    ensures s != []
  {
    var w := x.Floor;
    if x == w as real then NatToString(w)
    else NatToString(w) + "." + FractionDigits(x - w as real, 17)
  }

  /** The first k decimal digits of a fraction, stopping when the rest is
      zero. */
  function FractionDigits(f: real, k: nat): string
    requires 0.0 <= f < 1.0
    decreases k
  {
    if k == 0 || f == 0.0 then ""
    else
      var t := f * 10.0;
      var d := t.Floor;
      [DigitChar(d)] + FractionDigits(t - d as real, k - 1)
  }

  /** n in decimal, zero-padded to width digits (a negative field, which a
      valid date never has, as 0). */
  function Padded(n: int, width: nat): (s: string)
    ensures s != []
  {
    var digits := NatToString(if n < 0 then 0 else n);
    if |digits| >= width then digits else seq(width - |digits|, _ => '0') + digits
  }

  /** str() of a date: YYYY-MM-DD. */
  function DateText(d: Date): (s: string)
    ensures s != []
  {
    Padded(d.year, 4) + "-" + Padded(d.month, 2) + "-" + Padded(d.day, 2)
  }

  /** The header cells that read as "": no value, the number 0, or a text
      of white space only. */
  predicate BlankHeaderCell(v: Value) {
    v == Empty || v == Num(0.0) || (v.Str? && Strip(v.s) == "")
  }

  /** A header cell reads as "" exactly when it is blank. */
  lemma HeaderTextBlank(v: Value)
    ensures HeaderText(v) == "" <==> BlankHeaderCell(v)
  {
    if v.Num? && v.x != 0.0 {
      assert NumberText(v.x) != "";
    }
  }

  /** read_header: the texts of row 1, one per column. */
  function ReadHeader(g: Grid): (header: seq<string>)
    ensures |header| == g.maxCol
    ensures forall k :: 0 <= k < |header| ==> header[k] == HeaderText(Get(g, Pos(1, k + 1)))
  {
    seq(g.maxCol, k requires 0 <= k < g.maxCol => HeaderText(Get(g, Pos(1, k + 1))))
  }

  /** The header check: no column, or every column blank. */
  predicate HeaderEmpty(header: seq<string>) {
    header == [] || forall k :: 0 <= k < |header| ==> header[k] == ""
  }

  /** The header check fails exactly when row 1 has no column or every
      cell of it is blank. */
  lemma HeaderEmptyCells(g: Grid)
    ensures HeaderEmpty(ReadHeader(g)) <==>
              g.maxCol == 0 || forall c :: 1 <= c <= g.maxCol ==> BlankHeaderCell(Get(g, Pos(1, c)))
  {
    var header := ReadHeader(g);
    if HeaderEmpty(header) {
      forall c | 1 <= c <= g.maxCol
        ensures BlankHeaderCell(Get(g, Pos(1, c)))
      {
        HeaderTextBlank(Get(g, Pos(1, c)));
        assert header[c - 1] == "";
      }
    }
    if forall c :: 1 <= c <= g.maxCol ==> BlankHeaderCell(Get(g, Pos(1, c))) {
      forall k | 0 <= k < |header|
        ensures header[k] == ""
      {
        HeaderTextBlank(Get(g, Pos(1, k + 1)));
      }
    }
  }

  /** A header cell holding a whole number other than 0 names the column by
      the number's text, so a CSV field of that name is managed there. */
  lemma HeaderOfNumber(g: Grid, c: int, n: int)
    requires 1 <= c <= g.maxCol && n != 0
    requires Get(g, Pos(1, c)) == Num(n as real)
    ensures ReadHeader(g)[c - 1] == IntToString(n)
    ensures !HeaderEmpty(ReadHeader(g))
  {
    var x := n as real;
    assert x.Floor == n;
    if n < 0 {
      assert (-x).Floor == -n;
    }
  }

  /** A header cell holding a datetime reads as str() writes it. */
  lemma HeaderOfStampExample()
    ensures HeaderText(Stamp(DateTime(Date(2025, 2, 3), 9, 5, 0))) == "2025-02-03 09:05:00"
  {
    assert NatToString(2025) == "2025";
    assert Padded(2025, 4) == "2025";
  }

  /** The field names that are in the header, in CSV order, each once. */
  function SelectColumns(fields: seq<string>, header: seq<string>): (names: seq<string>)
    ensures forall k :: 0 <= k < |names| ==> names[k] in header && names[k] in fields
    ensures forall f :: f in fields && f in header ==> f in names
    ensures forall i, j :: 0 <= i < j < |names| ==> names[i] != names[j]
  {
    if fields == [] then []
    else
      var init := fields[..|fields| - 1];
      var f := fields[|fields| - 1];
      assert fields == init + [f];
      var names := SelectColumns(init, header);
      if f in header && f !in init then names + [f] else names
  }

  /** The managed columns: csv_cols, each with 1 + its first index in the
      header (the column map of analyze_sheet_structure). */
  function ManagedColumns(csv: Csv, header: seq<string>): (cols: seq<Column>)
    ensures forall k :: 0 <= k < |cols| ==> cols[k].index == HeaderColumn(header, cols[k].name)
  {
    var names := if csv.rows == [] then [] else SelectColumns(csv.fields, header);
    seq(|names|, k requires 0 <= k < |names| => Column(names[k], HeaderColumn(header, names[k])))
  }

  /** Distinct names found in the header sit in distinct sheet columns, so
      no two managed columns write the same cell. */
  lemma ManagedColumnsDistinct(csv: Csv, header: seq<string>)
    ensures DistinctIndices(ManagedColumns(csv, header))
  {
    var cols := ManagedColumns(csv, header);
    forall i, j | 0 <= i < j < |cols|
      ensures cols[i].index != cols[j].index
    {
      var names := SelectColumns(csv.fields, header);
      assert cols[i].name == names[i] && cols[j].name == names[j];
    }
  }

  /** The managed columns are exactly the CSV fields present in the header
      (none at all when there are no records), each at the column where
      the header first names it. */
  lemma ManagedColumnsChosen(csv: Csv, header: seq<string>, name: string)
    ensures (exists k :: 0 <= k < |ManagedColumns(csv, header)| && ManagedColumns(csv, header)[k].name == name)
        <==> csv.rows != [] && name in csv.fields && name in header
    ensures forall k :: 0 <= k < |ManagedColumns(csv, header)| ==>
              1 <= ManagedColumns(csv, header)[k].index <= |header|
              && header[ManagedColumns(csv, header)[k].index - 1] == ManagedColumns(csv, header)[k].name
  {
    var cols := ManagedColumns(csv, header);
    if csv.rows != [] && name in csv.fields && name in header {
      var names := SelectColumns(csv.fields, header);
      var k :| 0 <= k < |names| && names[k] == name;
      assert cols[k].name == name;
    }
    forall k | 0 <= k < |cols|
      ensures 1 <= cols[k].index <= |header| && header[cols[k].index - 1] == cols[k].name
    {
      assert cols[k].name in header;
    }
  }

  /** last_new_row: the last row the records fill. */
  function LastNewRow(n: nat): int {
    if n > 0 then 2 + n - 1 else 1
  }

  // ---------------------------------------------------------------------
  // The whole synchronisation of one sheet.

  /** The cells the writes leave alone: formulas and merged cells found by
      the analysis. */
  function Skip(g: Grid, cols: seq<Column>): set<Pos> {
    FormulaCells(g, cols) + MergedCells(g, cols)
  }

  /** The managed columns of a sheet for a CSV input. */
  function SyncColumns(g: Grid, csv: Csv): seq<Column> {
    ManagedColumns(csv, ReadHeader(g))
  }

  /** The sheet after write_data_optimized. */
  function Written(g: Grid, csv: Csv): Grid {
    var cols := SyncColumns(g, csv);
    WriteRows(g, cols, csv.rows, Skip(g, cols), |csv.rows|)
  }

  /** The sheet after clean_old_data_optimized. */
  function Cleaned(g: Grid, csv: Csv): Grid {
    var cols := SyncColumns(g, csv);
    Clean(Written(g, csv), LastNewRow(|csv.rows|), cols, Skip(g, cols))
  }

  /** overwrite_non_formula_cells_with_csv once the sheet is found. */
  function SyncSheet(g: Grid, csv: Csv): Outcome {
    if HeaderEmpty(ReadHeader(g)) then EmptyHeader
    else if SyncColumns(g, csv) == [] then NoColumns
    else WriteThrough(g, csv)
  }

  /** The writes, the cleaning and the date formats, once some column is
      managed. */
  function WriteThrough(g: Grid, csv: Csv): Outcome {
    var cols := SyncColumns(g, csv);
    var n := |csv.rows|;
    if WriteHitsMerged(g, cols, RowsReached(g, n), Skip(g, cols)) then MergedWrite
    else if !RowExists(g, n + 1) then Hangs
    else if CleanHitsMerged(Written(g, csv), LastNewRow(n), cols, Skip(g, cols)) then MergedWrite
    else Saved(if n > 0 then FormatDates(Cleaned(g, csv), ReadHeader(g), 2, LastNewRow(n)) else Cleaned(g, csv))
  }

  /** overwrite_non_formula_cells_with_csv on a workbook. */
  function SyncBook(book: map<string, Grid>, name: string, csv: Csv): Outcome {
    if name !in book then MissingSheet else SyncSheet(book[name], csv)
  }

  /** overwrite_non_formula_cells_with_csv, run in place on the sheet
      objects of a workbook. */
  method Overwrite(book: map<string, Sheet>, name: string, csv: Csv) returns (out: Outcome)
    modifies if name in book then {book[name]} else {}
    ensures name !in book ==> out == MissingSheet
    ensures name in book ==> out == SyncSheet(old(book[name].State()), csv)
    ensures out.Saved? ==> name in book && book[name].State() == out.sheet
    ensures out.EmptyHeader? || out.NoColumns? ==> name in book && book[name].State() == old(book[name].State())
  {
    if name !in book {
      return MissingSheet;
    }
    var ws := book[name];
    ghost var g0 := ws.State();
    var header := ReadHeader(ws.State());
    if HeaderEmpty(header) {
      return EmptyHeader;
    }
    var cols := ManagedColumns(csv, header);
    if cols == [] {
      return NoColumns;
    }
    var formula, mergedFound := ws.Analyze(cols);
    var skip := formula + mergedFound;
    var end := ws.WriteData(csv.rows, cols, skip);
    if end == HitMerged {
      return MergedWrite;
    } else if end == Stuck {
      return Hangs;
    }
    var last := LastNewRow(|csv.rows|);
    var ok := ws.CleanOldData(last, cols, skip);
    if !ok {
      return MergedWrite;
    }
    if |csv.rows| > 0 {
      ws.ApplyDateFormatting(header, 2, last);
    }
    return Saved(ws.State());
  }

  // ---------------------------------------------------------------------
  // What a saved synchronisation promises.

  /** Every cell of the saved sheet: the targets of the writes hold the
      coerced field of their record, the stale managed cells below the
      records are blank, and every other cell, formula cells included, is
      as it was. */
  lemma SyncCell(g: Grid, csv: Csv, p: Pos)
    requires SyncSheet(g, csv).Saved?
    ensures var cols := SyncColumns(g, csv);
            var skip := Skip(g, cols);
            var n := |csv.rows|;
            Get(SyncSheet(g, csv).sheet, p)
            == if WriteTarget(cols, n, skip, p) then WriteValue(cols[ColumnOf(cols, p.col)], csv.rows[p.row - 2])
               else if n + 1 < p.row <= g.maxRow && Managed(cols, p.col) && p !in skip then Str("")
               else Get(g, p)
  {
    var header := ReadHeader(g);
    var cols := SyncColumns(g, csv);
    ManagedColumnsDistinct(csv, header);
    var skip := Skip(g, cols);
    var n := |csv.rows|;
    var written := WriteRows(g, cols, csv.rows, skip, n);
    SavedSheet(g, csv);
    assert Get(SyncSheet(g, csv).sheet, p) == Get(Clean(written, LastNewRow(n), cols, skip), p);
    WriteRowsCell(g, cols, csv.rows, skip, n, p);
    CleanCell(written, LastNewRow(n), cols, skip, p);
  }

  /** Formula cells found by the analysis are never assigned. */
  lemma SyncKeepsFormulas(g: Grid, csv: Csv, p: Pos)
    requires SyncSheet(g, csv).Saved?
    requires p in FormulaCells(g, SyncColumns(g, csv))
    ensures Get(SyncSheet(g, csv).sheet, p) == Get(g, p)
    ensures HasFormula(Get(SyncSheet(g, csv).sheet, p))
  {
    SyncCell(g, csv, p);
    FoundCells(g, SyncColumns(g, csv), p);
  }

  /** Columns that are not managed, and the header row, are left as they
      were. */
  lemma SyncFrame(g: Grid, csv: Csv, p: Pos)
    requires SyncSheet(g, csv).Saved?
    requires !Managed(SyncColumns(g, csv), p.col) || p.row < 2
    ensures Get(SyncSheet(g, csv).sheet, p) == Get(g, p)
  {
    SyncCell(g, csv, p);
  }

  /** A saved run had a row in use for every record; no row is added or
      removed, and merged cells are untouched. */
  lemma SyncRows(g: Grid, csv: Csv)
    requires SyncSheet(g, csv).Saved?
    ensures |csv.rows| + 1 <= g.maxRow
    ensures SyncSheet(g, csv).sheet.maxRow == g.maxRow
    ensures SyncSheet(g, csv).sheet.merged == g.merged
    ensures SyncSheet(g, csv).sheet.maxCol == g.maxCol
  {
  }

  /** Number formats are set only on FECHA cells holding a datetime and on
      JORNADA cells holding a date, in the rows the records fill, never on
      merged cells; every other cell keeps its format. */
  lemma SyncFormats(g: Grid, csv: Csv, p: Pos)
    requires SyncSheet(g, csv).Saved?
    ensures var h := SyncSheet(g, csv).sheet;
            FormatOf(h, p) != FormatOf(g, p) ==>
              2 <= p.row <= |csv.rows| + 1 && p !in g.merged &&
              ((Tagged(h, ReadHeader(g), DatetimeColumn, true, 2, |csv.rows| + 1, p) && FormatOf(h, p) == Some(DatetimeFormat)) ||
               (Tagged(h, ReadHeader(g), DateColumn, false, 2, |csv.rows| + 1, p) && FormatOf(h, p) == Some(DateFormat)))
  {
    SavedSheet(g, csv);
    FormatDatesCell(Cleaned(g, csv), ReadHeader(g), 2, |csv.rows| + 1, p);
  }

  /** A saved sheet is the cleaned sheet with its dates formatted. */
  lemma SavedSheet(g: Grid, csv: Csv)
    requires SyncSheet(g, csv).Saved?
    ensures |csv.rows| > 0
    ensures SyncSheet(g, csv).sheet == FormatDates(Cleaned(g, csv), ReadHeader(g), 2, |csv.rows| + 1)
  {
    assert SyncColumns(g, csv) != [];
    assert SyncSheet(g, csv) == WriteThrough(g, csv);
  }

  /** The early exits: a missing sheet, a header with no text, and no CSV
      column in the header (or no record) leave the sheet as it was. */
  lemma SyncExits(book: map<string, Grid>, name: string, csv: Csv)
    ensures SyncBook(book, name, csv) == MissingSheet <==> name !in book
    ensures name in book ==>
              (SyncBook(book, name, csv) == EmptyHeader <==> HeaderEmpty(ReadHeader(book[name])))
    ensures name in book && !HeaderEmpty(ReadHeader(book[name])) ==>
              (SyncBook(book, name, csv) == NoColumns
               <==> csv.rows == [] || forall f :: f in csv.fields ==> f !in ReadHeader(book[name]))
  {
    if name in book && !HeaderEmpty(ReadHeader(book[name])) {
      NoColumnsExit(book[name], csv);
      NoManagedColumns(csv, ReadHeader(book[name]));
    }
  }

  /** Past the header check, the run stops early iff no column is managed. */
  lemma NoColumnsExit(g: Grid, csv: Csv)
    requires !HeaderEmpty(ReadHeader(g))
    ensures SyncSheet(g, csv) == NoColumns <==> SyncColumns(g, csv) == []
  {
  }

  /** No column is managed iff there is no record or no CSV field is in the
      header. */
  lemma NoManagedColumns(csv: Csv, header: seq<string>)
    ensures ManagedColumns(csv, header) == []
            <==> csv.rows == [] || forall f :: f in csv.fields ==> f !in header
  {
    var cols := ManagedColumns(csv, header);
    if csv.rows != [] && exists f :: f in csv.fields && f in header {
      var f :| f in csv.fields && f in header;
      ManagedColumnsChosen(csv, header, f);
    }
    if cols != [] {
      ManagedColumnsChosen(csv, header, cols[0].name);
    }
  }

  /** A write fails only on a merged cell the analysis did not see, which
      lies below row 10000. */
  lemma MergedWriteOnlyBeyondScan(g: Grid, csv: Csv)
    requires WellFormed(g)
    requires SyncSheet(g, csv) == MergedWrite
    ensures exists p :: p in g.merged && p.row > ScanLimit
  {
    var cols := SyncColumns(g, csv);
    var skip := Skip(g, cols);
    var n := |csv.rows|;
    MergedWriteCause(g, csv);
    if WriteHitsMerged(g, cols, RowsReached(g, n), skip) {
      var r, k :| 2 <= r <= RowsReached(g, n) + 1 && 0 <= k < |cols| && Pos(r, cols[k].index) !in skip
        && Pos(r, cols[k].index) in g.merged;
      UnscannedMerged(g, cols, Pos(r, cols[k].index));
    } else {
      var written := Written(g, csv);
      var r, k :| LastNewRow(n) < r <= written.maxRow && 0 <= k < |cols| && Pos(r, cols[k].index) !in skip
        && Pos(r, cols[k].index) in written.merged;
      UnscannedMerged(g, cols, Pos(r, cols[k].index));
    }
  }

  /** The run never ends exactly when the header has text, some column is
      managed, no record before the first one without a row meets a merged
      cell, and the records need more rows than the sheet uses. */
  lemma SyncHangs(g: Grid, csv: Csv)
    ensures SyncSheet(g, csv) == Hangs <==>
              !HeaderEmpty(ReadHeader(g)) && SyncColumns(g, csv) != [] &&
              !WriteHitsMerged(g, SyncColumns(g, csv), RowsReached(g, |csv.rows|), Skip(g, SyncColumns(g, csv))) &&
              |csv.rows| + 1 > g.maxRow
  {
  }

  /** A failed synchronisation failed in the writes or in the cleaning. */
  lemma MergedWriteCause(g: Grid, csv: Csv)
    requires SyncSheet(g, csv) == MergedWrite
    ensures WriteHitsMerged(g, SyncColumns(g, csv), RowsReached(g, |csv.rows|), Skip(g, SyncColumns(g, csv)))
         || CleanHitsMerged(Written(g, csv), LastNewRow(|csv.rows|), SyncColumns(g, csv), Skip(g, SyncColumns(g, csv)))
  {
  }
}
