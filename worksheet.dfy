/** The worksheet that excel_writer.py updates in place, and its helpers
    ensure_row_exists, analyze_sheet_structure, write_data_optimized,
    clean_old_data_optimized and apply_date_formatting as loops over it.
    Each method is proved to leave the sheet in the state the matching
    function of module Grid describes. */
module Worksheet {
  import opened Text
  import opened Columns
  import opened Coercion
  import opened Grid

  class Sheet {
    var cells: map<Pos, Value>
    var maxRow: nat
    var maxCol: nat
    var merged: set<Pos>
    var formats: map<Pos, string>

    /** The sheet's contents as a value. */
    function State(): Grid
      reads this
    {
      Grid(cells, maxRow, maxCol, merged, formats)
    }

    constructor (g: Grid)
      ensures State() == g
    {
      cells := g.cells;
      maxRow := g.maxRow;
      maxCol := g.maxCol;
      merged := g.merged;
      formats := g.formats;
    }

    /** ensure_row_exists: ok is whether it returns. Appending an empty
        row stores no cell, so max_row stays where it is: the sheet is left
        unchanged when row r is in use, and otherwise the loop never exits,
        which the model reports as ok false. */
    method EnsureRowExists(r: int) returns (ok: bool)
      ensures ok <==> RowExists(State(), r)
    {
      ok := r <= maxRow;
    }

    /** analyze_sheet_structure: the formula and the merged cells among the
        managed columns of rows 2 .. min(max_row, 10000). */
    method Analyze(cols: seq<Column>) returns (formula: set<Pos>, mergedFound: set<Pos>)
      ensures formula == FormulaCells(State(), cols)
      ensures mergedFound == MergedCells(State(), cols)
    {
      var last := ScanEnd(State());
      formula := {};
      mergedFound := {};
      for k := 0 to |cols|
        invariant forall p :: p in formula <==>
          2 <= p.row <= last && ColumnOf(cols, p.col) < k && HasFormula(Get(State(), p))
        invariant forall p :: p in mergedFound <==>
          2 <= p.row <= last && ColumnOf(cols, p.col) < k && p in merged
      {
        var c := cols[k].index;
        var r := 2;
        while r <= last
          invariant 2 <= r <= if last < 2 then 2 else last + 1
          invariant forall p :: p in formula <==>
            2 <= p.row <= last && (ColumnOf(cols, p.col) < k || (p.col == c && p.row < r)) && HasFormula(Get(State(), p))
          invariant forall p :: p in mergedFound <==>
            2 <= p.row <= last && (ColumnOf(cols, p.col) < k || (p.col == c && p.row < r)) && p in merged
        {
          var p := Pos(r, c);
          if HasFormula(Get(State(), p)) {
            formula := formula + {p};
          }
          if p in merged {
            mergedFound := mergedFound + {p};
          }
          r := r + 1;
        }
      }
      forall p
        ensures p in formula <==> p in FormulaCells(State(), cols)
        ensures p in mergedFound <==> p in MergedCells(State(), cols)
      {
        FoundCells(State(), cols, p);
      }
    }

    /** write_data_optimized: record i goes to row 2 + i, one managed column
        at a time, skipping the cells in skip. It stops at the first record
        whose row is not in use (ensure_row_exists never returns) or at the
        first assignment to a merged cell. */
    method WriteData(rows: seq<Record>, cols: seq<Column>, skip: set<Pos>) returns (end: WriteEnd)
      modifies this
      ensures end == HitMerged <==> WriteHitsMerged(old(State()), cols, RowsReached(old(State()), |rows|), skip)
      ensures end == Stuck <==> !WriteHitsMerged(old(State()), cols, RowsReached(old(State()), |rows|), skip)
                                && !RowExists(old(State()), |rows| + 1) && |rows| > 0
      ensures end == Done ==> State() == WriteRows(old(State()), cols, rows, skip, |rows|)
    {
      ghost var g0 := State();
      ghost var m := RowsReached(g0, |rows|);
      for i := 0 to |rows|
        invariant i <= m
        invariant State() == WriteRows(g0, cols, rows, skip, i)
        invariant !WriteHitsMerged(g0, cols, i, skip)
      {
        var r := 2 + i;
        var inUse := EnsureRowExists(r);
        if !inUse {
          return Stuck;
        }
        var ok := WriteRecord(r, rows[i], cols, skip);
        if !ok {
          WriteHitsMergedWithin(g0, cols, i + 1, m, skip);
          return HitMerged;
        }
      }
      return Done;
    }

    /** The inner loop of write_data_optimized: one record into row r. It
        fails, with ok false, on the first target cell that is merged. */
    method WriteRecord(r: int, rec: Record, cols: seq<Column>, skip: set<Pos>) returns (ok: bool)
      modifies this
      ensures merged == old(merged)
      ensures ok <==> forall k :: 0 <= k < |cols| && Pos(r, cols[k].index) !in skip ==> Pos(r, cols[k].index) !in merged
      ensures ok ==> State() == WriteRow(old(State()), r, cols, rec, skip, |cols|)
    {
      ghost var g := State();
      for j := 0 to |cols|
        invariant merged == g.merged
        invariant State() == WriteRow(g, r, cols, rec, skip, j)
        invariant forall k :: 0 <= k < j && Pos(r, cols[k].index) !in skip ==> Pos(r, cols[k].index) !in merged
      {
        var p := Pos(r, cols[j].index);
        if p !in skip {
          if p in merged {
            return false;
          }
          cells := cells[p := WriteValue(cols[j], rec)];
        }
      }
      return true;
    }

    /** clean_old_data_optimized: blanks the managed cells of the rows after
        lastNewRow, skipping the cells in skip; ok is false when a blanked
        cell is merged. */
    method CleanOldData(lastNewRow: int, cols: seq<Column>, skip: set<Pos>) returns (ok: bool)
      modifies this
      ensures ok <==> !CleanHitsMerged(old(State()), lastNewRow, cols, skip)
      ensures ok ==> State() == Clean(old(State()), lastNewRow, cols, skip)
    {
      ghost var g0 := State();
      var lastRow := maxRow;
      if lastRow <= lastNewRow {
        return true;
      }
      for r := lastNewRow + 1 to lastRow + 1
        invariant State() == BlankRows(g0, lastNewRow + 1, r, cols, skip)
        invariant forall r', k :: lastNewRow < r' < r && 0 <= k < |cols| && Pos(r', cols[k].index) !in skip
                    ==> Pos(r', cols[k].index) !in g0.merged
      {
        for j := 0 to |cols|
          invariant State() == BlankRow(BlankRows(g0, lastNewRow + 1, r, cols, skip), r, cols, skip, j)
          invariant forall k :: 0 <= k < j && Pos(r, cols[k].index) !in skip ==> Pos(r, cols[k].index) !in g0.merged
        {
          var p := Pos(r, cols[j].index);
          if p !in skip {
            if p in merged {
              ok := false;
              return;
            }
            cells := cells[p := Str("")];
          }
        }
      }
      ok := true;
    }

    /** One of apply_date_formatting's two loops: tags the cells of column c
        in rows first .. last that hold a value of the column's kind. */
    method FormatColumn(c: int, first: int, last: int, stamp: bool, fmt: string)
      modifies this
      ensures State() == FormatRows(old(State()), c, first, last + 1, stamp, fmt)
    {
      ghost var g0 := State();
      var r := first;
      while r <= last
        invariant first <= r <= if first <= last + 1 then last + 1 else first
        invariant State() == FormatRows(g0, c, first, r, stamp, fmt)
      {
        var p := Pos(r, c);
        if p !in merged && Formattable(Get(State(), p), stamp) {
          formats := formats[p := fmt];
        }
        r := r + 1;
      }
    }

    /** apply_date_formatting over rows first .. last. */
    method ApplyDateFormatting(header: seq<string>, first: int, last: int)
      modifies this
      ensures State() == FormatDates(old(State()), header, first, last)
    {
      if DatetimeColumn in header {
        FormatColumn(HeaderColumn(header, DatetimeColumn), first, last, true, DatetimeFormat);
      }
      if DateColumn in header {
        FormatColumn(HeaderColumn(header, DateColumn), first, last, false, DateFormat);
      }
    }
  }
}
