# Daily cost sheet automation, modelled in Dafny

This project models the core of a small automation that turns a point-of-sale
system's daily sales into rows of an Excel workbook.

- **Daily fetch** (`daily_automation/fetch_today.py`, a copy of
  `fetch_today.py`).
  - It builds a cost index. For each store and each purchase reference, the
    index holds the unit cost of the latest purchase, taken from the first
    day of the current month up to the target day.
  - It then maps each sales document to CSV rows. Every row carries the 60
    columns of `CSV_COLUMNS`, and its COSTE column is looked up in the index.
- **Configuration** (`daily_automation/config.py`). `_parse_tiendas` reads the
  TIENDAS setting: a comma-separated list of store ids, where no value means
  every store.
- **Sheet writer** (`excel_writer.py`). It overwrites the rows of a worksheet
  with the CSV records:
  - each value is coerced by the column's type policy: text, number,
    datetime or date;
  - cells holding a formula and merged cells are left alone;
  - old rows below the new data are blanked;
  - the FECHA and JORNADA columns get date formats.

The modules follow the program's structure:

| module | file | models |
|---|---|---|
| `Text`, `Numbers` | text.dfy, numbers.dfy | the parts of Python's `str.strip`, `str.lower`, `str.split`, `int()`, `float()` and `f"{n}"` that the core relies on |
| `Dates` | dates.dfy | dates, datetimes, the next day, and a subset of `strptime` and `fromisoformat` |
| `Columns`, `Coercion` | coercion.dfy | the column policy sets, `safe_float`, `parse_dt`, `parse_d` and `coerce_value` |
| `Grid` | grid.dfy | a worksheet as a value, with specification functions for every step of the writer |
| `Worksheet` | worksheet.dfy | class `Sheet`, whose methods change the worksheet in place as the writer's helpers do |
| `Sync` | sync.dfy | the control flow of `overwrite_non_formula_cells_with_csv` and what it promises about the saved sheet |
| `Json`, `Calendar` | json.dfy, calendar.dfy | `pick_first_key`, `to_float`, `iso_to_dt`, `fmt_fecha`, `fmt_jornada`, `daterange` and `month_bounds` |
| `CostIndex` | costindex.dfy | `build_cost_index`, both as a specification (a fold over the purchase observations) and as the nested loops of the source |
| `Rows` | rows.dfy | `make_rows_from_doc` |
| `CsvDates` | csvdates.dfy | how the dates the fetch writes are read back by the sheet writer |
| `Config` | config.dfy | `_parse_tiendas` |

### Where the model follows the code rather than the comments

- **Ties in the cost index.** `build_cost_index` replaces an entry when the
  new purchase time is `>=` the stored one. Of two purchases at the same
  time, the one scanned last therefore wins (`CostIndex.RecordEffect`,
  `CostIndex.CostIndexLatest`).
- **Start of the cost window.** The window starts on the first day of the
  month of *today*, not of the target day. A target day before that start
  gives an index with no entries (`CostIndex.TargetBeforeWindow`).
- **Thousands separators.** `safe_float` turns every comma into a point. A
  value such as "1.234,56" then has two points, `float()` rejects it, and
  `coerce_value` writes the text unchanged (`Coercion.CoerceThousandsExample`).
- **Slice lengths in `iso_to_dt`.** `iso_to_dt` slices the input to the
  length of the format *text* ("%Y-%m-%dT%H:%M:%S" has 17 characters, not 19).
  - On a canonical "YYYY-MM-DDTHH:MM:SS" string, both `strptime` attempts
    therefore fail. The value comes from `fromisoformat` instead
    (`Calendar.SecondsSliceFails`, `Calendar.MinutesSliceFails`,
    `Calendar.IsoToDtOfIsoFormat`).
  - With a one-digit hour, the slice cuts the seconds short
    (`Calendar.IsoToDtShortHourExample`).
- **Rows past the end of the sheet.** `ensure_row_exists` loops
  `while ws.max_row < row_idx: ws.append([])`. The model takes openpyxl's
  `max_row` to be the highest row that holds a stored cell. Under that
  premise, appending an empty row stores no cell, so `max_row` never grows.
  The loop then returns at once when the row is in use and never exits
  otherwise. So a CSV with more records than the sheet has rows below its
  header makes the run hang, and nothing is saved (outcome `Hangs`,
  `Sync.SyncHangs`). A saved run therefore never adds rows (`Sync.SyncRows`).

## Model

| member | source | states |
|---|---|---|
| Columns.PolicyExclusive | excel_writer.py:13-30 | each column name falls under exactly one type policy: forced text, FECHA, JORNADA, numeric or passthrough. The sets are disjoint, so the order of coerce_value's tests never matters |
| Coercion.SafeFloatOneSeparator | excel_writer.py:34-44 | safe_float accepts a value only if it holds at most one separator (point or comma) in all |
| Coercion.SafeFloatDecimalComma | excel_writer.py:40-42 | a decimal comma "w,f" reads as the number w.f |
| Coercion.ParseDt | excel_writer.py:46-60 | parse_dt returns only valid datetimes |
| Coercion.ParseD | excel_writer.py:62-74 | parse_d returns only valid dates |
| Coercion.FirstFormat | excel_writer.py:50-56 | the first format strptime accepts gives a valid datetime |
| Coercion.CoerceNoneWord | excel_writer.py:96-97 | "none" in any case, with any surrounding white space, becomes the empty text in every column |
| Coercion.CoerceKeepsText | excel_writer.py:98-99 | a forced-text column keeps the text exactly, so codes keep their leading zeros |
| Coercion.CoerceDecimalComma | excel_writer.py:106-108 | a numeric column turns "w,f" into the number w.f |
| Coercion.CoerceKeepsUnparsedNumber | excel_writer.py:106-108 | a numeric value with two or more separators is written back as the same text |
| Coercion.CoerceCommaExample | excel_writer.py:106-108 | COSTE "1,5" is written as the number 1.5 |
| Coercion.CoerceThousandsExample | excel_writer.py:40-44 | IMPORTE "1.234,56" stays text |
| Coercion.CoerceCodeExample | excel_writer.py:98-99 | NUMBARRA "007" stays the text "007" |
| Grid.ColumnOf | excel_writer.py:133 | finds the first managed column with a given sheet index, or reports that there is none |
| Grid.ColumnOfAt | excel_writer.py:133 | with distinct indices, each managed column is found at its own position |
| Grid.FoundCells | excel_writer.py:139-155 | a cell is in the formula set iff it is scanned and holds a formula. It is in the merged set iff it is scanned and merged. Scanned means row 2 up to min(max_row, 10000), in a managed column |
| Grid.FormulaNotMerged | excel_writer.py:113-117 | no cell is both a formula cell and a merged cell |
| Grid.UnscannedMerged | excel_writer.py:139 | a merged cell in a managed column that the scan missed lies below row 10000 |
| Grid.RowsReached | excel_writer.py:119-122 | the records written before ensure_row_exists stops returning: every earlier record's row is in use, the next one's is not, and all are written iff row records+1 is in use |
| Grid.WriteHitsMergedWithin | excel_writer.py:169-197 | a merged target among the first n records is one among any larger prefix |
| Grid.WriteRowCell | excel_writer.py:191-197 | writing one record changes exactly the record's row in the managed, unskipped columns, each to the coerced value |
| Grid.WriteRowsCell | excel_writer.py:179-197 | after writing n records, a cell is the coerced value of record row-2 when it is a write target; every other cell is unchanged |
| Grid.BlankRowCell | excel_writer.py:217-220 | blanking one row empties exactly its managed, unskipped cells |
| Grid.BlankRowsCell | excel_writer.py:216-220 | blanking rows lo..hi-1 empties exactly their managed, unskipped cells |
| Grid.CleanCell | excel_writer.py:203-220 | cleaning empties exactly the managed, unskipped cells from last_new_row+1 to max_row; nothing happens when max_row <= last_new_row |
| Grid.FormatRowsCell | excel_writer.py:239-243 | a cell gets the format iff it is in the column and row range, is not merged, and holds a value of the right kind |
| Grid.HeaderColumn | excel_writer.py:237 | header.index(name)+1, or one past the end when the name is absent |
| Grid.FormatDatesCell | excel_writer.py:226-259 | a date in JORNADA gets "dd/mm/yyyy", a datetime in FECHA gets "dd/mm/yyyy hh:mm", and every other format is kept |
| Worksheet.Sheet.constructor | excel_writer.py:294-297 | a sheet opened on a given worksheet state |
| Worksheet.Sheet.EnsureRowExists | excel_writer.py:119-122 | returns iff row r is in use (max_row >= r), changing nothing; otherwise the append loop never exits |
| Worksheet.Sheet.Analyze | excel_writer.py:126-165 | the nested scan returns exactly the formula set and the merged set |
| Worksheet.Sheet.WriteData | excel_writer.py:169-197 | stops on a merged target iff one lies in the rows reached; never ends iff none does and row records+1 is not in use; otherwise the sheet equals WriteRows of the old sheet |
| Worksheet.Sheet.WriteRecord | excel_writer.py:191-197 | writing one record fails iff one of its target cells is merged; on success the sheet equals WriteRow of the old sheet, and merges never change |
| Worksheet.Sheet.CleanOldData | excel_writer.py:203-220 | the clean succeeds iff no blanking target is merged; on success, the sheet equals Clean of the old sheet |
| Worksheet.Sheet.FormatColumn | excel_writer.py:239-243 | the loop leaves the sheet equal to FormatRows of the old sheet |
| Worksheet.Sheet.ApplyDateFormatting | excel_writer.py:226-259 | formats FECHA, then JORNADA; a column missing from the header is skipped |
| Sync.ReadHeader | excel_writer.py:87-91 | one entry per column of row 1, each the cell's HeaderText |
| Sync.HeaderTextBlank | excel_writer.py:87-91 | a header cell reads as "" iff it has no value, holds 0 or holds white space only; a number, datetime or date reads as its str() text |
| Sync.HeaderEmptyCells | excel_writer.py:302-304 | the empty-header exit is taken iff row 1 has no column or every cell of it is blank |
| Sync.HeaderOfNumber | excel_writer.py:87-91 | a header cell holding a whole number n != 0 reads as str(n), so the header is not empty |
| Sync.HeaderOfStampExample | excel_writer.py:302 | a datetime header cell reads as "2025-02-03 09:05:00" |
| Sync.SelectColumns | excel_writer.py:308-311 | the chosen columns are exactly the CSV fields that are in the header, with no repeats |
| Sync.ManagedColumns | excel_writer.py:133 | each managed column sits at its header position |
| Sync.ManagedColumnsDistinct | excel_writer.py:133 | no two managed columns share a sheet index |
| Sync.ManagedColumnsChosen | excel_writer.py:308-316 | a column is managed iff the CSV has rows and the name is both a CSV field and in the header; it sits where the header names it |
| Sync.Overwrite | excel_writer.py:266-351 | a missing sheet stops the run; otherwise the outcome is SyncSheet of the sheet. A saved outcome's sheet is what is stored, and an empty header or no columns leaves the sheet unchanged |
| Sync.SyncCell | excel_writer.py:322-333 | after a save, each cell is the coerced record value (write target), or empty (old row below the data, managed and unskipped), or unchanged |
| Sync.SyncKeepsFormulas | excel_writer.py:193-194 | every scanned formula cell survives unchanged |
| Sync.SyncFrame | excel_writer.py:191-197 | the header row and the columns that are not managed are never touched |
| Sync.SyncRows | excel_writer.py:179-181 | a saved run had a row in use for every record; max_row, merges and columns are unchanged |
| Sync.SyncHangs | excel_writer.py:119-122 | the run never ends iff the header has text, a column is managed, no reached row meets a merged target, and the records need more rows than max_row |
| Sync.SyncFormats | excel_writer.py:332-333 | only unmerged FECHA or JORNADA cells in rows 2..records+1 change format, and only to the date formats |
| Sync.SavedSheet | excel_writer.py:328-333 | a saved run has records, and its sheet is the cleaned sheet with the date formats applied |
| Sync.SyncExits | excel_writer.py:295-316 | the run stops iff the sheet is missing, stops iff the header is empty, and saves the sheet unchanged iff the CSV has no rows or none of its fields is in the header |
| Sync.NoColumnsExit | excel_writer.py:313-316 | with a header, the sheet is saved unchanged iff no column is managed |
| Sync.NoManagedColumns | excel_writer.py:308-316 | no column is managed iff the CSV has no rows or none of its fields is in the header |
| Sync.MergedWriteOnlyBeyondScan | excel_writer.py:139 | a write that fails on a merged cell needs a merged cell below row 10000 |
| Sync.MergedWriteCause | excel_writer.py:325-329 | a failed run hit a merged cell while writing or while cleaning |
| Json.FirstFound | daily_automation/fetch_today.py:61-63 | the first lookup that is present and neither None nor "", or none at all |
| Json.PickFirstKey | daily_automation/fetch_today.py:60-69 | never returns "" (None instead) |
| Json.PickFirstKeyExact | daily_automation/fetch_today.py:61-63 | an exact key match wins when it is the first usable candidate |
| Json.PickFirstKeyNormalised | daily_automation/fetch_today.py:64-68 | when no exact key is usable, the first candidate usable after removing spaces and lower-casing wins |
| Json.PickFirstKeyNone | daily_automation/fetch_today.py:69 | the result is None iff no candidate is usable either way |
| Json.PickDateExample | fetch_today.py:60-69 | with "fecha" empty, the date comes from "FECHA" through the normalised lookup |
| Json.ToFloat | daily_automation/fetch_today.py:71-72 | None, "" and "NaN" give None |
| Json.ToFloatDecimalComma | daily_automation/fetch_today.py:73-75 | "w,f" reads as w.f through the comma-to-point retry |
| Json.ToFloatOfInteger | daily_automation/fetch_today.py:73 | the text of an integer reads as that integer |
| Json.StrKeyOfIntegers | daily_automation/fetch_today.py:153 | str() of integer references is one-to-one and agrees with the reference given as text |
| Calendar.IsoToDt | daily_automation/fetch_today.py:42-52 | iso_to_dt returns only valid datetimes |
| Calendar.IsoToDtOfIsoFormat | daily_automation/fetch_today.py:42-52 | a whole-second isoformat() text, with or without "Z", reads back as the same datetime |
| Calendar.SecondsSliceFails | daily_automation/fetch_today.py:44-46 | the 17-character slice of a canonical timestamp never parses with seconds |
| Calendar.MinutesSliceFails | daily_automation/fetch_today.py:44-46 | the 14-character slice never parses with minutes |
| Calendar.FromIsoOfIsoFormat | daily_automation/fetch_today.py:50 | fromisoformat reads isoformat() back |
| Calendar.IsoToDtShortHourExample | daily_automation/fetch_today.py:44-46 | "2025-02-03T1:05:30" reads as 01:05:03 |
| Calendar.FirstOfMonth | fetch_today.py:129 | day 1 of the same month, not after the given day |
| Calendar.MonthBounds | daily_automation/fetch_today.py:85-88 | the first and the last day of the month, around the given day |
| Calendar.DaysFrom | daily_automation/fetch_today.py:79-83 | the consecutive days from start to end; empty iff end is before start |
| Calendar.DaysFromCover | daily_automation/fetch_today.py:79-83 | a day is listed iff it lies between start and end |
| Calendar.Daterange | daily_automation/fetch_today.py:79-83 | the loop yields exactly DaysFrom(start, end) |
| CsvDates.FechaReadBack | daily_automation/fetch_today.py:54-55 | the FECHA text fmt_fecha writes is read by coerce_value as the same datetime, with seconds zero |
| CsvDates.JornadaReadBack | daily_automation/fetch_today.py:57-58 | the JORNADA text fmt_jornada writes is read by coerce_value as the same date |
| CsvDates.FechaStrptime | fetch_today.py:54-55 | "%d/%m/%Y %H:%M" reads fmt_fecha's text back |
| CsvDates.JornadaStrptime | fetch_today.py:57-58 | "%d/%m/%Y" reads fmt_jornada's text back |
| Dates.SpacedDayStrptime | excel_writer.py:66-70 | "%Y-%m-%d" reads a day written as a space and one digit ("2025-02- 3") |
| Dates.MatchSpacedDay | excel_writer.py:50-52 | "%d" takes a space and a digit 1-9 not followed by another digit |
| Dates.NotBeforeIsFieldOrder | daily_automation/fetch_today.py:160 | datetime comparison is the field-by-field order |
| Dates.NotBeforeOrder | daily_automation/fetch_today.py:160 | ">=" on datetimes is reflexive, total and transitive |
| Dates.NextDay | daily_automation/fetch_today.py:83 | the next day is valid and later |
| Dates.PrevDay | daily_automation/fetch_today.py:87 | the day before is valid, and its next day is the given day |
| Dates.NoDayBetween | daily_automation/fetch_today.py:83 | there is no day strictly between a day and the next |
| CostIndex.ReadDate | daily_automation/fetch_today.py:145-148 | a document is undated iff its date key is falsy; a dated one has a valid datetime |
| CostIndex.ProductList | daily_automation/fetch_today.py:149 | a missing or falsy "productos" gives no lines |
| CostIndex.ReadLineCases | daily_automation/fetch_today.py:149-158 | a line that is not an object raises; a usable line gives str(ref) and importe / cantidad |
| CostIndex.LinesObsFrom | daily_automation/fetch_today.py:149-158 | every observation comes from a usable line of the document, at the document's time |
| CostIndex.PairObs | daily_automation/fetch_today.py:137-142 | a failed fetch for a store and day contributes nothing |
| CostIndex.DocObs | daily_automation/fetch_today.py:144-148 | an undated document contributes nothing |
| CostIndex.Init | daily_automation/fetch_today.py:131 | one empty map per store |
| CostIndex.RecordEffect | daily_automation/fetch_today.py:159-161 | recording keeps every other entry and adds the key. The entry becomes the new one, or stays when it is strictly later; either way it is not before the new time |
| CostIndex.Fold | daily_automation/fetch_today.py:135-161 | folding keeps the stores |
| CostIndex.FoldAppend | daily_automation/fetch_today.py:135-161 | folding a concatenation is folding in two steps |
| CostIndex.FoldMonotone | daily_automation/fetch_today.py:159-161 | once a key is indexed, it stays, and its time never goes back |
| CostIndex.FoldHas | daily_automation/fetch_today.py:159-161 | a key is indexed for a store iff some observation has it |
| CostIndex.FoldLatest | daily_automation/fetch_today.py:159-161 | an indexed entry is the latest observation, the last scanned among equal times |
| CostIndex.CostIndexLatest | daily_automation/fetch_today.py:124-163 | the index has one map per store; a reference is in it iff it was observed; its entry is the latest observation |
| CostIndex.TargetBeforeWindow | daily_automation/fetch_today.py:128-135 | a target day before the first of today's month scans nothing |
| CostIndex.ScanLine | daily_automation/fetch_today.py:150-161 | the update for one line is the fold of its observation |
| CostIndex.ScanLines | daily_automation/fetch_today.py:149-161 | the loop over a document's lines is the fold of its observations |
| CostIndex.ScanDoc | daily_automation/fetch_today.py:145-161 | the same for one document |
| CostIndex.ScanDocs | daily_automation/fetch_today.py:144-161 | the same for a day's documents |
| CostIndex.ScanDay | daily_automation/fetch_today.py:136-161 | the same for all stores on one day |
| CostIndex.BuildCostIndex | daily_automation/fetch_today.py:124-163 | the nested loops compute CostIndexOf, the fold of all observations in the window |
| Rows.ColumnPositions | daily_automation/config.py:35-45 | 60 columns; FECHA, JORNADA and COSTE at positions 6, 7 and 54 |
| Rows.Columns | daily_automation/config.py:35-45 | the names of a row, in order |
| Rows.OrEmpty | daily_automation/fetch_today.py:204-222 | "x or ''" keeps a truthy value and gives "" otherwise |
| Rows.RowLiteral | daily_automation/fetch_today.py:203-225 | the row literal has exactly the CSV_COLUMNS in order |
| Rows.WithDefaultsSpec | daily_automation/fetch_today.py:226-228 | setdefault keeps the row and appends "" for each missing column |
| Rows.WithDefaultsComplete | daily_automation/fetch_today.py:226-228 | a row that has every column is unchanged |
| Rows.LiteralComplete | daily_automation/fetch_today.py:203-228 | the literal already has every column, so the defaults add nothing |
| Rows.ProductRows | daily_automation/fetch_today.py:183-229 | one row per product line, or an exception |
| Rows.ProductRowsAt | daily_automation/fetch_today.py:183-229 | row i is the row of product i |
| Rows.DocHeader | daily_automation/fetch_today.py:171-181 | the header carries the document's time |
| Rows.ProductRowSpec | daily_automation/fetch_today.py:183-229 | a product row has the 60 columns in order. COSTE is the indexed cost or "", FECHA is fmt_fecha(dt), JORNADA is fmt_jornada(dt) |
| Rows.DocRowsSpec | daily_automation/fetch_today.py:166-230 | an undated document gives no rows; a dated one gives one complete row per product, each with its COSTE lookup |
| Rows.CosteIsLatestPurchase | daily_automation/fetch_today.py:199-201 | COSTE is the unit cost of the latest purchase of the reference in the window, or "" when it was not bought or has no reference |
| Rows.AddDefaults | daily_automation/fetch_today.py:227-228 | the setdefault loop gives WithDefaults |
| Rows.MakeRow | daily_automation/fetch_today.py:184-229 | builds ProductRow |
| Rows.MakeRowsFromDoc | daily_automation/fetch_today.py:166-230 | the loop over products gives DocRows |
| Config.ParsePiecesSome | daily_automation/config.py:14-17 | the ids parse iff every non-blank piece is an integer; one bad piece gives None |
| Config.ParsePiecesValues | daily_automation/config.py:15 | the ids are the integers of the non-blank pieces, in order |
| Config.ParseTiendasBlank | daily_automation/config.py:9-13 | no setting, or one of white space only, means every store (None) |
| Config.ParseTiendasPieces | daily_automation/config.py:11-15 | a non-blank setting is stripped, split on commas and read piece by piece |
| Config.ParseTiendasRoundTrip | daily_automation/config.py:8-17 | ",".join of the ids' texts reads back as the same ids |
| Config.ParsePiecesIds | daily_automation/config.py:15 | int() reads every id's text back, in order |
| Config.NonBlankAll | daily_automation/config.py:15 | the filter keeps a list none of whose pieces is blank unchanged |
| Config.NonBlank | daily_automation/config.py:15 | the pieces the filter keeps are not blank |
| Numbers.IntToStringRoundTrip | daily_automation/config.py:15 | int() reads str(i) back as i |
| Numbers.ParseFloatDecimal | excel_writer.py:42 | float() of "w.f" is w.f |
| Numbers.ParseFloatOfInteger | daily_automation/fetch_today.py:73 | float() of an integer's text is that integer |
| Text.SplitJoin | daily_automation/config.py:15 | splitting a join on a separator the pieces lack gives the pieces back |
| Text.StripUnchanged | excel_writer.py:37 | a text with no white space at either end is its own strip |

## Left out

- Network access: `http_post_json`, `get_tiendas`, `get_ventas_dia` and `get_compras_dia`. A fetch is a parameter (`CostIndex.Fetcher`) that returns a document list or a failure.
- `date.today()` and `get_target_date` are not modelled; today and the target day are parameters.
- Reading the CSV file (`load_csv_rows`) is not modelled; the records are given as field names plus rows of optional strings, as `csv.DictReader` yields them.
- Not modelled, because they are I/O and have no effect on the computed values: writing the CSV, the backup copy, `load_workbook`, `wb.save`, the progress prints and the timing.
- `main` and the upload and orchestration scripts are not part of this model.
- `round(…, 6)` is not modelled. Amounts are exact reals, not binary floating point.
- Rows.ProductRow: the only float error modelled is a division by zero when IVA is -100. The model does not capture overflow or other floating-point effects.
- Python `float()` and `int()` are modelled for plain decimal literals only: an optional sign, digits and at most one point. Underscores, exponents, "inf", "nan" and non-ASCII digits are left out.
- Dates.Strptime: modelled for the formats the core uses. Fractions of a second, UTC offsets and non-ASCII digits are left out. `%Y` takes exactly four digits.
- Dates.FromIsoFormat: only the extended forms "YYYY-MM-DD", optionally followed by one separator character and "HH", "HH:MM" or "HH:MM:SS", are modelled. The basic and week forms that Python 3.11 and later also accept ("20250203", "2025-W06-1") are read as not a date, so `coerce_value` keeps such a text as text.
- Sync.HeaderText: a whole number in row 1 reads as its digits, as openpyxl's int. A number that is not whole reads as its decimal digits, at most 17 after the point. Python's shortest repr and its exponent form are not modelled. Boolean cells are not part of the cell values.
- Dates.NextDay: years are unbounded. The overflow past `date.max` is not modelled.
- openpyxl internals are not modelled:
  - `max_row` is taken to be the highest row holding a stored cell, and `ws.append([])` stores no cell. That is the premise behind `Hangs`;
  - `ws[1]` is row 1 up to max_column;
  - assigning a value to a merged cell fails the whole run.
- Text.Lower: only ASCII letters (and the Kelvin sign) are lower-cased. Every lower-cased text is compared only with ASCII words, so the outcome is the same as with Python's `str.lower`.
- Json.StrKey: `str()` of a JSON float is its literal text, not Python's float repr. A reference that is a JSON array or object is kept apart as `Repr`. In Python its `str()` text could equal a string reference's text and share that key.
- Dates.NotBeforeIsFieldOrder: datetimes are naive. Time zones are not modelled.
