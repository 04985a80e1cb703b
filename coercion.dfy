/** The column type policy of excel_writer.py: the columns forced to text,
    the numeric columns, and the two date columns. */
module Columns {
  const DatetimeColumn: string := "FECHA"
  const DateColumn: string := "JORNADA"

  const NumericColumns: set<string> := {
    "CABIMPORTE", "CABDESCUENTO", "CABNETO", "CANTIDAD", "PRECIO", "IVA",
    "IMPORTE", "IMPORTESINIVA", "DESCUENTO", "IMPORTEDESCUENTO", "IMPORTESINIVADESCUENTO",
    "TIENDA", "COMENSALES", "COSTE"
  }

  const TextForceColumns: set<string> := {
    "IDTRANS", "NSERIE", "SERIE", "NUMTIKET", "NUMBARRA", "NNUMBARRA",
    "NUMCLIE", "PUNTOVENTA", "NPUNTOVENTA", "NUMCUEN", "NNUMCUEN",
    "SERVICIO", "NSERVICIO", "ALMACEN", "NALMACEN",
    "CAMARERO", "NCAMARERO", "MACROGRUPO", "NMACROGRUPO", "GRUPO", "NGRUPO",
    "FAMILIA", "NFAMILIA", "TIPOPRODUCTO", "NTIPOPRODUCTO",
    "PRODUCTO", "NPRODUCTO", "ANULADA", "FORMATO", "NFORMATO", "ESTABLECIMIENTO",
    "CTACONTABLE", "CECO", "NIFCLIENTE", "NOMBRECLIENTE", "VENCIMIENTO", "PROMOCION",
    "OBSERVACIONES", "Turno", "Denominacion 2", "Factura", "Motivo"
  }

  /** The type policy a column name falls under. */
  datatype Policy = ForceText | DateTimeTyped | DateTyped | Numeric | Passthrough

  /** The first of coerce_value's column tests that the name passes. */
  function PolicyOf(col: string): Policy {
    if col in TextForceColumns then ForceText
    else if col == DatetimeColumn then DateTimeTyped
    else if col == DateColumn then DateTyped
    else if col in NumericColumns then Numeric
    else Passthrough
  }

  /** The column sets do not overlap, so the order of coerce_value's tests
      never matters: each column name belongs to exactly the policy whose
      set or name it is in. */
  lemma PolicyExclusive(col: string)
    ensures PolicyOf(col) == ForceText <==> col in TextForceColumns
    ensures PolicyOf(col) == DateTimeTyped <==> col == DatetimeColumn
    ensures PolicyOf(col) == DateTyped <==> col == DateColumn
    ensures PolicyOf(col) == Numeric <==> col in NumericColumns
    ensures PolicyOf(col) == Passthrough <==>
              col !in TextForceColumns && col !in NumericColumns && col != DatetimeColumn && col != DateColumn
  {
    DateColumnsNotText();
    DateColumnsNotNumeric();
    NumericNotText();
  }

  lemma DateColumnsNotText()
    ensures DatetimeColumn !in TextForceColumns && DateColumn !in TextForceColumns
  {
  }

  lemma DateColumnsNotNumeric()
    ensures DatetimeColumn !in NumericColumns && DateColumn !in NumericColumns
  {
  }

  lemma NumericNotText()
    ensures NumericColumns * TextForceColumns == {}
  {
  }
}

/** The value coercion of excel_writer.py: which column takes which type,
    the tolerant number parse safe_float, the date parsers parse_dt and
    parse_d, and coerce_value, which decides what is written to a cell. */
module Coercion {
  import opened Text
  import opened Numbers
  import opened Dates
  import opened Columns

  /** What a worksheet cell holds: nothing, text, a number, a datetime or a date. */
  datatype Value = Empty | Str(s: string) | Num(x: real) | Stamp(t: DateTime) | Day(d: Date)

  const NoBreakSpace: char := 160 as char

  /** safe_float: None for None, for blank text and for "nan" in any case;
      otherwise spaces and no-break spaces are removed, every comma becomes a
      point, and the rest must be a number. */
  function SafeFloat(x: Option<string>): Option<real> {
    match x
    case None => None
    case Some(v) =>
      var s := Strip(v);
      if s == "" || Lower(s) == "nan" then None
      else ParseFloat(Unseparated(s))
  }

  /** The text safe_float hands to float(): no spaces, no no-break spaces,
      every comma a point. */
  function Unseparated(s: string): string {
    ReplaceChar(RemoveAll(RemoveAll(s, ' '), NoBreakSpace), ',', '.')
  }

  /** The strptime formats parse_dt tries, in order. */
  const DatetimeFormats: seq<seq<Directive>> := [
    DMY + [Gap] + HM, DMY + [Gap] + HMS,
    YMD + [Gap] + HM, YMD + [Gap] + HMS,
    YMD + [Lit('T')] + HM, YMD + [Lit('T')] + HMS
  ]

  /** The strptime formats parse_d tries, in order. */
  const DateFormats: seq<seq<Directive>> := [DMY, YMD]

  /** The first format that strptime accepts, as a valid datetime. */
  function FirstFormat(s: string, fmts: seq<seq<Directive>>): (r: Option<DateTime>)
    ensures r.Some? ==> ValidDateTime(r.value)
  {
    if fmts == [] then None
    else match Strptime(s, fmts[0])
      case Some(t) => Some(t)
      case None => FirstFormat(s, fmts[1..])
  }

  /** parse_dt: None for "", otherwise strip, drop every "Z", try the
      formats, then fromisoformat. */
  function ParseDt(s: string): (r: Option<DateTime>)
    ensures r.Some? ==> ValidDateTime(r.value)
  {
    if s == "" then None
    else
      var t := RemoveAll(Strip(s), 'Z');
      match FirstFormat(t, DatetimeFormats)
      case Some(dt) => Some(dt)
      case None => FromIsoFormat(t)
  }

  /** parse_d: as parse_dt with date formats, keeping the date part. */
  function ParseD(s: string): (r: Option<Date>)
    ensures r.Some? ==> ValidDate(r.value)
  {
    if s == "" then None
    else
      var t := RemoveAll(Strip(s), 'Z');
      match FirstFormat(t, DateFormats)
      case Some(dt) => Some(dt.date)
      case None =>
        match FromIsoFormat(t)
        case Some(dt) => Some(dt.date)
        case None => None
  }

  /** Whether a value is the word "none" in any case, around white space. */
  predicate IsNoneWord(v: string) {
    Lower(Strip(v)) == "none"
  }

  /** coerce_value: the value written for a CSV field (a string, or None for
      a missing field) into the column named col. */
  function Coerce(col: string, val: Option<string>): Value {
    match val
    case None => Str("")
    case Some(v0) => CoerceAs(PolicyOf(col), if IsNoneWord(v0) then "" else v0)
  }

  /** The value a (normalised) text takes under a policy: the parsed value
      when the policy's parser accepts it, the text itself otherwise. */
  function CoerceAs(p: Policy, v: string): Value {
    match p
    case ForceText => Str(v)
    case DateTimeTyped => (match ParseDt(v) case Some(t) => Stamp(t) case None => Str(v))
    case DateTyped => (match ParseD(v) case Some(d) => Day(d) case None => Str(v))
    case Numeric => (match SafeFloat(Some(v)) case Some(x) => Num(x) case None => Str(v))
    case Passthrough => Str(v)
  }
  // ---------------------------------------------------------------------
  // What the coercion promises.

  const Separators: set<char> := {'.', ','}

  /** safe_float accepts at most one decimal separator, point or comma, in
      the whole text: a thousands separator next to a decimal comma, as in
      "1.234,56", turns into two points and is rejected. */
  lemma SafeFloatOneSeparator(v: string)
    requires SafeFloat(Some(v)).Some?
    ensures Count(v, Separators) <= 1
  {
    var s := Strip(v);
    assert ParseFloat(Unseparated(s)).Some?;
    CountStrip(v, Separators);
    UnseparatedPoints(s);
    ParseFloatOnePoint(Unseparated(s));
  }

  /** The points handed to float() are the points and commas of the text. */
  lemma UnseparatedPoints(s: string)
    ensures Count(Unseparated(s), {'.'}) == Count(s, Separators)
  {
    var r1 := RemoveAll(s, ' ');
    CountRemoveAll(s, ' ', Separators);
    var r2 := RemoveAll(r1, NoBreakSpace);
    CountRemoveAll(r1, NoBreakSpace, Separators);
    CountReplaceChar(r2, ',', '.');
    assert {',', '.'} == Separators;
  }

  /** Every character of "w,f" is a digit or the comma. */
  lemma DecimalCommaChars(w: string, f: string)
    requires AllDigits(w) && AllDigits(f)
    ensures forall k :: 0 <= k < |w + "," + f| ==> (w + "," + f)[k] == ',' || IsDigit((w + "," + f)[k])
  {
    var v := w + "," + f;
    forall k | 0 <= k < |v|
      ensures v[k] == ',' || IsDigit(v[k])
    {
      if k < |w| {
        assert v[k] == w[k];
      } else if k > |w| {
        assert v[k] == f[k - |w| - 1];
      }
    }
  }

  lemma UnseparatedDecimalComma(w: string, f: string)
    requires AllDigits(w) && AllDigits(f)
    ensures Unseparated(w + "," + f) == w + "." + f
  {
    var v := w + "," + f;
    DecimalCommaChars(w, f);
    assert ' ' !in v && NoBreakSpace !in v;
    assert RemoveAll(RemoveAll(v, ' '), NoBreakSpace) == v;
    var t := ReplaceChar(v, ',', '.');
    forall k | 0 <= k < |t|
      ensures t[k] == (w + "." + f)[k]
    {
      if k < |w| {
        assert v[k] == w[k];
      } else if k > |w| {
        assert v[k] == f[k - |w| - 1];
      }
    }
  }

  /** safe_float reads a decimal comma as a point: "w,f" is w.f. */
  lemma SafeFloatDecimalComma(w: string, f: string)
    requires AllDigits(w) && AllDigits(f) && |w| >= 1
    ensures SafeFloat(Some(w + "," + f)) == Some(Scale(DigitsValue(w + f), |f|))
  {
    var v := w + "," + f;
    DecimalCommaChars(w, f);
    StripUnchanged(v);
    assert Lower(v)[0] == v[0];
    UnseparatedDecimalComma(w, f);
    ParseFloatDecimal(w, f);
  }

  /** The word "none", in any case and with any surrounding white space,
      is written as the empty string whatever the column. */
  lemma CoerceNoneWord(col: string, v: string)
    requires IsNoneWord(v)
    ensures Coerce(col, Some(v)) == Str("")
  {
  }

  /** A force-text column keeps the text exactly, so codes such as "007"
      keep their leading zeros. */
  lemma CoerceKeepsText(col: string, v: string)
    requires col in TextForceColumns && !IsNoneWord(v)
    ensures Coerce(col, Some(v)) == Str(v)
  {
  }

  /** In a numeric column "w,f" becomes the number w.f. */
  lemma CoerceDecimalComma(col: string, w: string, f: string)
    requires col in NumericColumns && AllDigits(w) && AllDigits(f) && |w| >= 1
    ensures Coerce(col, Some(w + "," + f)) == Num(Scale(DigitsValue(w + f), |f|))
  {
    NumericPolicy(col);
    DecimalCommaNotNoneWord(w, f);
    NumericDecimalComma(w, f);
  }

  lemma NumericDecimalComma(w: string, f: string)
    requires AllDigits(w) && AllDigits(f) && |w| >= 1
    ensures CoerceAs(Numeric, w + "," + f) == Num(Scale(DigitsValue(w + f), |f|))
  {
    SafeFloatDecimalComma(w, f);
    NumericParsed(w + "," + f, Scale(DigitsValue(w + f), |f|));
  }

  lemma NumericParsed(v: string, x: real)
    requires SafeFloat(Some(v)) == Some(x)
    ensures CoerceAs(Numeric, v) == Num(x)
  {
    var r := SafeFloat(Some(v));
    assert CoerceAs(Numeric, v) == (match r case Some(y) => Num(y) case None => Str(v));
  }

  lemma NumericPolicy(col: string)
    requires col in NumericColumns
    ensures PolicyOf(col) == Numeric
  {
    PolicyExclusive(col);
  }

  lemma DecimalCommaNotNoneWord(w: string, f: string)
    requires AllDigits(w) && AllDigits(f) && |w| >= 1
    ensures !IsNoneWord(w + "," + f)
  {
    var v := w + "," + f;
    DecimalCommaChars(w, f);
    StripUnchanged(v);
    assert Lower(v)[0] == v[0];
  }

  /** A text holding a point or a comma is not the word "none". */
  lemma SeparatorNotNoneWord(v: string)
    requires Count(v, Separators) >= 1
    ensures !IsNoneWord(v)
  {
    var none := "none";
    assert forall i :: 0 <= i < |none| ==> none[i] !in Separators;
    CountNone(none, Separators);
    var w := Lower(Strip(v));
    CountStrip(v, Separators);
    CountLower(Strip(v), Separators);
    assert Count(w, Separators) != Count(none, Separators);
  }

  /** In a numeric column a text with two or more separators is not a
      number: it is written back as the same text. */
  lemma CoerceKeepsUnparsedNumber(col: string, v: string)
    requires col in NumericColumns && Count(v, Separators) >= 2
    ensures Coerce(col, Some(v)) == Str(v)
  {
    NumericPolicy(col);
    SeparatorNotNoneWord(v);
    if SafeFloat(Some(v)).Some? {
      SafeFloatOneSeparator(v);
    }
  }

  /** "1,5" in a numeric column is the number 1.5. */
  lemma CoerceCommaExample()
    ensures Coerce("COSTE", Some("1,5")) == Num(1.5)
  {
    assert DigitsValue("15") == 15 by {
      assert "15"[..1] == "1";
    }
    assert "1" + "," + "5" == "1,5";
    assert "1" + "5" == "15";
    CoerceDecimalComma("COSTE", "1", "5");
  }

  /** "1.234,56", with a thousands point, stays text in a numeric column. */
  lemma CoerceThousandsExample()
    ensures Coerce("IMPORTE", Some("1.234,56")) == Str("1.234,56")
  {
    var v := "1.234,56";
    assert v == "1" + "." + "234,56";
    CountAppend("1" + ".", "234,56", Separators);
    CountAppend("1", ".", Separators);
    assert Count("234,56", Separators) >= 1 by {
      assert "234,56" == "234" + "," + "56";
      CountAppend("234" + ",", "56", Separators);
      CountAppend("234", ",", Separators);
    }
    CoerceKeepsUnparsedNumber("IMPORTE", v);
  }

  /** The code "007" keeps its leading zeros in a force-text column. */
  lemma CoerceCodeExample()
    ensures Coerce("NUMBARRA", Some("007")) == Str("007")
  {
    StripUnchanged("007");
    assert Lower("007")[0] == '0';
    CoerceKeepsText("NUMBARRA", "007");
  }
}
