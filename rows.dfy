/** make_rows_from_doc in fetch_today.py: one CSV row per product line of
    a sales document, with COSTE taken from the store's cost index, and
    every CSV column present. */
module Rows {
  import opened Text
  import opened Dates
  import opened Json
  import opened Calendar
  import opened CostIndex

  /** CSV_COLUMNS in daily_automation/config.py, the CSV header, in four
      runs of fifteen: the ticket, the service, the line and the store. */
  const TicketColumns: seq<string> := [
    "IDTRANS", "NSERIE", "SERIE", "NUMTIKET", "NUMBARRA", "NNUMBARRA", "FECHA", "JORNADA",
    "CREDITO", "NCREDITO", "NUMCLIE", "PUNTOVENTA", "NPUNTOVENTA", "NUMCUEN", "NNUMCUEN"
  ]

  const ServiceColumns: seq<string> := [
    "SERVICIO", "NSERVICIO", "ALMACEN", "NALMACEN", "CABIMPORTE", "CABDESCUENTO", "CABNETO",
    "CAMARERO", "NCAMARERO", "MACROGRUPO", "NMACROGRUPO", "GRUPO", "NGRUPO", "FAMILIA", "NFAMILIA"
  ]

  const LineColumns: seq<string> := [
    "TIPOPRODUCTO", "NTIPOPRODUCTO", "PRODUCTO", "NPRODUCTO", "CANTIDAD", "PRECIO", "IVA",
    "IMPORTE", "IMPORTESINIVA", "DESCUENTO", "IMPORTEDESCUENTO", "IMPORTESINIVADESCUENTO",
    "ANULADA", "FORMATO", "NFORMATO"
  ]

  const StoreColumns: seq<string> := [
    "TIENDA", "ESTABLECIMIENTO", "CTACONTABLE", "CECO", "NIFCLIENTE", "NOMBRECLIENTE",
    "VENCIMIENTO", "PROMOCION", "COMENSALES", "COSTE", "OBSERVACIONES", "Turno",
    "Denominacion 2", "Factura", "Motivo"
  ]

  const CsvColumns: seq<string> := TicketColumns + ServiceColumns + LineColumns + StoreColumns

  /** A value in a row: a JSON value passed through, a number to_float or
      the arithmetic produced, or a reference as str() renders it. */
  datatype Field = Raw(j: Json) | Num(x: real) | RefText(k: Key)

  const Empty: Field := Raw(JStr(""))

  /** A row: the dict's items, in insertion order. */
  type Row = seq<(string, Field)>

  /** The keys of a row, in order. */
  function Columns(row: Row): (cs: seq<string>)
    ensures |cs| == |row| && forall i :: 0 <= i < |row| ==> cs[i] == row[i].0
  {
    seq(|row|, i requires 0 <= i < |row| => row[i].0)
  }

  /** Where FECHA, JORNADA and COSTE stand among the CSV columns. */
  const FechaAt := 6
  const JornadaAt := 7
  const CosteAt := 54

  /** The names at those positions. */
  lemma ColumnPositions()
    ensures |CsvColumns| == 60
    ensures CsvColumns[FechaAt] == "FECHA" && CsvColumns[JornadaAt] == "JORNADA"
    ensures CsvColumns[CosteAt] == "COSTE"
  {
  }

  /** v or "" */
  function OrEmpty(v: Json): (f: Field)
    ensures f == Empty || (f == Raw(v) && Truthy(v))
  {
    if Truthy(v) then Raw(v) else Empty
  }

  /** x if x is not None else "" */
  function NumOrEmpty(x: Option<real>): Field {
    match x
    case Some(v) => Num(v)
    case None => Empty
  }

  /** doc.get(k) or {}: a falsy value becomes the empty object. */
  function OrEmptyObject(v: Json): Json {
    if Truthy(v) then v else JObj([])
  }

  /** What the document contributes to each of its rows. seccion, servicio
      and cliente are kept as given: their .get only runs inside the loop,
      where a value that is not an object raises. */
  datatype Header = Header(
    serie: Json, numtiket: Json,
    seccion: Json, servicio: Json, cliente: Json,
    cabTotal: Option<real>, cabBase: Option<real>,
    stamp: DateTime, storeId: int, storeName: Json)

  const SerieKeys: seq<string> := ["serie", "Serie"]

  const TicketKeys: seq<string> := ["num ket", "num tket", "numtiket", "num"]

  function Price(m: Members): Option<real> {
    ToFloat(GetOr(m, "precio"))
  }

  function Vat(m: Members): Option<real> {
    ToFloat(GetOr(m, "iva"))
  }

  function Discount(m: Members): Option<real> {
    ToFloat(GetOr(m, "descuento"))
  }

  /** 1.0 + iva / 100.0 is zero: the division of importe by it raises. */
  predicate VatDivisionFails(m: Members) {
    Amount(m).Some? && Vat(m).Some? && 1.0 + Vat(m).value / 100.0 == 0.0
  }

  /** IMPORTESINIVA: importe / (1 + iva / 100) when both parse. */
  function NetAmount(m: Members): Field
    requires !VatDivisionFails(m)
  {
    if Amount(m).Some? && Vat(m).Some? then Num(Amount(m).value / (1.0 + Vat(m).value / 100.0))
    else Empty
  }

  /** IMPORTEDESCUENTO: importe - descuento when both parse. */
  function DiscountedAmount(m: Members): Field {
    if Amount(m).Some? && Discount(m).Some? then Num(Amount(m).value - Discount(m).value)
    else Empty
  }

  /** IMPORTESINIVADESCUENTO: the discounted amount over 1 + iva / 100. */
  function DiscountedNet(m: Members): Field
    requires !VatDivisionFails(m)
  {
    var d := DiscountedAmount(m);
    if d != Empty && Vat(m).Some? then Num(d.x / (1.0 + Vat(m).value / 100.0))
    else Empty
  }

  /** ref_str: str(ref), or "" when ref is None or "". */
  function RefKey(m: Members): Key {
    var ref := GetOr(m, "referencia");
    if Blank(ref) then Text("") else StrKey(ref)
  }

  /** COSTE: the stored unit cost of the line's reference when ref_str is
      not empty and the store's costs hold it; "" otherwise. */
  function Coste(m: Members, costs: StoreCosts): Field {
    var key := RefKey(m);
    if key != Text("") && key in costs then Num(costs[key].unit) else Empty
  }

  /** x.get(k) or "" on an object that x or {} gave. */
  function SubField(v: Json, k: string): Field
    requires v.JObj?
  {
    OrEmpty(GetOr(v.members, k))
  }

  /** The value the dict literal gives the i-th CSV column for one product
      line; the columns the literal fills with "" fall to the last case. */
  function FieldAt(i: int, h: Header, m: Members, costs: StoreCosts): Field
    requires h.seccion.JObj? && h.servicio.JObj? && h.cliente.JObj?
    requires ValidDateTime(h.stamp) && !VatDivisionFails(m)
  {
    match i
    case 2 => OrEmpty(h.serie)  // SERIE
    case 3 => OrEmpty(h.numtiket)  // NUMTIKET
    case 4 => SubField(h.seccion, "codigo")  // NUMBARRA
    case 5 => SubField(h.seccion, "nombre")  // NNUMBARRA
    case 6 => Raw(JStr(FmtFecha(h.stamp)))  // FECHA
    case 7 => Raw(JStr(FmtJornada(h.stamp.date)))  // JORNADA
    case 10 => SubField(h.cliente, "codigo")  // NUMCLIE
    case 15 => SubField(h.servicio, "codigo")  // SERVICIO
    case 16 => SubField(h.servicio, "nombre")  // NSERVICIO
    case 19 => NumOrEmpty(h.cabTotal)  // CABIMPORTE
    case 21 => NumOrEmpty(h.cabBase)  // CABNETO
    case 27 => OrEmpty(GetOr(m, "grupo"))  // NGRUPO
    case 32 => RefText(RefKey(m))  // PRODUCTO
    case 33 => OrEmpty(GetOr(m, "descripcion"))  // NPRODUCTO
    case 34 => NumOrEmpty(Quantity(m))  // CANTIDAD
    case 35 => NumOrEmpty(Price(m))  // PRECIO
    case 36 => NumOrEmpty(Vat(m))  // IVA
    case 37 => NumOrEmpty(Amount(m))  // IMPORTE
    case 38 => NetAmount(m)  // IMPORTESINIVA
    case 39 => NumOrEmpty(Discount(m))  // DESCUENTO
    case 40 => DiscountedAmount(m)  // IMPORTEDESCUENTO
    case 41 => DiscountedNet(m)  // IMPORTESINIVADESCUENTO
    case 45 => Raw(JInt(h.storeId))  // TIENDA
    case 46 => OrEmpty(h.storeName)  // ESTABLECIMIENTO
    case 49 => SubField(h.cliente, "nif")  // NIFCLIENTE
    case 50 => SubField(h.cliente, "nombre")  // NOMBRECLIENTE
    case 54 => Coste(m, costs)  // COSTE
    case _ => Empty
  }

  /** The dict literal for one product line, before the defaults: every CSV
      column with its value, in the CSV order. */
  function RowLiteral(h: Header, m: Members, costs: StoreCosts): (r: Row)
    requires h.seccion.JObj? && h.servicio.JObj? && h.cliente.JObj?
    requires ValidDateTime(h.stamp) && !VatDivisionFails(m)
    ensures Columns(r) == CsvColumns
    ensures forall i :: 0 <= i < |r| ==> r[i].1 == FieldAt(i, h, m, costs)
  {
    seq(|CsvColumns|, i requires 0 <= i < |CsvColumns| => (CsvColumns[i], FieldAt(i, h, m, costs)))
  }

  /** fila.setdefault(col, ""): a missing key goes at the end with "". */
  function SetDefault(row: Row, col: string): Row {
    if col in Columns(row) then row else row + [(col, Empty)]
  }

  /** for col in cols: fila.setdefault(col, "") */
  function WithDefaults(row: Row, cols: seq<string>): Row
    decreases |cols|
  {
    if cols == [] then row
    else WithDefaults(SetDefault(row, cols[0]), cols[1..])
  }

  /** After the defaults every column is a key; the items already there
      keep their place and value, and each added item is a column with "". */
  lemma {:induction false} WithDefaultsSpec(row: Row, cols: seq<string>)
    ensures forall c :: c in cols ==> c in Columns(WithDefaults(row, cols))
    ensures |row| <= |WithDefaults(row, cols)| && WithDefaults(row, cols)[..|row|] == row
    ensures forall i :: |row| <= i < |WithDefaults(row, cols)| ==>
      WithDefaults(row, cols)[i].0 in cols && WithDefaults(row, cols)[i].1 == Empty
    decreases |cols|
  {
    if cols != [] {
      var next := SetDefault(row, cols[0]);
      WithDefaultsSpec(next, cols[1..]);
      var r := WithDefaults(row, cols);
      assert r == WithDefaults(next, cols[1..]);
      if cols[0] !in Columns(row) {
        assert Columns(next)[|row|] == cols[0];
      }
      assert cols[0] in Columns(next);
      assert r[..|next|] == next;
      assert r[..|row|] == next[..|row|];
      forall c | c in cols
        ensures c in Columns(r)
      {
        if c == cols[0] {
          var k :| 0 <= k < |next| && next[k].0 == c;
          assert r[k] == next[k];
        } else {
          assert c in cols[1..];
        }
      }
      forall i | |row| <= i < |r|
        ensures r[i].0 in cols && r[i].1 == Empty
      {
        if i < |next| {
          assert r[i] == next[i];
        } else {
          assert r[i].0 in cols[1..];
        }
      }
    }
  }

  /** A row that already has every column is left as it is. */
  lemma {:induction false} WithDefaultsComplete(row: Row, cols: seq<string>)
    requires forall c :: c in cols ==> c in Columns(row)
    ensures WithDefaults(row, cols) == row
    decreases |cols|
  {
    if cols != [] {
      WithDefaultsComplete(row, cols[1..]);
    }
  }

  /** One product line: None when p.get, a .get on seccion, servicio or
      cliente, or the VAT division raises. */
  function ProductRow(h: Header, p: Json, costs: StoreCosts): Option<Row>
    requires ValidDateTime(h.stamp)
  {
    match p
    case JObj(m) =>
      if VatDivisionFails(m) || !h.seccion.JObj? || !h.servicio.JObj? || !h.cliente.JObj? then None
      else Some(WithDefaults(RowLiteral(h, m, costs), CsvColumns))
    case _ => None
  }

  /** The rows of the first |ps| product lines, in order. */
  function ProductRows(h: Header, ps: seq<Json>, costs: StoreCosts): (r: Option<seq<Row>>)
    requires ValidDateTime(h.stamp)
    ensures r.Some? ==> |r.value| == |ps|
    decreases |ps|
  {
    if ps == [] then Some([])
    else
      match ProductRows(h, ps[..|ps| - 1], costs)
      case None => None
      case Some(rows) =>
        match ProductRow(h, ps[|ps| - 1], costs)
        case None => None
        case Some(row) => Some(rows + [row])
  }

  /** The header of a dated document; None when totales.get raises. */
  function DocHeader(m: Members, t: DateTime, storeId: int, info: Members): (r: Option<Header>)
    ensures r.Some? ==> r.value.stamp == t
  {
    match OrEmptyObject(GetOr(m, "totales"))
    case JObj(tm) =>
      Some(Header(
        PickFirstKey(m, SerieKeys), PickFirstKey(m, TicketKeys),
        OrEmptyObject(GetOr(m, "seccion")), OrEmptyObject(GetOr(m, "servicio")),
        OrEmptyObject(GetOr(m, "cliente")),
        ToFloat(GetOr(tm, "total")), ToFloat(GetOr(tm, "baseImponible")),
        t, storeId, GetOr(info, "nombre")))
    case _ => None
  }

  /** make_rows_from_doc(doc, tienda_id, tienda_info, cost_index_for_tienda),
      None when it raises. */
  function DocRows(doc: Json, storeId: int, info: Members, costs: StoreCosts): Option<seq<Row>> {
    match doc
    case JObj(m) =>
      (match ReadDate(m)
       case Undated => Some([])
       case DateFails => None
       case DatedAt(t) =>
         match DocHeader(m, t, storeId, info)
         case None => None
         case Some(h) =>
           match ProductList(m)
           case None => None
           case Some(ps) => ProductRows(h, ps, costs))
    case _ => None
  }

  lemma {:induction false} ProductRowsAt(h: Header, ps: seq<Json>, costs: StoreCosts, i: int)
    requires ValidDateTime(h.stamp) && ProductRows(h, ps, costs).Some? && 0 <= i < |ps|
    ensures ProductRow(h, ps[i], costs) == Some(ProductRows(h, ps, costs).value[i])
    decreases |ps|
  {
    if i < |ps| - 1 {
      ProductRowsAt(h, ps[..|ps| - 1], costs, i);
    }
  }

  /** One more product line: its row goes at the end, or the rows fail. */
  lemma ProductRowsStep(h: Header, ps: seq<Json>, i: int, costs: StoreCosts)
    requires ValidDateTime(h.stamp) && 0 <= i < |ps|
    ensures ProductRows(h, ps[..i + 1], costs) ==
      if ProductRows(h, ps[..i], costs).Some? && ProductRow(h, ps[i], costs).Some?
      then Some(ProductRows(h, ps[..i], costs).value + [ProductRow(h, ps[i], costs).value])
      else None
  {
    assert ps[..i + 1][..i] == ps[..i];
  }

  /** Once a line raises, the whole document does. */
  lemma {:induction false} ProductRowsNone(h: Header, ps: seq<Json>, costs: StoreCosts, i: int)
    requires ValidDateTime(h.stamp) && 0 <= i <= |ps| && ProductRows(h, ps[..i], costs).None?
    ensures ProductRows(h, ps, costs).None?
    decreases |ps| - i
  {
    if i == |ps| {
      assert ps[..i] == ps;
    } else {
      assert ps[..i + 1][..i] == ps[..i];
      ProductRowsNone(h, ps, costs, i + 1);
    }
  }

  /** The literal already names every column: the defaults add nothing. */
  lemma LiteralComplete(h: Header, m: Members, costs: StoreCosts)
    requires h.seccion.JObj? && h.servicio.JObj? && h.cliente.JObj?
    requires ValidDateTime(h.stamp) && !VatDivisionFails(m)
    ensures WithDefaults(RowLiteral(h, m, costs), CsvColumns) == RowLiteral(h, m, costs)
  {
    WithDefaultsComplete(RowLiteral(h, m, costs), CsvColumns);
  }

  /** The literal's COSTE, FECHA and JORNADA values. */
  lemma FieldAtKnown(h: Header, m: Members, costs: StoreCosts)
    requires h.seccion.JObj? && h.servicio.JObj? && h.cliente.JObj?
    requires ValidDateTime(h.stamp) && !VatDivisionFails(m)
    ensures FieldAt(CosteAt, h, m, costs) == Coste(m, costs)
    ensures FieldAt(FechaAt, h, m, costs) == Raw(JStr(FmtFecha(h.stamp)))
    ensures FieldAt(JornadaAt, h, m, costs) == Raw(JStr(FmtJornada(h.stamp.date)))
  {
  }

  /** A row that is made has exactly the CSV columns, in their order,
      COSTE from the store's costs, and FECHA and JORNADA from the
      document's date. */
  lemma ProductRowSpec(h: Header, p: Json, costs: StoreCosts)
    requires ValidDateTime(h.stamp) && ProductRow(h, p, costs).Some?
    ensures p.JObj?
    ensures Columns(ProductRow(h, p, costs).value) == CsvColumns
    ensures ProductRow(h, p, costs).value[CosteAt] == ("COSTE", Coste(p.members, costs))
    ensures ProductRow(h, p, costs).value[FechaAt] == ("FECHA", Raw(JStr(FmtFecha(h.stamp))))
    ensures ProductRow(h, p, costs).value[JornadaAt] == ("JORNADA", Raw(JStr(FmtJornada(h.stamp.date))))
  {
    ColumnPositions();
    var row := RowLiteral(h, p.members, costs);
    LiteralComplete(h, p.members, costs);
    FieldAtKnown(h, p.members, costs);
    assert row[CosteAt].0 == CsvColumns[CosteAt];
    assert row[FechaAt].0 == CsvColumns[FechaAt];
    assert row[JornadaAt].0 == CsvColumns[JornadaAt];
  }

  /** make_rows_from_doc returns nothing for a document with no date; for a
      dated one it emits one row per product, each with every CSV column,
      and COSTE is the indexed unit cost exactly when the reference is not
      empty and indexed. */
  lemma DocRowsSpec(doc: Json, storeId: int, info: Members, costs: StoreCosts, i: int)
    requires DocRows(doc, storeId, info, costs).Some?
    ensures doc.JObj?
    ensures ReadDate(doc.members).Undated? ==> DocRows(doc, storeId, info, costs) == Some([])
    ensures ReadDate(doc.members).DatedAt? ==>
      |DocRows(doc, storeId, info, costs).value| == |ProductList(doc.members).value|
    ensures 0 <= i < |DocRows(doc, storeId, info, costs).value| ==>
      var row := DocRows(doc, storeId, info, costs).value[i];
      var p := ProductList(doc.members).value[i];
      p.JObj?
      && Columns(row) == CsvColumns
      && row[CosteAt] == ("COSTE", Coste(p.members, costs))
  {
    var m := doc.members;
    if ReadDate(m).DatedAt? && 0 <= i < |DocRows(doc, storeId, info, costs).value| {
      var h := DocHeader(m, ReadDate(m).stamp, storeId, info).value;
      assert ValidDateTime(h.stamp);
      var ps := ProductList(m).value;
      ProductRowsAt(h, ps, costs, i);
      ProductRowSpec(h, ps[i], costs);
    }
  }

  /** COSTE against the cost index: for a row of store s made with
      build_cost_index's map for s, COSTE is the unit cost of the latest
      usable purchase line of the line's reference in the window, or "" when
      the reference is empty or the window has no such purchase. */
  lemma CosteIsLatestPurchase(stores: seq<int>, target: Date, today: Date, fetch: Fetcher,
                              s: int, m: Members) returns (j: int)
    requires ValidDate(target) && ValidDate(today) && s in stores
    requires CostIndexOf(stores, target, today, fetch).Some?
    ensures var os := Observations(stores, target, today, fetch).value;
      var costs := CostIndexOf(stores, target, today, fetch).value[s];
      if RefKey(m) != Text("") && Observed(os, s, RefKey(m)) then
        RefKey(m) in costs &&
        Latest(os, s, RefKey(m), j, costs[RefKey(m)]) && Coste(m, costs) == Num(os[j].unit)
      else
        Coste(m, costs) == Empty
  {
    j := CostIndexLatest(stores, target, today, fetch, s, RefKey(m));
  }

  /** The setdefault loop over one row. */
  method AddDefaults(fila: Row, cols: seq<string>) returns (r: Row)
    ensures r == WithDefaults(fila, cols)
  {
    r := fila;
    for i := 0 to |cols|
      invariant WithDefaults(r, cols[i..]) == WithDefaults(fila, cols)
    {
      assert cols[i..][0] == cols[i] && cols[i..][1..] == cols[i + 1..];
      if cols[i] !in Columns(r) {
        r := r + [(cols[i], Empty)];
      }
    }
    assert cols[|cols|..] == [];
  }

  /** The body of the loop over the products: the literal, then the
      defaults; None where a .get or the VAT division raises. */
  method MakeRow(h: Header, p: Json, costs: StoreCosts) returns (fila: Option<Row>)
    requires ValidDateTime(h.stamp)
    ensures fila == ProductRow(h, p, costs)
  {
    if !p.JObj? || VatDivisionFails(p.members) || !h.seccion.JObj? || !h.servicio.JObj? || !h.cliente.JObj? {
      return None;
    }
    var row := AddDefaults(RowLiteral(h, p.members, costs), CsvColumns);
    return Some(row);
  }

  /** make_rows_from_doc: appends one row per product line. */
  method MakeRowsFromDoc(doc: Json, storeId: int, info: Members, costs: StoreCosts)
    returns (r: Option<seq<Row>>)
    ensures r == DocRows(doc, storeId, info, costs)
  {
    if !doc.JObj? {
      return None;
    }
    var m := doc.members;
    var filas: seq<Row> := [];
    match ReadDate(m) {
      case Undated =>
        return Some(filas);
      case DateFails =>
        return None;
      case DatedAt(t) =>
        var header := DocHeader(m, t, storeId, info);
        if header.None? {
          return None;
        }
        var h := header.value;
        assert ValidDateTime(h.stamp);
        var products := ProductList(m);
        if products.None? {
          return None;
        }
        var ps := products.value;
        for i := 0 to |ps|
          invariant ProductRows(h, ps[..i], costs) == Some(filas)
        {
          ProductRowsStep(h, ps, i, costs);
          var fila := MakeRow(h, ps[i], costs);
          if fila.None? {
            ProductRowsNone(h, ps, costs, i + 1);
            return None;
          }
          filas := filas + [fila.value];
        }
        assert ps[..|ps|] == ps;
        return Some(filas);
    }
  }
}
