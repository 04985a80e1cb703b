/** The JSON values the purchase and sales endpoints return, as json.loads
    gives them to fetch_today.py, and the two tolerant readers the fetch
    code applies to them: pick_first_key and to_float. */
module Json {
  import opened Text
  import opened Numbers

  /** A decoded JSON value. An object is its dict's items in insertion
      order. A float keeps, beside its value, the text str() gives for it;
      the decoder fixes both. */
  datatype Json =
    | JNull
    | JBool(b: bool)
    | JInt(i: int)
    | JFloat(x: real, text: string)
    | JStr(s: string)
    | JArr(items: seq<Json>)
    | JObj(members: seq<(string, Json)>)

  type Members = seq<(string, Json)>

  /** Python's truth value of the decoded value. */
  predicate Truthy(j: Json) {
    match j
    case JNull => false
    case JBool(b) => b
    case JInt(i) => i != 0
    case JFloat(x, _) => x != 0.0
    case JStr(s) => s != ""
    case JArr(a) => a != []
    case JObj(m) => m != []
  }

  /** v in (None, ""): only null and the empty string compare equal to one of
      them; false, 0 and empty containers do not. */
  predicate Blank(j: Json) {
    j == JNull || j == JStr("")
  }

  /** d[k] when k in d, None otherwise. A dict built from items keeps the
      last value given for a key. */
  function Get(m: Members, k: string): Option<Json> {
    if m == [] then None
    else if m[|m| - 1].0 == k then Some(m[|m| - 1].1)
    else Get(m[..|m| - 1], k)
  }

  /** d.get(k), with JNull for Python's None. */
  function GetOr(m: Members, k: string): Json {
    match Get(m, k)
    case Some(v) => v
    case None => JNull
  }

  /** k.replace(" ", "").lower() */
  function Norm(k: string): string {
    Lower(RemoveAll(k, ' '))
  }

  /** norm[nk] for norm = {normalised k: v for k, v in d.items()}: the
      comprehension overwrites, so the last item whose key normalises to nk
      gives the value. */
  function NormGet(m: Members, nk: string): Option<Json> {
    if m == [] then None
    else if Norm(m[|m| - 1].0) == nk then Some(m[|m| - 1].1)
    else NormGet(m[..|m| - 1], nk)
  }

  /** A lookup that pick_first_key accepts: the key is there and its value
      is neither None nor "". */
  predicate Found(v: Option<Json>) {
    v.Some? && !Blank(v.value)
  }

  /** The first accepted lookup, in candidate order. */
  function FirstFound(vs: seq<Option<Json>>): (r: Option<Json>)
    ensures r.None? <==> forall i :: 0 <= i < |vs| ==> !Found(vs[i])
    ensures r.Some? ==> exists i :: 0 <= i < |vs| && vs[i] == r && Found(r)
                                    && forall j :: 0 <= j < i ==> !Found(vs[j])
  {
    if vs == [] then None
    else if Found(vs[0]) then vs[0]
    else
      FirstFound(vs[1..])
  }

  /** The exact lookups of the candidates, in order. */
  function ExactLookups(m: Members, cands: seq<string>): seq<Option<Json>> {
    seq(|cands|, i requires 0 <= i < |cands| => Get(m, cands[i]))
  }

  /** The normalised lookups of the candidates, in order. */
  function NormLookups(m: Members, cands: seq<string>): seq<Option<Json>> {
    seq(|cands|, i requires 0 <= i < |cands| => NormGet(m, Norm(cands[i])))
  }

  /** pick_first_key(d, *cands): the first candidate present with a value
      other than None and "", trying exact keys first and only then keys
      with spaces removed and lower-cased; JNull when there is none. */
  function PickFirstKey(m: Members, cands: seq<string>): (r: Json)
    ensures Blank(r) ==> r == JNull
  {
    match FirstFound(ExactLookups(m, cands))
    case Some(v) => v
    case None =>
      match FirstFound(NormLookups(m, cands))
      case Some(v) => v
      case None => JNull
  }

  /** An exact match wins over every normalised one: the first candidate
      present exactly with a usable value is the answer. */
  lemma PickFirstKeyExact(m: Members, cands: seq<string>, i: int)
    requires 0 <= i < |cands| && Found(Get(m, cands[i]))
    requires forall j :: 0 <= j < i ==> !Found(Get(m, cands[j]))
    ensures PickFirstKey(m, cands) == Get(m, cands[i]).value
  {
    var vs := ExactLookups(m, cands);
    assert vs[i] == Get(m, cands[i]);
    var r := FirstFound(vs);
    var k :| 0 <= k < |vs| && vs[k] == r && Found(r) && forall j :: 0 <= j < k ==> !Found(vs[j]);
    assert !(k < i) && !(i < k);
  }

  /** Without an exact match, the first candidate whose normalised key
      holds a usable value is the answer. */
  lemma PickFirstKeyNormalised(m: Members, cands: seq<string>, i: int)
    requires forall j :: 0 <= j < |cands| ==> !Found(Get(m, cands[j]))
    requires 0 <= i < |cands| && Found(NormGet(m, Norm(cands[i])))
    requires forall j :: 0 <= j < i ==> !Found(NormGet(m, Norm(cands[j])))
    ensures PickFirstKey(m, cands) == NormGet(m, Norm(cands[i])).value
  {
    var ex := ExactLookups(m, cands);
    assert forall j :: 0 <= j < |ex| ==> !Found(ex[j]);
    var vs := NormLookups(m, cands);
    assert vs[i] == NormGet(m, Norm(cands[i]));
    var r := FirstFound(vs);
    var k :| 0 <= k < |vs| && vs[k] == r && Found(r) && forall j :: 0 <= j < k ==> !Found(vs[j]);
    assert !(k < i) && !(i < k);
  }

  /** None comes back exactly when no candidate is usable either way. */
  lemma PickFirstKeyNone(m: Members, cands: seq<string>)
    ensures PickFirstKey(m, cands) == JNull <==>
      forall j :: 0 <= j < |cands| ==> !Found(Get(m, cands[j])) && !Found(NormGet(m, Norm(cands[j])))
  {
    var ex := ExactLookups(m, cands);
    var nl := NormLookups(m, cands);
    if FirstFound(ex).None? && FirstFound(nl).None? {
      forall j | 0 <= j < |cands|
        ensures !Found(Get(m, cands[j])) && !Found(NormGet(m, Norm(cands[j])))
      {
        assert ex[j] == Get(m, cands[j]) && nl[j] == NormGet(m, Norm(cands[j]));
      }
    }
  }

  /** to_float(x): None for None, "" and "NaN"; float(x) when it succeeds;
      otherwise float(str(x).replace(",", ".")), or None. Booleans and
      numbers convert directly; str() of an array or object never parses. */
  function ToFloat(x: Json): (r: Option<real>)
    ensures x == JNull || x == JStr("") || x == JStr("NaN") ==> r == None
  {
    match x
    case JNull => None
    case JBool(b) => Some(if b then 1.0 else 0.0)
    case JInt(i) => Some(i as real)
    case JFloat(v, _) => Some(v)
    case JStr(s) => if s == "" || s == "NaN" then None else StrToFloat(s)
    case JArr(_) => None
    case JObj(_) => None
  }

  /** float(s), retried as float(s.replace(",", ".")) when it fails. */
  function StrToFloat(s: string): Option<real> {
    match ParseFloat(s)
    case Some(v) => Some(v)
    case None => ParseFloat(ReplaceChar(s, ',', '.'))
  }

  /** A decimal comma is read as a decimal point on the second attempt. */
  lemma ToFloatDecimalComma(w: string, f: string)
    requires AllDigits(w) && AllDigits(f) && |w| >= 1
    ensures ToFloat(JStr(w + "," + f)) == Some(Scale(DigitsValue(w + f), |f|))
  {
    var s := w + "," + f;
    assert s[|w|] == ',';
    assert s[|s| - 1] != 'N' by {
      if f == [] {
        assert s[|s| - 1] == ',';
      } else {
        assert s[|s| - 1] == f[|f| - 1];
      }
    }
    CommaDecimal(w, f);
  }

  lemma CommaDecimal(w: string, f: string)
    requires AllDigits(w) && AllDigits(f) && |w| >= 1
    ensures StrToFloat(w + "," + f) == Some(Scale(DigitsValue(w + f), |f|))
  {
    var s := w + "," + f;
    CountOfMember(s, |w|, {','});
    CommaDefeatsParseFloat(s);
    CommaToPoint(w, f);
    ParseFloatDecimal(w, f);
  }

  lemma CommaToPoint(w: string, f: string)
    requires AllDigits(w) && AllDigits(f)
    ensures ReplaceChar(w + "," + f, ',', '.') == w + "." + f
  {
  }

  lemma {:induction false} CountOfMember(s: string, k: int, cs: set<char>)
    requires 0 <= k < |s| && s[k] in cs
    ensures Count(s, cs) >= 1
  {
    if k > 0 {
      CountOfMember(s[1..], k - 1, cs);
    }
  }

  /** float() refuses every string that holds a comma. */
  lemma CommaDefeatsParseFloat(s: string)
    requires Count(s, {','}) >= 1
    ensures ParseFloat(s) == None
  {
    var body := SignAndBody(Strip(s)).1;
    CountStrip(s, {','});
    CountSignAndBody(Strip(s), {','});
    CommaBlocksDecimal(body);
  }

  /** A string holding a comma is not a decimal literal. */
  lemma {:induction false} CommaBlocksDecimal(s: string)
    requires Count(s, {','}) >= 1
    ensures !IsUnsignedDecimal(s)
  {
    var k := CommaAt(s);
    var i := IndexOf(s, '.');
    if k < i {
      assert s[..i][k] == ',';
    } else if i < |s| {
      assert s[i + 1..][k - i - 1] == ',';
    }
  }

  /** The position of a comma in s. */
  lemma {:induction false} CommaAt(s: string) returns (k: nat)
    requires Count(s, {','}) >= 1
    ensures k < |s| && s[k] == ','
  {
    if s[0] == ',' {
      k := 0;
    } else {
      var k' := CommaAt(s[1..]);
      k := k' + 1;
    }
  }

  /** to_float reads back the decimal rendering of an int. */
  lemma ToFloatOfInteger(i: int)
    ensures ToFloat(JStr(IntToString(i))) == Some(i as real)
  {
    var s := IntToString(i);
    assert s[|s| - 1] != 'N';
    ParseFloatOfInteger(i);
  }

  /** The key str(ref) gives a reference: its text for a scalar. An array or
      object is keyed by its value in place of its repr. */
  datatype Key = Text(s: string) | Repr(j: Json)

  /** str(v) as a key. */
  function StrKey(v: Json): Key {
    match v
    case JNull => Text("None")
    case JBool(b) => Text(if b then "True" else "False")
    case JInt(i) => Text(IntToString(i))
    case JFloat(_, t) => Text(t)
    case JStr(s) => Text(s)
    case JArr(_) => Repr(v)
    case JObj(_) => Repr(v)
  }

  /** Integer references keep distinct keys, and an integer reference shares
      its key with the string reference spelling the same number. */
  lemma StrKeyOfIntegers(a: int, b: int)
    ensures StrKey(JInt(a)) == StrKey(JInt(b)) <==> a == b
    ensures StrKey(JInt(a)) == StrKey(JStr(IntToString(a)))
  {
    if StrKey(JInt(a)) == StrKey(JInt(b)) {
      IntToStringRoundTrip(a);
      IntToStringRoundTrip(b);
    }
  }

  /** An exact key holding "" does not stop the search: the normalised pass
      finds the later key that spells the same name in capitals. */
  lemma PickDateExample()
    ensures PickFirstKey([("fecha", JStr("")), ("FECHA", JStr("2025-02-03"))], ["fecha", "Fecha", "FechaReg"])
            == JStr("2025-02-03")
  {
    ExampleNoExact();
    ExampleNormLookup();
    PickFirstKeyNormalised([("fecha", JStr("")), ("FECHA", JStr("2025-02-03"))], ["fecha", "Fecha", "FechaReg"], 0);
  }

  lemma ExampleNoExact()
    ensures var m := [("fecha", JStr("")), ("FECHA", JStr("2025-02-03"))];
      var cands := ["fecha", "Fecha", "FechaReg"];
      forall j :: 0 <= j < |cands| ==> !Found(Get(m, cands[j]))
  {
    var m := [("fecha", JStr("")), ("FECHA", JStr("2025-02-03"))];
    var cands := ["fecha", "Fecha", "FechaReg"];
    ExampleExactLookups();
    forall j | 0 <= j < |cands|
      ensures !Found(Get(m, cands[j]))
    {
      assert j == 0 || j == 1 || j == 2;
    }
  }

  lemma ExampleExactLookups()
    ensures var m := [("fecha", JStr("")), ("FECHA", JStr("2025-02-03"))];
      Get(m, "fecha") == Some(JStr("")) && Get(m, "Fecha") == None && Get(m, "FechaReg") == None
  {
    var m := [("fecha", JStr("")), ("FECHA", JStr("2025-02-03"))];
    assert m[..1] == [("fecha", JStr(""))];
  }

  lemma ExampleNormLookup()
    ensures var cands := ["fecha", "Fecha", "FechaReg"];
      NormGet([("fecha", JStr("")), ("FECHA", JStr("2025-02-03"))], Norm(cands[0])) == Some(JStr("2025-02-03"))
  {
    NormOfWord("FECHA", "fecha");
    NormOfWord("fecha", "fecha");
  }

  lemma NormOfWord(k: string, lower: string)
    requires ' ' !in k && |k| == |lower|
    requires forall i :: 0 <= i < |k| ==> LowerChar(k[i]) == lower[i]
    ensures Norm(k) == lower
  {
  }
}
