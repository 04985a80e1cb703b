/** build_cost_index in fetch_today.py: the purchases of every store, from
    the first day of the current month to the target day, folded into the
    latest unit cost of each product reference per store.

    The specification is a stream of observations, one per usable purchase
    line, in the order the loops visit them (day, then store, then document,
    then line); the index is a fold over that stream. A raised exception is
    None all the way up. The methods are the loops, proved to compute the
    fold. */
module CostIndex {
  import opened Text
  import opened Dates
  import opened Json
  import opened Calendar

  /** idx[tienda][ref_str]: the timestamp of the purchase and its unit cost. */
  datatype Entry = Entry(stamp: DateTime, unit: real)

  type StoreCosts = map<Key, Entry>

  type Index = map<int, StoreCosts>

  /** What get_compras_dia(tienda, d) does: raise, or return the documents. */
  datatype Purchases = FetchFailed | Fetched(docs: seq<Json>)

  /** The purchase endpoint, as a function of the store and the day. */
  type Fetcher = (int, Date) -> Purchases

  /** One usable purchase line, as the loop body sees it. */
  datatype Obs = Obs(store: int, key: Key, stamp: DateTime, unit: real)

  const DateKeys: seq<string> := ["fecha", "Fecha", "FechaReg"]

  const QuantityKeys: seq<string> := ["can tad", "cantidad"]

  // ---------------------------------------------------------------------
  // Reading one document

  /** The date of a document: none (the document is skipped), a timestamp,
      or an exception from iso_to_dt (a date that is not a string, or text
      that no format accepts). */
  datatype DocDate = Undated | DatedAt(stamp: DateTime) | DateFails

  function ReadDate(m: Members): (r: DocDate)
    ensures r.Undated? <==> !Truthy(PickFirstKey(m, DateKeys))
    ensures r.DatedAt? ==> ValidDateTime(r.stamp)
  {
    var f := PickFirstKey(m, DateKeys);
    if !Truthy(f) then Undated
    else
      match f
      case JStr(s) => (match IsoToDt(s) case Some(t) => DatedAt(t) case None => DateFails)
      case _ => DateFails
  }

  /** doc.get("productos") or [] as the loop iterates it: a falsy value is
      no lines, a list is its items, and any other value raises (its first
      element, a character or a key, has no .get, or it is not iterable). */
  function ProductList(m: Members): (r: Option<seq<Json>>)
    ensures !Truthy(GetOr(m, "productos")) ==> r == Some([])
    ensures r.Some? && r.value != [] ==> GetOr(m, "productos") == JArr(r.value)
  {
    var v := GetOr(m, "productos");
    if !Truthy(v) then Some([])
    else
      match v
      case JArr(items) => Some(items)
      case _ => None
  }

  function Quantity(m: Members): Option<real> {
    ToFloat(PickFirstKey(m, QuantityKeys))
  }

  function Amount(m: Members): Option<real> {
    ToFloat(GetOr(m, "importe"))
  }

  /** A purchase line worth recording: a reference other than None and "",
      a quantity that parses and is not zero, and an amount that parses. */
  predicate UsableLine(m: Members) {
    !Blank(GetOr(m, "referencia"))
    && Quantity(m).Some? && Quantity(m).value != 0.0
    && Amount(m).Some?
  }

  /** What the loop body makes of one line: an exception (p.get on a value
      that is not an object), a skipped line, or a reference and unit cost. */
  datatype LineRead = LineFails | LineSkipped | LineSeen(key: Key, unit: real)

  function ReadLine(p: Json): LineRead {
    match p
    case JObj(m) =>
      var ref := GetOr(m, "referencia");
      if Blank(ref) then LineSkipped
      else
        var cant := Quantity(m);
        var imp := Amount(m);
        if cant.None? || cant.value == 0.0 || imp.None? then LineSkipped
        else LineSeen(StrKey(ref), imp.value / cant.value)
    case _ => LineFails
  }

  /** Only an object line can be read without raising, and exactly the
      usable lines are recorded, under str(ref) with importe / cantidad as
      the unit cost. */
  lemma ReadLineCases(p: Json)
    ensures ReadLine(p).LineFails? <==> !p.JObj?
    ensures ReadLine(p).LineSeen? <==> p.JObj? && UsableLine(p.members)
    ensures ReadLine(p).LineSeen? ==>
      ReadLine(p).key == StrKey(GetOr(p.members, "referencia"))
      && ReadLine(p).unit == Amount(p.members).value / Quantity(p.members).value
  {
  }

  // ---------------------------------------------------------------------
  // Streams of observations, with None for a raised exception

  predicate StoresIn(os: seq<Obs>, ks: set<int>) {
    forall i :: 0 <= i < |os| ==> os[i].store in ks
  }

  /** Running a then b: the concatenation, or None once either raises. */
  function Then(a: Option<seq<Obs>>, b: Option<seq<Obs>>): (r: Option<seq<Obs>>)
    ensures r.Some? <==> a.Some? && b.Some?
  {
    if a.Some? && b.Some? then Some(a.value + b.value) else None
  }

  /** The steps of a loop run one after the other. */
  function Chain(parts: seq<Option<seq<Obs>>>): (r: Option<seq<Obs>>)
    decreases |parts|
  {
    if parts == [] then Some([])
    else Then(Chain(parts[..|parts| - 1]), parts[|parts| - 1])
  }

  lemma ChainStep(parts: seq<Option<seq<Obs>>>, i: int)
    requires 0 <= i < |parts|
    ensures Chain(parts[..i + 1]) == Then(Chain(parts[..i]), parts[i])
  {
    assert parts[..i + 1][..i] == parts[..i];
  }

  /** Once a prefix of the steps raises, the whole loop does. */
  lemma {:induction false} ChainNone(parts: seq<Option<seq<Obs>>>, i: int)
    requires 0 <= i <= |parts| && Chain(parts[..i]).None?
    ensures Chain(parts).None?
    decreases |parts| - i
  {
    if i == |parts| {
      assert parts[..i] == parts;
    } else {
      ChainStep(parts, i);
      ChainNone(parts, i + 1);
    }
  }

  /** A loop whose every step observes only stores in ks observes only
      stores in ks. */
  lemma {:induction false} ChainStores(parts: seq<Option<seq<Obs>>>, ks: set<int>)
    requires forall i :: 0 <= i < |parts| && parts[i].Some? ==> StoresIn(parts[i].value, ks)
    ensures Chain(parts).Some? ==> StoresIn(Chain(parts).value, ks)
    decreases |parts|
  {
    if parts != [] {
      ChainStores(parts[..|parts| - 1], ks);
    }
  }

  /** Every observation of a loop is an observation of one of its steps. */
  lemma {:induction false} ChainFrom(parts: seq<Option<seq<Obs>>>, i: int) returns (j: int, k: int)
    requires Chain(parts).Some? && 0 <= i < |Chain(parts).value|
    ensures 0 <= j < |parts| && parts[j].Some?
    ensures 0 <= k < |parts[j].value| && parts[j].value[k] == Chain(parts).value[i]
    decreases |parts|
  {
    var front := Chain(parts[..|parts| - 1]).value;
    if i < |front| {
      j, k := ChainFrom(parts[..|parts| - 1], i);
    } else {
      j, k := |parts| - 1, i - |front|;
    }
  }

  function LineObs(store: int, stamp: DateTime, p: Json): (r: Option<seq<Obs>>)
    ensures r.Some? ==> StoresIn(r.value, {store})
  {
    match ReadLine(p)
    case LineFails => None
    case LineSkipped => Some([])
    case LineSeen(k, u) => Some([Obs(store, k, stamp, u)])
  }

  function LineSteps(store: int, stamp: DateTime, lines: seq<Json>): seq<Option<seq<Obs>>> {
    seq(|lines|, i requires 0 <= i < |lines| => LineObs(store, stamp, lines[i]))
  }

  /** The lines of one dated document. */
  function LinesObs(store: int, stamp: DateTime, lines: seq<Json>): (r: Option<seq<Obs>>)
    ensures r.Some? ==> StoresIn(r.value, {store})
  {
    ChainStores(LineSteps(store, stamp, lines), {store});
    Chain(LineSteps(store, stamp, lines))
  }

  /** One document: a document that is not an object raises in
      pick_first_key, an undated one is skipped before its products are
      looked at. */
  function DocObs(store: int, doc: Json): (r: Option<seq<Obs>>)
    ensures r.Some? ==> StoresIn(r.value, {store})
    ensures doc.JObj? && ReadDate(doc.members).Undated? ==> r == Some([])
  {
    match doc
    case JObj(m) =>
      (match ReadDate(m)
       case Undated => Some([])
       case DateFails => None
       case DatedAt(t) =>
         match ProductList(m)
         case None => None
         case Some(ps) => LinesObs(store, t, ps))
    case _ => None
  }

  function DocSteps(store: int, docs: seq<Json>): seq<Option<seq<Obs>>> {
    seq(|docs|, i requires 0 <= i < |docs| => DocObs(store, docs[i]))
  }

  function DocsObs(store: int, docs: seq<Json>): (r: Option<seq<Obs>>)
    ensures r.Some? ==> StoresIn(r.value, {store})
  {
    ChainStores(DocSteps(store, docs), {store});
    Chain(DocSteps(store, docs))
  }

  /** One (day, store) pair: a fetch that raises is skipped and contributes
      nothing, which keeps the other pairs' observations as they are. */
  function PairObs(store: int, day: Date, fetch: Fetcher): (r: Option<seq<Obs>>)
    ensures r.Some? ==> StoresIn(r.value, {store})
    ensures fetch(store, day).FetchFailed? ==> r == Some([])
  {
    match fetch(store, day)
    case FetchFailed => Some([])
    case Fetched(docs) => DocsObs(store, docs)
  }

  function PairSteps(day: Date, stores: seq<int>, fetch: Fetcher): seq<Option<seq<Obs>>> {
    seq(|stores|, j requires 0 <= j < |stores| => PairObs(stores[j], day, fetch))
  }

  function DayObs(day: Date, stores: seq<int>, fetch: Fetcher): (r: Option<seq<Obs>>)
    ensures r.Some? ==> StoresIn(r.value, set s | s in stores)
  {
    ChainStores(PairSteps(day, stores, fetch), set s | s in stores);
    Chain(PairSteps(day, stores, fetch))
  }

  function DaySteps(days: seq<Date>, stores: seq<int>, fetch: Fetcher): seq<Option<seq<Obs>>> {
    seq(|days|, i requires 0 <= i < |days| => DayObs(days[i], stores, fetch))
  }

  /** Every usable purchase line of the month-to-date window, in scan order:
      the window runs from the first day of today's month, whatever the
      target's month, to the target day. */
  function Observations(stores: seq<int>, target: Date, today: Date, fetch: Fetcher): (r: Option<seq<Obs>>)
    requires ValidDate(target) && ValidDate(today)
    ensures r.Some? ==> StoresIn(r.value, set s | s in stores)
  {
    var steps := DaySteps(DaysFrom(FirstOfMonth(today), target), stores, fetch);
    ChainStores(steps, set s | s in stores);
    Chain(steps)
  }

  // ---------------------------------------------------------------------
  // The fold

  /** {tid: {} for tid in tienda_ids} */
  function Init(stores: seq<int>): (idx: Index)
    ensures idx.Keys == set s | s in stores
    ensures forall s :: s in idx ==> idx[s] == map[]
  {
    map s | s in stores :: map[]
  }

  /** One line's update: the entry is replaced when there is none or when
      the new timestamp is not earlier than the stored one. */
  function Record(idx: Index, o: Obs): (r: Index)
    requires o.store in idx
    ensures r.Keys == idx.Keys
  {
    var costs := idx[o.store];
    if o.key !in costs || NotBefore(o.stamp, costs[o.key].stamp) then
      idx[o.store := costs[o.key := Entry(o.stamp, o.unit)]]
    else idx
  }

  /** Record touches the entry of (o.store, o.key) and nothing else; the
      stored timestamp never goes down, and what is stored is never earlier
      than the line. */
  lemma RecordEffect(idx: Index, o: Obs)
    requires o.store in idx
    ensures forall s :: s in idx && s != o.store ==> Record(idx, o)[s] == idx[s]
    ensures Record(idx, o)[o.store].Keys == idx[o.store].Keys + {o.key}
    ensures forall k :: k in idx[o.store] && k != o.key ==> Record(idx, o)[o.store][k] == idx[o.store][k]
    ensures Record(idx, o)[o.store][o.key] == Entry(o.stamp, o.unit)
            || (o.key in idx[o.store] && Record(idx, o)[o.store][o.key] == idx[o.store][o.key])
    ensures NotBefore(Record(idx, o)[o.store][o.key].stamp, o.stamp)
    ensures o.key in idx[o.store] ==>
      NotBefore(Record(idx, o)[o.store][o.key].stamp, idx[o.store][o.key].stamp)
  {
    NotBeforeOrder(o.stamp, o.stamp, o.stamp);
    if o.key in idx[o.store] {
      NotBeforeOrder(o.stamp, idx[o.store][o.key].stamp, o.stamp);
    }
  }

  function Fold(idx: Index, os: seq<Obs>): (r: Index)
    requires StoresIn(os, idx.Keys)
    ensures r.Keys == idx.Keys
    decreases |os|
  {
    if os == [] then idx
    else Record(Fold(idx, os[..|os| - 1]), os[|os| - 1])
  }

  /** The fold over a stream that may have raised. */
  function Run(idx: Index, os: Option<seq<Obs>>): Option<Index>
    requires os.Some? ==> StoresIn(os.value, idx.Keys)
  {
    match os
    case None => None
    case Some(v) => Some(Fold(idx, v))
  }

  /** build_cost_index(tienda_ids, target_day) on the day today: None when
      an exception escapes it. */
  function CostIndexOf(stores: seq<int>, target: Date, today: Date, fetch: Fetcher): Option<Index>
    requires ValidDate(target) && ValidDate(today)
  {
    Run(Init(stores), Observations(stores, target, today, fetch))
  }

  lemma {:induction false} FoldAppend(idx: Index, a: seq<Obs>, b: seq<Obs>)
    requires StoresIn(a, idx.Keys) && StoresIn(b, idx.Keys)
    ensures StoresIn(a + b, idx.Keys)
    ensures Fold(idx, a + b) == Fold(Fold(idx, a), b)
    decreases |b|
  {
    if b == [] {
      assert a + b == a;
    } else {
      FoldAppend(idx, a, b[..|b| - 1]);
      assert (a + b)[..|a + b| - 1] == a + b[..|b| - 1];
    }
  }

  /** The stored timestamps never decrease as the fold goes on, and an
      entry once made is never removed: what the first n observations leave
      for (s, k) is still there, or later, after all of them. */
  lemma {:induction false} FoldMonotone(idx: Index, os: seq<Obs>, n: int, s: int, k: Key)
    requires StoresIn(os, idx.Keys) && 0 <= n <= |os|
    requires s in idx && k in Fold(idx, os[..n])[s]
    ensures k in Fold(idx, os)[s]
    ensures NotBefore(Fold(idx, os)[s][k].stamp, Fold(idx, os[..n])[s][k].stamp)
    decreases |os|
  {
    var first := Fold(idx, os[..n])[s][k].stamp;
    if n == |os| {
      assert os[..n] == os;
      NotBeforeOrder(first, first, first);
    } else {
      var front := os[..|os| - 1];
      assert front[..n] == os[..n];
      FoldMonotone(idx, front, n, s, k);
      var prev := Fold(idx, front);
      var last := os[|os| - 1];
      assert Fold(idx, os) == Record(prev, last);
      RecordEffect(prev, last);
      var now := Record(prev, last)[s][k].stamp;
      NotBeforeOrder(now, prev[s][k].stamp, first);
    }
  }

  predicate Hits(o: Obs, s: int, k: Key) {
    o.store == s && o.key == k
  }

  /** Some observation of os is of (s, k). */
  predicate Observed(os: seq<Obs>, s: int, k: Key) {
    exists i :: 0 <= i < |os| && Hits(os[i], s, k)
  }

  /** The observations of os are those of all but its last, and its last. */
  lemma ObservedLast(os: seq<Obs>, s: int, k: Key)
    requires os != []
    ensures Observed(os, s, k) <==> Observed(os[..|os| - 1], s, k) || Hits(os[|os| - 1], s, k)
  {
    var front := os[..|os| - 1];
    if Observed(os, s, k) && !Hits(os[|os| - 1], s, k) {
      var i :| 0 <= i < |os| && Hits(os[i], s, k);
      assert os[i] == front[i];
    }
    if Observed(front, s, k) {
      var i :| 0 <= i < |front| && Hits(front[i], s, k);
      assert os[i] == front[i];
    }
  }

  /** Observation j is the one whose values the entry e holds: no
      observation of (s, k) is later than it, and every one scanned after it
      is strictly earlier. */
  predicate Latest(os: seq<Obs>, s: int, k: Key, j: int, e: Entry) {
    0 <= j < |os| && Hits(os[j], s, k) && e == Entry(os[j].stamp, os[j].unit)
    && (forall i :: 0 <= i < |os| && Hits(os[i], s, k) ==> NotBefore(os[j].stamp, os[i].stamp))
    && (forall i :: j < i < |os| && Hits(os[i], s, k) ==> !NotBefore(os[i].stamp, os[j].stamp))
  }

  /** Fold(idx, front + [o]) is one Record after Fold(idx, front). */
  lemma FoldLast(idx: Index, os: seq<Obs>)
    requires StoresIn(os, idx.Keys) && os != []
    ensures StoresIn(os[..|os| - 1], idx.Keys)
    ensures Fold(idx, os) == Record(Fold(idx, os[..|os| - 1]), os[|os| - 1])
  {
    assert os != [];
  }

  /** From empty per-store maps, (s, k) has an entry exactly when some
      observation is of (s, k). */
  lemma {:induction false} FoldHas(idx: Index, os: seq<Obs>, s: int, k: Key)
    requires StoresIn(os, idx.Keys) && s in idx && idx[s] == map[]
    ensures k in Fold(idx, os)[s] <==> Observed(os, s, k)
    decreases |os|
  {
    if os != [] {
      var front := os[..|os| - 1];
      var o := os[|os| - 1];
      FoldLast(idx, os);
      FoldHas(idx, front, s, k);
      RecordEffect(Fold(idx, front), o);
      ObservedLast(os, s, k);
    }
  }

  /** ... and the entry is that of observation j, the one with the latest
      timestamp, the last scanned among equals. */
  lemma {:induction false} FoldLatest(idx: Index, os: seq<Obs>, s: int, k: Key) returns (j: int)
    requires StoresIn(os, idx.Keys) && s in idx && idx[s] == map[]
    requires k in Fold(idx, os)[s]
    ensures Latest(os, s, k, j, Fold(idx, os)[s][k])
    decreases |os|
  {
    var front := os[..|os| - 1];
    var o := os[|os| - 1];
    FoldLast(idx, os);
    var prev := Fold(idx, front);
    RecordEffect(prev, o);
    if !Hits(o, s, k) {
      j := FoldLatest(idx, front, s, k);
      LatestKeep(os, s, k, j, prev[s][k]);
    } else if k in prev[s] {
      var j0 := FoldLatest(idx, front, s, k);
      LatestStep(os, s, k, j0, prev[s][k]);
      j := if NotBefore(o.stamp, prev[s][k].stamp) then |front| else j0;
    } else {
      FoldHas(idx, front, s, k);
      FirstHit(os, s, k);
      j := |front|;
    }
  }

  lemma LatestKeep(os: seq<Obs>, s: int, k: Key, j: int, e: Entry)
    requires os != [] && !Hits(os[|os| - 1], s, k) && Latest(os[..|os| - 1], s, k, j, e)
    ensures Latest(os, s, k, j, e)
  {
    var front := os[..|os| - 1];
    assert forall i :: 0 <= i < |front| ==> os[i] == front[i];
  }

  lemma FirstHit(os: seq<Obs>, s: int, k: Key)
    requires os != [] && Hits(os[|os| - 1], s, k) && !Observed(os[..|os| - 1], s, k)
    ensures Latest(os, s, k, |os| - 1, Entry(os[|os| - 1].stamp, os[|os| - 1].unit))
  {
    var front := os[..|os| - 1];
    var o := os[|os| - 1];
    NotBeforeOrder(o.stamp, o.stamp, o.stamp);
    assert forall i :: 0 <= i < |front| ==> os[i] == front[i] && !Hits(os[i], s, k);
  }

  lemma LatestStep(os: seq<Obs>, s: int, k: Key, j: int, e: Entry)
    requires os != [] && Hits(os[|os| - 1], s, k) && Latest(os[..|os| - 1], s, k, j, e)
    ensures NotBefore(os[|os| - 1].stamp, e.stamp) ==>
      Latest(os, s, k, |os| - 1, Entry(os[|os| - 1].stamp, os[|os| - 1].unit))
    ensures !NotBefore(os[|os| - 1].stamp, e.stamp) ==> Latest(os, s, k, j, e)
  {
    var front := os[..|os| - 1];
    var o := os[|os| - 1];
    assert forall i :: 0 <= i < |front| ==> os[i] == front[i];
    if NotBefore(o.stamp, e.stamp) {
      forall i | 0 <= i < |os| && Hits(os[i], s, k)
        ensures NotBefore(o.stamp, os[i].stamp)
      {
        NotBeforeOrder(o.stamp, e.stamp, os[i].stamp);
      }
    } else {
      NotBeforeOrder(o.stamp, e.stamp, e.stamp);
    }
  }

  /** The index build_cost_index returns has one map per requested store;
      a (store, reference) pair has an entry exactly when the window holds a
      usable purchase line for it, and the entry is that of the latest such
      line (j), the last scanned among lines with the same timestamp. */
  lemma CostIndexLatest(stores: seq<int>, target: Date, today: Date, fetch: Fetcher, s: int, k: Key)
    returns (j: int)
    requires ValidDate(target) && ValidDate(today)
    requires CostIndexOf(stores, target, today, fetch).Some?
    ensures CostIndexOf(stores, target, today, fetch).value.Keys == set x | x in stores
    ensures s in stores ==>
      (k in CostIndexOf(stores, target, today, fetch).value[s]
       <==> Observed(Observations(stores, target, today, fetch).value, s, k))
    ensures s in stores && k in CostIndexOf(stores, target, today, fetch).value[s] ==>
      Latest(Observations(stores, target, today, fetch).value, s, k, j,
             CostIndexOf(stores, target, today, fetch).value[s][k])
  {
    j := 0;
    var os := Observations(stores, target, today, fetch).value;
    if s in stores {
      FoldHas(Init(stores), os, s, k);
      if k in Fold(Init(stores), os)[s] {
        j := FoldLatest(Init(stores), os, s, k);
      }
    }
  }

  /** A target day before the first of today's month leaves the window
      empty: every store gets an empty map, whatever the endpoint returns. */
  lemma TargetBeforeWindow(stores: seq<int>, target: Date, today: Date, fetch: Fetcher)
    requires ValidDate(target) && ValidDate(today)
    requires DateBefore(target, FirstOfMonth(today))
    ensures CostIndexOf(stores, target, today, fetch) == Some(Init(stores))
  {
  }

  /** Every observation of a document's lines comes from a line the loop
      body accepts, and carries its reference key and unit cost: an unusable
      line never reaches the index. */
  lemma LinesObsFrom(store: int, stamp: DateTime, lines: seq<Json>, i: int)
    requires LinesObs(store, stamp, lines).Some? && 0 <= i < |LinesObs(store, stamp, lines).value|
    ensures var o := LinesObs(store, stamp, lines).value[i];
      o.store == store && o.stamp == stamp
      && exists j :: 0 <= j < |lines| && lines[j].JObj? && UsableLine(lines[j].members)
                     && ReadLine(lines[j]) == LineSeen(o.key, o.unit)
  {
    var j, k := ChainFrom(LineSteps(store, stamp, lines), i);
    ReadLineCases(lines[j]);
  }

  // ---------------------------------------------------------------------
  // The loops

  /** One step of a loop over steps: the step either raises, and so does
      the loop, or its observations extend those so far. */
  lemma ChainAdvance(idx0: Index, steps: seq<Option<seq<Obs>>>, i: int, seen: seq<Obs>,
                     next: Option<Index>, ks: set<int>)
    requires 0 <= i < |steps| && Chain(steps[..i]) == Some(seen)
    requires ks <= idx0.Keys && StoresIn(seen, ks)
    requires steps[i].Some? ==> StoresIn(steps[i].value, ks)
    requires next == Run(Fold(idx0, seen), steps[i])
    ensures next.None? ==> Chain(steps).None?
    ensures next.Some? ==>
      steps[i].Some?
      && Chain(steps[..i + 1]) == Some(seen + steps[i].value)
      && StoresIn(seen + steps[i].value, ks)
      && next.value == Fold(idx0, seen + steps[i].value)
  {
    ChainStep(steps, i);
    if next.None? {
      ChainNone(steps, i + 1);
    } else {
      FoldAppend(idx0, seen, steps[i].value);
    }
  }

  /** The body of the loop over a document's lines: read the line, then
      store its cost unless the stored one is later. */
  method ScanLine(idx: Index, store: int, stamp: DateTime, p: Json) returns (r: Option<Index>)
    requires store in idx
    ensures r == Run(idx, LineObs(store, stamp, p))
  {
    match ReadLine(p) {
      case LineFails =>
        return None;
      case LineSkipped =>
        return Some(idx);
      case LineSeen(key, unit) =>
        var costs := idx[store];
        var next := idx;
        if key !in costs || NotBefore(stamp, costs[key].stamp) {
          next := idx[store := costs[key := Entry(stamp, unit)]];
        }
        var o := Obs(store, key, stamp, unit);
        assert [o][..0] == [];
        assert next == Record(idx, o) == Fold(idx, [o]);
        return Some(next);
    }
  }

  /** for p in productos: ... */
  method ScanLines(idx0: Index, store: int, stamp: DateTime, lines: seq<Json>) returns (r: Option<Index>)
    requires store in idx0
    ensures r == Run(idx0, LinesObs(store, stamp, lines))
  {
    var idx := idx0;
    ghost var steps := LineSteps(store, stamp, lines);
    ghost var seen: seq<Obs> := [];
    for i := 0 to |lines|
      invariant Chain(steps[..i]) == Some(seen)
      invariant StoresIn(seen, {store})
      invariant idx == Fold(idx0, seen)
    {
      var next := ScanLine(idx, store, stamp, lines[i]);
      ChainAdvance(idx0, steps, i, seen, next, {store});
      if next.None? {
        return None;
      }
      idx := next.value;
      seen := seen + steps[i].value;
    }
    assert steps[..|lines|] == steps;
    return Some(idx);
  }

  /** The body of the loop over one day's documents for a store: the date,
      then the lines. */
  method ScanDoc(idx: Index, store: int, doc: Json) returns (r: Option<Index>)
    requires store in idx
    ensures r == Run(idx, DocObs(store, doc))
  {
    match doc {
      case JObj(m) =>
        match ReadDate(m) {
          case Undated =>
            return Some(idx);
          case DateFails =>
            return None;
          case DatedAt(t) =>
            match ProductList(m) {
              case None =>
                return None;
              case Some(ps) =>
                r := ScanLines(idx, store, t, ps);
            }
        }
      case _ =>
        return None;
    }
  }

  /** for doc in docs: ... */
  method ScanDocs(idx0: Index, store: int, docs: seq<Json>) returns (r: Option<Index>)
    requires store in idx0
    ensures r == Run(idx0, DocsObs(store, docs))
  {
    var idx := idx0;
    ghost var steps := DocSteps(store, docs);
    ghost var seen: seq<Obs> := [];
    for i := 0 to |docs|
      invariant Chain(steps[..i]) == Some(seen)
      invariant StoresIn(seen, {store})
      invariant idx == Fold(idx0, seen)
    {
      var next := ScanDoc(idx, store, docs[i]);
      ChainAdvance(idx0, steps, i, seen, next, {store});
      if next.None? {
        return None;
      }
      idx := next.value;
      seen := seen + steps[i].value;
    }
    assert steps[..|docs|] == steps;
    return Some(idx);
  }

  /** for tienda in tienda_ids: one day's purchases of every store; a store
      whose fetch raises is skipped. */
  method ScanDay(idx0: Index, day: Date, stores: seq<int>, fetch: Fetcher) returns (r: Option<Index>)
    requires forall s :: s in stores ==> s in idx0
    ensures r == Run(idx0, DayObs(day, stores, fetch))
  {
    var idx := idx0;
    ghost var ks := set s | s in stores;
    ghost var steps := PairSteps(day, stores, fetch);
    ghost var seen: seq<Obs> := [];
    for j := 0 to |stores|
      invariant Chain(steps[..j]) == Some(seen)
      invariant StoresIn(seen, ks)
      invariant idx == Fold(idx0, seen)
    {
      var next: Option<Index>;
      match fetch(stores[j], day) {
        case FetchFailed =>
          next := Some(idx);
        case Fetched(docs) =>
          next := ScanDocs(idx, stores[j], docs);
      }
      assert seen + [] == seen;
      ChainAdvance(idx0, steps, j, seen, next, ks);
      if next.None? {
        return None;
      }
      idx := next.value;
      seen := seen + steps[j].value;
    }
    assert steps[..|stores|] == steps;
    return Some(idx);
  }

  /** build_cost_index(tienda_ids, target_day), with today and the purchase
      endpoint as parameters. */
  method BuildCostIndex(stores: seq<int>, target: Date, today: Date, fetch: Fetcher) returns (r: Option<Index>)
    requires ValidDate(target) && ValidDate(today)
    ensures r == CostIndexOf(stores, target, today, fetch)
  {
    var start := FirstOfMonth(today);
    var idx := Init(stores);
    ghost var idx0 := idx;
    var days := Daterange(start, target);
    ghost var steps := DaySteps(days, stores, fetch);
    ghost var seen: seq<Obs> := [];
    for i := 0 to |days|
      invariant Chain(steps[..i]) == Some(seen)
      invariant StoresIn(seen, idx0.Keys)
      invariant idx == Fold(idx0, seen)
    {
      var next := ScanDay(idx, days[i], stores, fetch);
      ChainAdvance(idx0, steps, i, seen, next, idx0.Keys);
      if next.None? {
        return None;
      }
      idx := next.value;
      seen := seen + steps[i].value;
    }
    assert steps[..|days|] == steps;
    return Some(idx);
  }
}
