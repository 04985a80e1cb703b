/** _parse_tiendas in daily_automation/config.py: the TIENDAS setting, a
    comma-separated list of store ids, read into a list of ints, with None
    meaning every store. */
module Config {
  import opened Text
  import opened Numbers

  /** [int(x) for x in pieces if x.strip() != ""], None when an int() raises. */
  function ParsePieces(pieces: seq<string>): Option<seq<int>>
    decreases |pieces|
  {
    if pieces == [] then Some([])
    else if Strip(pieces[0]) == "" then ParsePieces(pieces[1..])
    else
      match ParseInt(pieces[0])
      case None => None
      case Some(n) =>
        match ParsePieces(pieces[1..])
        case None => None
        case Some(ns) => Some([n] + ns)
  }

  /** _parse_tiendas(s): None for no setting, an empty one or one of white
      space only; otherwise the ids of the non-blank pieces, or None when one
      of them is not an integer. */
  function ParseTiendas(s: Option<string>): Option<seq<int>> {
    match s
    case None => None
    case Some(text) =>
      if text == "" then None
      else
        var t := Strip(text);
        if t == "" then None else ParsePieces(Split(t, ','))
  }

  /** The pieces that are not blank, in order. */
  function NonBlank(pieces: seq<string>): (r: seq<string>)
    ensures forall i :: 0 <= i < |r| ==> Strip(r[i]) != ""
    decreases |pieces|
  {
    if pieces == [] then []
    else if Strip(pieces[0]) == "" then NonBlank(pieces[1..])
    else [pieces[0]] + NonBlank(pieces[1..])
  }

  /** Every non-blank piece is an integer. */
  predicate AllIntegers(pieces: seq<string>) {
    forall i :: 0 <= i < |pieces| && Strip(pieces[i]) != "" ==> ParseInt(pieces[i]).Some?
  }

  /** A non-blank first piece that is an integer goes before the rest. */
  lemma ParsePiecesCons(pieces: seq<string>)
    requires pieces != []
    ensures Strip(pieces[0]) == "" ==> ParsePieces(pieces) == ParsePieces(pieces[1..])
    ensures Strip(pieces[0]) != "" && ParseInt(pieces[0]).None? ==> ParsePieces(pieces).None?
    ensures Strip(pieces[0]) != "" && ParseInt(pieces[0]).Some? ==>
      ParsePieces(pieces) ==
        if ParsePieces(pieces[1..]).Some?
        then Some([ParseInt(pieces[0]).value] + ParsePieces(pieces[1..]).value)
        else None
  {
  }

  /** AllIntegers of a list is that of its first piece and of the rest. */
  lemma AllIntegersCons(pieces: seq<string>)
    requires pieces != []
    ensures AllIntegers(pieces) <==>
      (Strip(pieces[0]) != "" ==> ParseInt(pieces[0]).Some?) && AllIntegers(pieces[1..])
  {
    var rest := pieces[1..];
    if AllIntegers(pieces) {
      forall i | 0 <= i < |rest| && Strip(rest[i]) != ""
        ensures ParseInt(rest[i]).Some?
      {
        assert rest[i] == pieces[i + 1];
      }
    }
    if (Strip(pieces[0]) != "" ==> ParseInt(pieces[0]).Some?) && AllIntegers(rest) {
      forall i | 0 <= i < |pieces| && Strip(pieces[i]) != ""
        ensures ParseInt(pieces[i]).Some?
      {
        if i > 0 {
          assert pieces[i] == rest[i - 1];
        }
      }
    }
  }

  /** The pieces parse exactly when every non-blank one is an integer: a bad
      piece makes the whole result None, never a partial list. */
  lemma {:induction false} ParsePiecesSome(pieces: seq<string>)
    ensures ParsePieces(pieces).Some? <==> AllIntegers(pieces)
    decreases |pieces|
  {
    if pieces != [] {
      ParsePiecesSome(pieces[1..]);
      ParsePiecesCons(pieces);
      AllIntegersCons(pieces);
    }
  }

  /** When they parse, the result is the integers of the non-blank pieces, in
      order. */
  lemma {:induction false} ParsePiecesValues(pieces: seq<string>)
    requires ParsePieces(pieces).Some?
    ensures |ParsePieces(pieces).value| == |NonBlank(pieces)|
    ensures forall i :: 0 <= i < |NonBlank(pieces)| ==>
      ParseInt(NonBlank(pieces)[i]) == Some(ParsePieces(pieces).value[i])
    decreases |pieces|
  {
    if pieces != [] {
      ParsePiecesCons(pieces);
      var rest := pieces[1..];
      if Strip(pieces[0]) == "" {
        ParsePiecesValues(rest);
      } else {
        ParsePiecesValues(rest);
        var ns := ParsePieces(rest).value;
        var kept := NonBlank(rest);
        assert NonBlank(pieces) == [pieces[0]] + kept;
        assert ParsePieces(pieces).value == [ParseInt(pieces[0]).value] + ns;
        forall i | 0 <= i < |NonBlank(pieces)|
          ensures ParseInt(NonBlank(pieces)[i]) == Some(ParsePieces(pieces).value[i])
        {
          if i > 0 {
            assert NonBlank(pieces)[i] == kept[i - 1];
          }
        }
      }
    }
  }

  /** A blank setting means every store. */
  lemma ParseTiendasBlank(s: Option<string>)
    requires s.None? || Strip(s.value) == ""
    ensures ParseTiendas(s).None?
  {
  }

  /** A setting that is not blank is split on commas and read piece by piece. */
  lemma ParseTiendasPieces(text: string)
    requires Strip(text) != ""
    ensures ParseTiendas(Some(text)) == ParsePieces(Split(Strip(text), ','))
  {
  }

  /** str() of each id. */
  function IdTexts(ns: seq<int>): (r: seq<string>)
    ensures |r| == |ns| && forall i :: 0 <= i < |ns| ==> r[i] == IntToString(ns[i])
  {
    seq(|ns|, i requires 0 <= i < |ns| => IntToString(ns[i]))
  }

  /** A join starts with its first piece's first character and ends with its
      last piece's last character. */
  lemma {:induction false} JoinEnds(parts: seq<string>, sep: char)
    requires |parts| >= 1 && forall i :: 0 <= i < |parts| ==> parts[i] != []
    ensures Join(parts, sep) != []
    ensures Join(parts, sep)[0] == parts[0][0]
    ensures Join(parts, sep)[|Join(parts, sep)| - 1] == parts[|parts| - 1][|parts[|parts| - 1]| - 1]
    decreases |parts|
  {
    if |parts| > 1 {
      JoinEnds(parts[1..], sep);
    }
  }

  /** Reading back a list of ids written as ",".join(map(str, ids)) gives
      the same ids. */
  lemma ParseTiendasRoundTrip(ns: seq<int>)
    requires |ns| >= 1
    ensures ParseTiendas(Some(Join(IdTexts(ns), ','))) == Some(ns)
  {
    JoinedIds(ns);
    ParsePiecesIds(ns);
    ParseTiendasPieces(Join(IdTexts(ns), ','));
  }

  /** The joined text has no white space at either end and splits back into
      the ids' texts. */
  lemma JoinedIds(ns: seq<int>)
    requires |ns| >= 1
    ensures var text := Join(IdTexts(ns), ',');
      text != "" && Strip(text) == text && Split(text, ',') == IdTexts(ns)
  {
    var parts := IdTexts(ns);
    JoinEnds(parts, ',');
    StripUnchanged(Join(parts, ','));
    SplitJoin(parts, ',');
  }

  /** int() reads each id's text back, and none of them is blank. */
  lemma {:induction false} ParsePiecesIds(ns: seq<int>)
    ensures ParsePieces(IdTexts(ns)) == Some(ns)
    decreases |ns|
  {
    if ns != [] {
      var parts := IdTexts(ns);
      assert parts[1..] == IdTexts(ns[1..]);
      ParsePiecesIds(ns[1..]);
      StripUnchanged(parts[0]);
      IntToStringRoundTrip(ns[0]);
      ParsePiecesCons(parts);
      assert [ns[0]] + ns[1..] == ns;
    }
  }

  /** No piece is blank: the filter keeps them all. */
  lemma {:induction false} NonBlankAll(pieces: seq<string>)
    requires forall i :: 0 <= i < |pieces| ==> Strip(pieces[i]) != ""
    ensures NonBlank(pieces) == pieces
    decreases |pieces|
  {
    if pieces != [] {
      NonBlankAll(pieces[1..]);
      assert [pieces[0]] + pieces[1..] == pieces;
    }
  }
}
