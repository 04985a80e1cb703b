/** Python's naive date and datetime values (without microseconds), the
    proleptic Gregorian calendar, adding one day, and the part of
    datetime.strptime and datetime.fromisoformat that the model uses. */
module Dates {
  import opened Text

  datatype Date = Date(year: int, month: int, day: int)
  datatype DateTime = DateTime(date: Date, hour: int, minute: int, second: int)

  predicate IsLeap(y: int) {
    y % 4 == 0 && (y % 100 != 0 || y % 400 == 0)
  }

  function DaysInMonth(y: int, m: int): (n: int)
    requires 1 <= m <= 12
    ensures 28 <= n <= 31
  {
    if m == 2 then (if IsLeap(y) then 29 else 28)
    else if m == 4 || m == 6 || m == 9 || m == 11 then 30
    else 31
  }

  /** A date Python can construct (the upper year bound 9999 is not modelled). */
  predicate ValidDate(d: Date) {
    1 <= d.year && 1 <= d.month <= 12 && 1 <= d.day <= DaysInMonth(d.year, d.month)
  }

  predicate ValidDateTime(t: DateTime) {
    ValidDate(t.date) && 0 <= t.hour < 24 && 0 <= t.minute < 60 && 0 <= t.second < 60
  }

  /** a < b for dates. */
  predicate DateBefore(a: Date, b: Date) {
    if a.year != b.year then a.year < b.year
    else if a.month != b.month then a.month < b.month
    else a.day < b.day
  }

  /** a <= b for dates. */
  predicate DateAtMost(a: Date, b: Date) {
    !DateBefore(b, a)
  }

  /** Seconds on a timeline that keeps the calendar order of valid
      datetimes: days are Rank apart, and a day has 86400 seconds. */
  function Instant(t: DateTime): int {
    Rank(t.date) * 86400 + t.hour * 3600 + t.minute * 60 + t.second
  }

  /** a >= b for datetimes: later on the timeline, or the same moment. */
  predicate NotBefore(a: DateTime, b: DateTime) {
    Instant(a) >= Instant(b)
  }

  /** Python compares naive datetimes field by field, most significant
      first. */
  predicate NotBeforeByFields(a: DateTime, b: DateTime) {
    if a.date != b.date then DateBefore(b.date, a.date)
    else if a.hour != b.hour then a.hour > b.hour
    else if a.minute != b.minute then a.minute > b.minute
    else a.second >= b.second
  }

  /** On valid datetimes the timeline order is Python's comparison, and
      only equal datetimes share an instant. */
  lemma NotBeforeIsFieldOrder(a: DateTime, b: DateTime)
    requires ValidDateTime(a) && ValidDateTime(b)
    ensures NotBefore(a, b) <==> NotBeforeByFields(a, b)
    ensures Instant(a) == Instant(b) ==> a == b
  {
    RankOrder(a.date, b.date);
    RankOrder(b.date, a.date);
  }

  /** NotBefore is a total preorder. */
  lemma NotBeforeOrder(a: DateTime, b: DateTime, c: DateTime)
    ensures NotBefore(a, a)
    ensures NotBefore(a, b) || NotBefore(b, a)
    ensures NotBefore(a, b) && NotBefore(b, c) ==> NotBefore(a, c)
  {
  }

  /** d + timedelta(days=1). */
  function NextDay(d: Date): (r: Date)
    requires ValidDate(d)
    ensures ValidDate(r) && DateBefore(d, r)
  {
    if d.day < DaysInMonth(d.year, d.month) then Date(d.year, d.month, d.day + 1)
    else if d.month < 12 then Date(d.year, d.month + 1, 1)
    else Date(d.year + 1, 1, 1)
  }

  /** d - timedelta(days=1). */
  function PrevDay(d: Date): (r: Date)
    requires ValidDate(d) && d != Date(1, 1, 1)
    ensures ValidDate(r) && NextDay(r) == d
  {
    if d.day > 1 then Date(d.year, d.month, d.day - 1)
    else if d.month > 1 then Date(d.year, d.month - 1, DaysInMonth(d.year, d.month - 1))
    else Date(d.year - 1, 12, 31)
  }

  /** A number that grows with the calendar order of valid dates; used to
      bound loops over day ranges. */
  function Rank(d: Date): int {
    d.year * 372 + d.month * 31 + d.day
  }

  lemma RankOrder(a: Date, b: Date)
    requires ValidDate(a) && ValidDate(b)
    ensures DateBefore(a, b) ==> Rank(a) < Rank(b)
    ensures DateAtMost(a, b) ==> Rank(a) <= Rank(b)
  {
  }

  /** There is no valid date strictly between d and the day after it. */
  lemma NoDayBetween(d: Date, x: Date)
    requires ValidDate(d) && ValidDate(x)
    requires DateBefore(d, x)
    ensures DateAtMost(NextDay(d), x)
  {
  }

  // ---------------------------------------------------------------------
  // strptime: the directives %Y %m %d %H %M %S, literal characters and a
  // format space (which strptime turns into "one or more white space").

  datatype FieldKind = YearField | MonthField | DayField | HourField | MinuteField | SecondField

  /** A format element. A field is a run of ASCII digits: four for the year;
      one or two for the others under strptime, exactly two when strict
      (fromisoformat). Literal letters match regardless of case, as
      strptime's pattern is case-insensitive. */
  datatype Directive = Field(kind: FieldKind, strict: bool) | Lit(c: char) | Gap

  datatype Fields = Fields(year: int, month: int, day: int, hour: int, minute: int, second: int)

  /** strptime's defaults for absent fields. */
  const NoFields := Fields(1900, 1, 1, 0, 0, 0)

  function SetField(f: Fields, k: FieldKind, v: int): Fields {
    match k
    case YearField => f.(year := v)
    case MonthField => f.(month := v)
    case DayField => f.(day := v)
    case HourField => f.(hour := v)
    case MinuteField => f.(minute := v)
    case SecondField => f.(second := v)
  }

  predicate WidthOk(k: FieldKind, strict: bool, n: nat) {
    if k == YearField then n == 4 else if strict then n == 2 else 1 <= n <= 2
  }

  /** Length of the run of white space that starts s. */
  function SpaceRun(s: string): (n: nat)
    ensures n <= |s|
  {
    if s != [] && IsSpace(s[0]) then SpaceRun(s[1..]) + 1 else 0
  }

  /** strptime's %d also takes a space and one digit from 1 to 9, not
      followed by another digit. */
  predicate SpacedDigit(s: string) {
    |s| >= 2 && s[0] == ' ' && '1' <= s[1] <= '9' && (|s| == 2 || !IsDigit(s[2]))
  }

  /** Matches the whole of s against fmt, collecting field values. A field
      takes the whole digit run in front of it: every field in the formats
      used here is followed by a non-digit or by the end, so this agrees
      with strptime's backtracking pattern. */
  function Match(s: string, fmt: seq<Directive>, acc: Fields): Option<Fields>
    decreases |fmt|
  {
    if fmt == [] then (if s == [] then Some(acc) else None)
    else match fmt[0]
      case Lit(c) =>
        if s != [] && LowerChar(s[0]) == LowerChar(c) then Match(s[1..], fmt[1..], acc) else None
      case Gap =>
        var n := SpaceRun(s);
        if n == 0 then None else Match(s[n..], fmt[1..], acc)
      case Field(k, strict) =>
        if k == DayField && !strict && SpacedDigit(s) then
          Match(s[2..], fmt[1..], SetField(acc, k, DigitsValue(s[1..2])))
        else
          var n := DigitRun(s);
          if WidthOk(k, strict, n) then Match(s[n..], fmt[1..], SetField(acc, k, DigitsValue(s[..n])))
          else None
  }

  function ToDateTime(f: Fields): (r: Option<DateTime>)
    ensures r.Some? ==> ValidDateTime(r.value)
  {
    var t := DateTime(Date(f.year, f.month, f.day), f.hour, f.minute, f.second);
    if ValidDateTime(t) then Some(t) else None
  }

  /** datetime.strptime(s, fmt), or None where it raises ValueError. */
  function Strptime(s: string, fmt: seq<Directive>): (r: Option<DateTime>)
    ensures r.Some? ==> ValidDateTime(r.value)
  {
    match Match(s, fmt, NoFields)
    case None => None
    case Some(f) => ToDateTime(f)
  }

  const DMY: seq<Directive> :=
    [Field(DayField, false), Lit('/'), Field(MonthField, false), Lit('/'), Field(YearField, false)]
  const YMD: seq<Directive> :=
    [Field(YearField, false), Lit('-'), Field(MonthField, false), Lit('-'), Field(DayField, false)]
  const HM: seq<Directive> := [Field(HourField, false), Lit(':'), Field(MinuteField, false)]
  const HMS: seq<Directive> := HM + [Lit(':'), Field(SecondField, false)]

  const IsoDateStrict: seq<Directive> :=
    [Field(YearField, true), Lit('-'), Field(MonthField, true), Lit('-'), Field(DayField, true)]
  const IsoTimeH: seq<Directive> := [Field(HourField, true)]
  const IsoTimeHM: seq<Directive> := IsoTimeH + [Lit(':'), Field(MinuteField, true)]
  const IsoTimeHMS: seq<Directive> := IsoTimeHM + [Lit(':'), Field(SecondField, true)]

  function FirstTime(s: string, fmts: seq<seq<Directive>>): (r: Option<Fields>) {
    if fmts == [] then None
    else match Match(s, fmts[0], NoFields)
      case Some(f) => Some(f)
      case None => FirstTime(s, fmts[1..])
  }

  /** datetime.fromisoformat(s) for the forms YYYY-MM-DD and YYYY-MM-DD*HH,
      *HH:MM or *HH:MM:SS, where * is any one character (fractions of a
      second and UTC offsets are not modelled). */
  function FromIsoFormat(s: string): (r: Option<DateTime>)
    ensures r.Some? ==> ValidDateTime(r.value)
  {
    if |s| < 10 then None
    else match Match(s[..10], IsoDateStrict, NoFields)
      case None => None
      case Some(d) =>
        if |s| == 10 then ToDateTime(d)
        else match FirstTime(s[11..], [IsoTimeHMS, IsoTimeHM, IsoTimeH])
          case None => None
          case Some(t) => ToDateTime(d.(hour := t.hour, minute := t.minute, second := t.second))
  }

  // ---------------------------------------------------------------------
  // Steps of Match, used to read back strings built from known pieces.

  lemma MatchLit(c: char, rest: string, fmt: seq<Directive>, acc: Fields)
    ensures Match([c] + rest, [Lit(c)] + fmt, acc) == Match(rest, fmt, acc)
  {
    assert ([c] + rest)[1..] == rest;
    assert ([Lit(c)] + fmt)[1..] == fmt;
  }

  lemma MatchGap(rest: string, fmt: seq<Directive>, acc: Fields)
    requires rest == [] || !IsSpace(rest[0])
    ensures Match([' '] + rest, [Gap] + fmt, acc) == Match(rest, fmt, acc)
  {
    var s := [' '] + rest;
    assert s[1..] == rest;
    assert SpaceRun(s) == 1;
    assert ([Gap] + fmt)[1..] == fmt;
  }

  lemma MatchField(digits: string, rest: string, k: FieldKind, strict: bool, fmt: seq<Directive>, acc: Fields)
    requires AllDigits(digits) && WidthOk(k, strict, |digits|)
    requires rest == [] || !IsDigit(rest[0])
    ensures Match(digits + rest, [Field(k, strict)] + fmt, acc)
         == Match(rest, fmt, SetField(acc, k, DigitsValue(digits)))
  {
    DigitRunOfPrefix(digits, rest);
    var s := digits + rest;
    assert s[..|digits|] == digits && s[|digits|..] == rest;
    assert ([Field(k, strict)] + fmt)[1..] == fmt;
  }

  /** "%d" on a space and one digit. */
  lemma MatchSpacedDay(c: char, rest: string, fmt: seq<Directive>, acc: Fields)
    requires '1' <= c <= '9'
    requires rest == [] || !IsDigit(rest[0])
    ensures Match([' ', c] + rest, [Field(DayField, false)] + fmt, acc)
         == Match(rest, fmt, acc.(day := c as int - '0' as int))
  {
    var s := [' ', c] + rest;
    assert SpacedDigit(s);
    assert s[2..] == rest && s[1..2] == [c];
    assert DigitsValue([c]) == c as int - '0' as int by {
      assert [c][..0] == [];
    }
    assert ([Field(DayField, false)] + fmt)[1..] == fmt;
  }

  /** "%Y-%m-%d" reads a date whose day is written as a space and one digit,
      as in "2025-02- 3". */
  lemma SpacedDayStrptime(d: Date)
    requires ValidDate(d) && 1000 <= d.year <= 9999 && d.day <= 9
    ensures Strptime(NatToString(d.year) + "-" + Pad2(d.month) + "- " + [DigitChar(d.day)], YMD)
         == Some(DateTime(d, 0, 0, 0))
  {
    SpacedDayMatch(d);
  }

  lemma SpacedDayMatch(d: Date)
    requires ValidDate(d) && 1000 <= d.year <= 9999 && d.day <= 9
    ensures Match(NatToString(d.year) + "-" + Pad2(d.month) + "- " + [DigitChar(d.day)], YMD, NoFields)
         == Some(Fields(d.year, d.month, d.day, 0, 0, 0))
  {
    var yy, mm, c := NatToString(d.year), Pad2(d.month), DigitChar(d.day);
    NatToStringLength(d.year);
    NatToStringValue(d.year);
    var r3 := [' ', c] + "";
    var r2 := "-" + r3;
    var r1 := mm + r2;
    var r0 := "-" + r1;
    var f3 := [Field(DayField, false)] + [];
    var f2 := [Lit('-')] + f3;
    var f1 := [Field(MonthField, false)] + f2;
    var f0 := [Lit('-')] + f1;
    assert YMD == [Field(YearField, false)] + f0;
    assert yy + "-" + mm + "- " + [c] == yy + r0;
    var a := NoFields.(year := d.year);
    var b := a.(month := d.month);
    MatchField(yy, r0, YearField, false, f0, NoFields);
    MatchLit('-', r1, f1, a);
    MatchField(mm, r2, MonthField, false, f2, a);
    MatchLit('-', r3, f3, b);
    MatchSpacedDay(c, "", [], b);
    assert Match(r3, f3, b) == Some(Fields(d.year, d.month, d.day, 0, 0, 0));
  }
}
