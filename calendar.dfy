/** The date helpers of fetch_today.py: iso_to_dt, fmt_fecha, fmt_jornada,
    daterange and month_bounds. */
module Calendar {
  import opened Text
  import opened Dates

  /** "%Y-%m-%dT%H:%M:%S" and "%Y-%m-%dT%H:%M". */
  const SecondsFormat: seq<Directive> := YMD + [Lit('T')] + HMS
  const MinutesFormat: seq<Directive> := YMD + [Lit('T')] + HM

  /** s[:n] */
  function Take(s: string, n: nat): (r: string)
    ensures |r| <= n
  {
    if |s| <= n then s else s[..n]
  }

  /** iso_to_dt(s) on a non-empty string: every "Z" removed, then strptime on
      s[:len(fmt)] for the two formats above (whose texts are 17 and 14
      characters long), then fromisoformat, then strptime on the part
      before the first "T" as "%Y-%m-%d". None where that last step raises. */
  function IsoToDt(iso: string): (r: Option<DateTime>)
    ensures r.Some? ==> ValidDateTime(r.value)
  {
    var s := RemoveAll(iso, 'Z');
    match Strptime(Take(s, 17), SecondsFormat)
    case Some(t) => Some(t)
    case None =>
      match Strptime(Take(s, 14), MinutesFormat)
      case Some(t) => Some(t)
      case None =>
        match FromIsoFormat(s)
        case Some(t) => Some(t)
        case None => Strptime(Split(s, 'T')[0], YMD)
  }

  /** fmt_jornada(d): f"{d.day}/{d.month}/{d.year}", nothing padded. */
  function FmtJornada(d: Date): string
    requires ValidDate(d)
  {
    NatToString(d.day) + "/" + NatToString(d.month) + "/" + NatToString(d.year)
  }

  /** fmt_fecha(t): the same date, a space, and the hour and minute padded to
      two digits. */
  function FmtFecha(t: DateTime): string
    requires ValidDateTime(t)
  {
    FmtJornada(t.date) + " " + Pad2(t.hour) + ":" + Pad2(t.minute)
  }

  /** The first day of d's month. */
  function FirstOfMonth(d: Date): (r: Date)
    requires ValidDate(d)
    ensures ValidDate(r) && DateAtMost(r, d)
  {
    Date(d.year, d.month, 1)
  }

  /** month_bounds(d): the first day of d's month, and the day before the
      first day of the next month (January of the next year after
      December). */
  function MonthBounds(d: Date): (r: (Date, Date))
    requires ValidDate(d)
    ensures r.0 == Date(d.year, d.month, 1)
    ensures r.1 == Date(d.year, d.month, DaysInMonth(d.year, d.month))
    ensures DateAtMost(r.0, d) && DateAtMost(d, r.1)
  {
    var next := if d.month == 12 then Date(d.year + 1, 1, 1) else Date(d.year, d.month + 1, 1);
    (FirstOfMonth(d), PrevDay(next))
  }

  /** The days start, start + 1, ..., end: what daterange(start, end)
      yields. */
  function DaysFrom(start: Date, end: Date): (r: seq<Date>)
    requires ValidDate(start) && ValidDate(end)
    ensures r == [] <==> DateBefore(end, start)
    ensures r != [] ==> r[0] == start && r[|r| - 1] == end
    ensures forall i :: 0 <= i < |r| ==> ValidDate(r[i])
    ensures forall i :: 0 <= i < |r| - 1 ==> r[i + 1] == NextDay(r[i])
    decreases Rank(end) - Rank(start)
  {
    if DateBefore(end, start) then []
    else
      var next := NextDay(start);
      RankOrder(start, end);
      RankOrder(start, next);
      var rest := DaysFrom(next, end);
      StepCover(start, end);
      [start] + rest
  }

  /** No day is missing: a valid date is among DaysFrom(start, end) exactly
      when it lies between start and end. */
  lemma {:induction false} DaysFromCover(start: Date, end: Date, d: Date)
    requires ValidDate(start) && ValidDate(end) && ValidDate(d)
    ensures d in DaysFrom(start, end) <==> DateAtMost(start, d) && DateAtMost(d, end)
    decreases Rank(end) - Rank(start)
  {
    if !DateBefore(end, start) {
      DaysFromStep(start, end);
      StepCover(start, end);
      DaysFromCover(NextDay(start), end, d);
    }
  }

  /** From start, the days not before start are start itself and the days
      not before the next one. */
  lemma StepCover(start: Date, end: Date)
    requires ValidDate(start) && ValidDate(end) && DateAtMost(start, end)
    ensures DateBefore(end, NextDay(start)) ==> start == end
    ensures forall d :: ValidDate(d) ==>
      (DateAtMost(start, d) <==> d == start || DateAtMost(NextDay(start), d))
  {
    forall d | ValidDate(d) && DateBefore(start, d)
      ensures DateAtMost(NextDay(start), d)
    {
      NoDayBetween(start, d);
    }
  }

  /** daterange(start, end): every day from start to end, in order. */
  method Daterange(start: Date, end: Date) returns (days: seq<Date>)
    requires ValidDate(start) && ValidDate(end)
    ensures days == DaysFrom(start, end)
  {
    days := [];
    var cur := start;
    while DateAtMost(cur, end)
      invariant ValidDate(cur)
      invariant days + DaysFrom(cur, end) == DaysFrom(start, end)
      decreases Rank(end) - Rank(cur)
    {
      DaterangeStep(start, end, cur, days);
      days := days + [cur];
      cur := NextDay(cur);
    }
  }

  lemma DaterangeStep(start: Date, end: Date, cur: Date, days: seq<Date>)
    requires ValidDate(start) && ValidDate(end) && ValidDate(cur) && DateAtMost(cur, end)
    requires days + DaysFrom(cur, end) == DaysFrom(start, end)
    ensures (days + [cur]) + DaysFrom(NextDay(cur), end) == DaysFrom(start, end)
    ensures 0 <= Rank(end) - Rank(cur) && Rank(end) - Rank(NextDay(cur)) < Rank(end) - Rank(cur)
  {
    DaysFromStep(cur, end);
    AppendOne(days, cur, DaysFrom(NextDay(cur), end));
  }

  lemma AppendOne<T>(a: seq<T>, x: T, b: seq<T>)
    ensures (a + [x]) + b == a + ([x] + b)
  {
  }

  lemma DaysFromStep(cur: Date, end: Date)
    requires ValidDate(cur) && ValidDate(end) && DateAtMost(cur, end)
    ensures DaysFrom(cur, end) == [cur] + DaysFrom(NextDay(cur), end)
    ensures 0 <= Rank(end) - Rank(cur) && Rank(end) - Rank(NextDay(cur)) < Rank(end) - Rank(cur)
  {
    RankOrder(cur, end);
    RankOrder(cur, NextDay(cur));
  }

  // ---------------------------------------------------------------------
  // Reading back the timestamps the endpoints send.

  /** datetime.isoformat() of a whole-second datetime with a four-digit
      year: "YYYY-MM-DDTHH:MM:SS". */
  function IsoFormat(t: DateTime): string
    requires ValidDateTime(t) && 1000 <= t.date.year <= 9999
  {
    NatToString(t.date.year) + "-" + Pad2(t.date.month) + "-" + Pad2(t.date.day)
    + "T" + Pad2(t.hour) + ":" + Pad2(t.minute) + ":" + Pad2(t.second)
  }

  /** One field followed by a literal separator. */
  lemma MatchFieldLit(digits: string, c: char, rest: string, k: FieldKind, strict: bool,
                      fmt: seq<Directive>, acc: Fields)
    requires AllDigits(digits) && WidthOk(k, strict, |digits|) && !IsDigit(c)
    ensures Match(digits + ([c] + rest), [Field(k, strict), Lit(c)] + fmt, acc)
         == Match(rest, fmt, SetField(acc, k, DigitsValue(digits)))
  {
    assert [Field(k, strict), Lit(c)] + fmt == [Field(k, strict)] + ([Lit(c)] + fmt);
    MatchField(digits, [c] + rest, k, strict, [Lit(c)] + fmt, acc);
    MatchLit(c, rest, fmt, SetField(acc, k, DigitsValue(digits)));
  }

  /** Year, month and day separated by "-". */
  lemma MatchYMD(y: string, mo: string, d: string, strict: bool, rest: string, fmt: seq<Directive>, acc: Fields)
    requires AllDigits(y) && AllDigits(mo) && AllDigits(d)
    requires WidthOk(YearField, strict, |y|) && WidthOk(MonthField, strict, |mo|) && WidthOk(DayField, strict, |d|)
    requires rest == [] || !IsDigit(rest[0])
    ensures Match(y + ("-" + (mo + ("-" + (d + rest)))),
                  [Field(YearField, strict), Lit('-'), Field(MonthField, strict), Lit('-'), Field(DayField, strict)] + fmt,
                  acc)
         == Match(rest, fmt, acc.(year := DigitsValue(y), month := DigitsValue(mo), day := DigitsValue(d)))
  {
    var md := [Field(MonthField, strict), Lit('-'), Field(DayField, strict)] + fmt;
    assert [Field(YearField, strict), Lit('-'), Field(MonthField, strict), Lit('-'), Field(DayField, strict)] + fmt
        == [Field(YearField, strict), Lit('-')] + md;
    MatchFieldLit(y, '-', mo + ("-" + (d + rest)), YearField, strict, md, acc);
    MatchMD(mo, d, strict, rest, fmt, SetField(acc, YearField, DigitsValue(y)));
  }

  lemma MatchMD(mo: string, d: string, strict: bool, rest: string, fmt: seq<Directive>, acc: Fields)
    requires AllDigits(mo) && AllDigits(d)
    requires WidthOk(MonthField, strict, |mo|) && WidthOk(DayField, strict, |d|)
    requires rest == [] || !IsDigit(rest[0])
    ensures Match(mo + ("-" + (d + rest)), [Field(MonthField, strict), Lit('-'), Field(DayField, strict)] + fmt, acc)
         == Match(rest, fmt, acc.(month := DigitsValue(mo), day := DigitsValue(d)))
  {
    assert [Field(MonthField, strict), Lit('-'), Field(DayField, strict)] + fmt
        == [Field(MonthField, strict), Lit('-')] + ([Field(DayField, strict)] + fmt);
    MatchFieldLit(mo, '-', d + rest, MonthField, strict, [Field(DayField, strict)] + fmt, acc);
    MatchField(d, rest, DayField, strict, fmt, SetField(acc, MonthField, DigitsValue(mo)));
  }

  /** Hour and minute separated by ":". */
  lemma MatchHM(h: string, mi: string, strict: bool, rest: string, fmt: seq<Directive>, acc: Fields)
    requires AllDigits(h) && AllDigits(mi)
    requires WidthOk(HourField, strict, |h|) && WidthOk(MinuteField, strict, |mi|)
    requires rest == [] || !IsDigit(rest[0])
    ensures Match(h + (":" + (mi + rest)), [Field(HourField, strict), Lit(':'), Field(MinuteField, strict)] + fmt, acc)
         == Match(rest, fmt, acc.(hour := DigitsValue(h), minute := DigitsValue(mi)))
  {
    assert [Field(HourField, strict), Lit(':'), Field(MinuteField, strict)] + fmt
        == [Field(HourField, strict), Lit(':')] + ([Field(MinuteField, strict)] + fmt);
    MatchFieldLit(h, ':', mi + rest, HourField, strict, [Field(MinuteField, strict)] + fmt, acc);
    MatchField(mi, rest, MinuteField, strict, fmt, SetField(acc, HourField, DigitsValue(h)));
  }

  /** The date part "YYYY-MM-DD" of a datetime's isoformat(). */
  lemma MatchIsoDate(t: DateTime, strict: bool, rest: string, fmt: seq<Directive>, acc: Fields)
    requires ValidDateTime(t) && 1000 <= t.date.year <= 9999
    requires rest == [] || !IsDigit(rest[0])
    ensures Match(NatToString(t.date.year) + ("-" + (Pad2(t.date.month) + ("-" + (Pad2(t.date.day) + rest)))),
                  [Field(YearField, strict), Lit('-'), Field(MonthField, strict), Lit('-'), Field(DayField, strict)] + fmt,
                  acc)
         == Match(rest, fmt, acc.(year := t.date.year, month := t.date.month, day := t.date.day))
  {
    NatToStringLength(t.date.year);
    NatToStringValue(t.date.year);
    MatchYMD(NatToString(t.date.year), Pad2(t.date.month), Pad2(t.date.day), strict, rest, fmt, acc);
  }

  /** The "HH:MM" part of a datetime's isoformat(). */
  lemma MatchHourMinute(t: DateTime, strict: bool, rest: string, fmt: seq<Directive>, acc: Fields)
    requires ValidDateTime(t)
    requires rest == [] || !IsDigit(rest[0])
    ensures Match(Pad2(t.hour) + (":" + (Pad2(t.minute) + rest)),
                  [Field(HourField, strict), Lit(':'), Field(MinuteField, strict)] + fmt, acc)
         == Match(rest, fmt, acc.(hour := t.hour, minute := t.minute))
  {
    MatchHM(Pad2(t.hour), Pad2(t.minute), strict, rest, fmt, acc);
  }

  /** The 17-character slice "YYYY-MM-DDTHH:MM:" lacks the seconds. */
  lemma SecondsSliceFails(t: DateTime)
    requires ValidDateTime(t) && 1000 <= t.date.year <= 9999
    ensures Strptime(Take(IsoFormat(t), 17), SecondsFormat) == None
  {
    var h, mi := Pad2(t.hour), Pad2(t.minute);
    SecondsSlice(t);
    var tail: seq<Directive> := [Field(SecondField, false)];
    var fmt: seq<Directive> := [Lit('T')] + ([Field(HourField, false), Lit(':'), Field(MinuteField, false)] + ([Lit(':')] + tail));
    assert SecondsFormat == [Field(YearField, false), Lit('-'), Field(MonthField, false), Lit('-'), Field(DayField, false)] + fmt;
    var a := NoFields.(year := t.date.year, month := t.date.month, day := t.date.day);
    MatchIsoDate(t, false, "T" + (h + (":" + (mi + ":"))), fmt, NoFields);
    MatchLit('T', h + (":" + (mi + ":")), [Field(HourField, false), Lit(':'), Field(MinuteField, false)] + ([Lit(':')] + tail), a);
    MatchHourMinute(t, false, ":", [Lit(':')] + tail, a);
    assert ":" == [':'] + "";
    MatchLit(':', "", tail, a.(hour := t.hour, minute := t.minute));
  }

  lemma SecondsSlice(t: DateTime)
    requires ValidDateTime(t) && 1000 <= t.date.year <= 9999
    ensures Take(IsoFormat(t), 17)
         == NatToString(t.date.year) + ("-" + (Pad2(t.date.month) + ("-" + (Pad2(t.date.day)
            + ("T" + (Pad2(t.hour) + (":" + (Pad2(t.minute) + ":"))))))))
  {
    NatToStringLength(t.date.year);
    var pre := NatToString(t.date.year) + ("-" + (Pad2(t.date.month) + ("-" + (Pad2(t.date.day)
            + ("T" + (Pad2(t.hour) + (":" + (Pad2(t.minute) + ":"))))))));
    assert |pre| == 17;
    assert IsoFormat(t) == pre + Pad2(t.second);
    assert (pre + Pad2(t.second))[..17] == pre;
  }

  /** The 14-character slice "YYYY-MM-DDTHH:" lacks the minutes. */
  lemma MinutesSliceFails(t: DateTime)
    requires ValidDateTime(t) && 1000 <= t.date.year <= 9999
    ensures Strptime(Take(IsoFormat(t), 14), MinutesFormat) == None
  {
    NatToStringLength(t.date.year);
    var y, mo, d := NatToString(t.date.year), Pad2(t.date.month), Pad2(t.date.day);
    var h := Pad2(t.hour);
    var s := y + ("-" + (mo + ("-" + (d + ("T" + (h + ":"))))));
    assert Take(IsoFormat(t), 14) == s;
    var tail: seq<Directive> := [Field(MinuteField, false)];
    var fmt: seq<Directive> := [Lit('T')] + ([Field(HourField, false), Lit(':')] + tail);
    assert MinutesFormat == [Field(YearField, false), Lit('-'), Field(MonthField, false), Lit('-'), Field(DayField, false)] + fmt;
    var a := NoFields.(year := t.date.year, month := t.date.month, day := t.date.day);
    MatchIsoDate(t, false, "T" + (h + ":"), fmt, NoFields);
    MatchLit('T', h + ":", [Field(HourField, false), Lit(':')] + tail, a);
    assert h + ":" == h + ([':'] + "");
    MatchFieldLit(h, ':', "", HourField, false, tail, a);
  }

  /** fromisoformat reads the whole text back. */
  lemma FromIsoOfIsoFormat(t: DateTime)
    requires ValidDateTime(t) && 1000 <= t.date.year <= 9999
    ensures FromIsoFormat(IsoFormat(t)) == Some(t)
  {
    var s := IsoFormat(t);
    IsoDatePart(t);
    IsoTimePart(t);
    var f := NoFields.(year := t.date.year, month := t.date.month, day := t.date.day);
    var g := NoFields.(hour := t.hour, minute := t.minute, second := t.second);
    assert FirstTime(s[11..], [IsoTimeHMS, IsoTimeHM, IsoTimeH]) == Some(g);
    assert f.(hour := g.hour, minute := g.minute, second := g.second)
        == Fields(t.date.year, t.date.month, t.date.day, t.hour, t.minute, t.second);
  }

  lemma IsoDatePart(t: DateTime)
    requires ValidDateTime(t) && 1000 <= t.date.year <= 9999
    ensures |IsoFormat(t)| == 19
    ensures Match(IsoFormat(t)[..10], IsoDateStrict, NoFields)
         == Some(NoFields.(year := t.date.year, month := t.date.month, day := t.date.day))
  {
    NatToStringLength(t.date.year);
    var y, mo, d := NatToString(t.date.year), Pad2(t.date.month), Pad2(t.date.day);
    assert IsoFormat(t)[..10] == y + ("-" + (mo + ("-" + (d + ""))));
    assert IsoDateStrict == [Field(YearField, true), Lit('-'), Field(MonthField, true), Lit('-'), Field(DayField, true)] + [];
    MatchIsoDate(t, true, "", [], NoFields);
  }

  lemma IsoTimePart(t: DateTime)
    requires ValidDateTime(t) && 1000 <= t.date.year <= 9999
    ensures |IsoFormat(t)| == 19
    ensures Match(IsoFormat(t)[11..], IsoTimeHMS, NoFields)
         == Some(NoFields.(hour := t.hour, minute := t.minute, second := t.second))
  {
    IsoTimeText(t);
    IsoTimeMatch(t);
  }

  lemma IsoTimeText(t: DateTime)
    requires ValidDateTime(t) && 1000 <= t.date.year <= 9999
    ensures |IsoFormat(t)| == 19
    ensures IsoFormat(t)[11..] == Pad2(t.hour) + (":" + (Pad2(t.minute) + (":" + Pad2(t.second))))
  {
    NatToStringLength(t.date.year);
  }

  lemma IsoTimeMatch(t: DateTime)
    requires ValidDateTime(t)
    ensures Match(Pad2(t.hour) + (":" + (Pad2(t.minute) + (":" + Pad2(t.second)))), IsoTimeHMS, NoFields)
         == Some(NoFields.(hour := t.hour, minute := t.minute, second := t.second))
  {
    var sec := Pad2(t.second);
    assert IsoTimeHMS == [Field(HourField, true), Lit(':'), Field(MinuteField, true)] + ([Lit(':')] + [Field(SecondField, true)]);
    MatchHourMinute(t, true, ":" + sec, [Lit(':')] + [Field(SecondField, true)], NoFields);
    var g := NoFields.(hour := t.hour, minute := t.minute);
    MatchLit(':', sec, [Field(SecondField, true)], g);
    assert sec == sec + "" && [Field(SecondField, true)] == [Field(SecondField, true)] + [];
    MatchField(sec, "", SecondField, true, [], g);
  }

  /** iso_to_dt reads back the isoformat() text of a whole-second datetime,
      with or without a trailing "Z": both slices fail, and fromisoformat
      succeeds. */
  lemma IsoToDtOfIsoFormat(t: DateTime)
    requires ValidDateTime(t) && 1000 <= t.date.year <= 9999
    ensures IsoToDt(IsoFormat(t)) == Some(t)
    ensures IsoToDt(IsoFormat(t) + "Z") == Some(t)
  {
    var s := IsoFormat(t);
    IsoFormatHasNoZ(t);
    SecondsSliceFails(t);
    MinutesSliceFails(t);
    FromIsoOfIsoFormat(t);
    assert IsoToDt(s) == Some(t);
    RemoveAllAppend(s, "Z", 'Z');
    assert RemoveAll("Z", 'Z') == "";
    assert RemoveAll(s + "Z", 'Z') == RemoveAll(s, 'Z');
    SameWithoutZ(s + "Z", s);
  }

  lemma IsoFormatHasNoZ(t: DateTime)
    requires ValidDateTime(t) && 1000 <= t.date.year <= 9999
    ensures 'Z' !in IsoFormat(t)
  {
    NatToStringLength(t.date.year);
    var s := IsoFormat(t);
    assert forall i :: 0 <= i < |s| ==> IsDigit(s[i]) || s[i] in "-T:";
  }

  /** iso_to_dt looks at its argument only after removing every "Z". */
  lemma SameWithoutZ(a: string, b: string)
    requires RemoveAll(a, 'Z') == RemoveAll(b, 'Z')
    ensures IsoToDt(a) == IsoToDt(b)
  {
  }

  /** The 17-character slice cuts "2025-02-03T1:05:30", whose hour has one
      digit, to "2025-02-03T1:05:3", which strptime accepts: the seconds
      come back as 3, not 30. */
  lemma IsoToDtShortHourExample()
    ensures IsoToDt("2025-02-03T1:05:30") == Some(DateTime(Date(2025, 2, 3), 1, 5, 3))
  {
    ShortHourSlice();
    ShortHourMatch();
  }

  lemma ShortHourSlice()
    ensures 'Z' !in "2025-02-03T1:05:30"
    ensures Take("2025-02-03T1:05:30", 17)
         == "2025" + ("-" + ("02" + ("-" + ("03" + ("T" + ("1" + (":" + ("05" + (":" + "3")))))))))
  {
  }

  lemma ShortHourMatch()
    ensures Match("2025" + ("-" + ("02" + ("-" + ("03" + ("T" + ("1" + (":" + ("05" + (":" + "3"))))))))),
                  SecondsFormat, NoFields)
         == Some(Fields(2025, 2, 3, 1, 5, 3))
  {
    ExampleDigits();
    MatchSecondsFormat("2025", "02", "03", "1", "05", "3");
  }

  /** "%Y-%m-%dT%H:%M:%S" takes four year digits and one or two digits for
      each other field. */
  lemma MatchSecondsFormat(y: string, mo: string, d: string, h: string, mi: string, sec: string)
    requires AllDigits(y) && AllDigits(mo) && AllDigits(d) && AllDigits(h) && AllDigits(mi) && AllDigits(sec)
    requires |y| == 4 && 1 <= |mo| <= 2 && 1 <= |d| <= 2 && 1 <= |h| <= 2 && 1 <= |mi| <= 2 && 1 <= |sec| <= 2
    ensures Match(y + ("-" + (mo + ("-" + (d + ("T" + (h + (":" + (mi + (":" + sec))))))))), SecondsFormat, NoFields)
         == Some(Fields(DigitsValue(y), DigitsValue(mo), DigitsValue(d), DigitsValue(h), DigitsValue(mi), DigitsValue(sec)))
  {
    var time: seq<Directive> := [Field(HourField, false), Lit(':'), Field(MinuteField, false), Lit(':'), Field(SecondField, false)];
    assert SecondsFormat
        == [Field(YearField, false), Lit('-'), Field(MonthField, false), Lit('-'), Field(DayField, false)] + ([Lit('T')] + time);
    MatchYMD(y, mo, d, false, "T" + (h + (":" + (mi + (":" + sec)))), [Lit('T')] + time, NoFields);
    var a := NoFields.(year := DigitsValue(y), month := DigitsValue(mo), day := DigitsValue(d));
    MatchLit('T', h + (":" + (mi + (":" + sec))), time, a);
    MatchHMS(h, mi, sec, a);
  }

  lemma MatchHMS(h: string, mi: string, sec: string, acc: Fields)
    requires AllDigits(h) && AllDigits(mi) && AllDigits(sec)
    requires 1 <= |h| <= 2 && 1 <= |mi| <= 2 && 1 <= |sec| <= 2
    ensures Match(h + (":" + (mi + (":" + sec))),
                  [Field(HourField, false), Lit(':'), Field(MinuteField, false), Lit(':'), Field(SecondField, false)], acc)
         == Some(acc.(hour := DigitsValue(h), minute := DigitsValue(mi), second := DigitsValue(sec)))
  {
    var tail: seq<Directive> := [Lit(':'), Field(SecondField, false)];
    assert [Field(HourField, false), Lit(':'), Field(MinuteField, false), Lit(':'), Field(SecondField, false)]
        == [Field(HourField, false), Lit(':'), Field(MinuteField, false)] + tail;
    MatchHM(h, mi, false, ":" + sec, tail, acc);
    MatchSecond(sec, acc.(hour := DigitsValue(h), minute := DigitsValue(mi)));
  }

  lemma MatchSecond(sec: string, acc: Fields)
    requires AllDigits(sec) && 1 <= |sec| <= 2
    ensures Match(":" + sec, [Lit(':'), Field(SecondField, false)], acc) == Some(acc.(second := DigitsValue(sec)))
  {
    MatchLit(':', sec, [Field(SecondField, false)], acc);
    assert sec == sec + "" && [Field(SecondField, false)] == [Field(SecondField, false)] + [];
    MatchField(sec, "", SecondField, false, [], acc);
  }

  lemma ExampleDigits()
    ensures DigitsValue("2025") == 2025 && DigitsValue("02") == 2 && DigitsValue("03") == 3
    ensures DigitsValue("1") == 1 && DigitsValue("05") == 5 && DigitsValue("3") == 3
  {
    assert "2025"[..3] == "202" && "202"[..2] == "20" && "20"[..1] == "2" && "2"[..0] == "";
    assert "02"[..1] == "0" && "03"[..1] == "0" && "05"[..1] == "0" && "0"[..0] == "";
    assert "1"[..0] == "" && "3"[..0] == "";
  }
}
