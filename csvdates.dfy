/** The date texts that pass from the daily fetch to the workbook: fmt_fecha
    and fmt_jornada in daily_automation/fetch_today.py write FECHA and
    JORNADA into the CSV, and coerce_value in excel_writer.py reads them back
    when the CSV is written into the sheet. */
module CsvDates {
  import opened Text
  import opened Dates
  import opened Calendar
  import opened Columns
  import opened Coercion

  /** "d/m/YYYY" against "%d/%m/%Y": the day, month and year are read back. */
  lemma MatchDayMonthYear(d: Date, rest: string, fmt: seq<Directive>, acc: Fields)
    requires ValidDate(d) && 1000 <= d.year <= 9999
    requires rest == [] || !IsDigit(rest[0])
    ensures Match(NatToString(d.day) + ("/" + (NatToString(d.month) + ("/" + (NatToString(d.year) + rest)))),
                  DMY + fmt, acc)
         == Match(rest, fmt, acc.(day := d.day, month := d.month, year := d.year))
  {
    NatToStringLength(d.day);
    NatToStringValue(d.day);
    var my := [Field(MonthField, false), Lit('/'), Field(YearField, false)] + fmt;
    assert DMY + fmt == [Field(DayField, false), Lit('/')] + my;
    MatchFieldLit(NatToString(d.day), '/', NatToString(d.month) + ("/" + (NatToString(d.year) + rest)),
                  DayField, false, my, acc);
    MatchMonthYear(d, rest, fmt, acc.(day := d.day));
  }

  /** "m/YYYY" against "%m/%Y". */
  lemma MatchMonthYear(d: Date, rest: string, fmt: seq<Directive>, acc: Fields)
    requires ValidDate(d) && 1000 <= d.year <= 9999
    requires rest == [] || !IsDigit(rest[0])
    ensures Match(NatToString(d.month) + ("/" + (NatToString(d.year) + rest)),
                  [Field(MonthField, false), Lit('/'), Field(YearField, false)] + fmt, acc)
         == Match(rest, fmt, acc.(month := d.month, year := d.year))
  {
    NatToStringLength(d.month);
    NatToStringLength(d.year);
    NatToStringValue(d.month);
    NatToStringValue(d.year);
    assert [Field(MonthField, false), Lit('/'), Field(YearField, false)] + fmt
        == [Field(MonthField, false), Lit('/')] + ([Field(YearField, false)] + fmt);
    MatchFieldLit(NatToString(d.month), '/', NatToString(d.year) + rest, MonthField, false,
                  [Field(YearField, false)] + fmt, acc);
    MatchField(NatToString(d.year), rest, YearField, false, fmt, acc.(month := d.month));
  }

  /** The text begins and ends with a digit and holds no "Z", so parse_dt and
      parse_d see it unchanged, and it is not the word "none". */
  lemma PlainText(s: string)
    requires s != [] && IsDigit(s[0]) && IsDigit(s[|s| - 1])
    requires 'Z' !in s
    ensures !IsNoneWord(s)
    ensures RemoveAll(Strip(s), 'Z') == s
  {
    StripUnchanged(s);
    assert Lower(s)[0] == s[0];
  }

  /** A JORNADA text written by fmt_jornada is read back by coerce_value as
      the same date. */
  lemma JornadaReadBack(d: Date)
    requires ValidDate(d) && 1000 <= d.year <= 9999
    ensures Coerce(DateColumn, Some(FmtJornada(d))) == Day(d)
  {
    var s := FmtJornada(d);
    JornadaPlain(d);
    PlainText(s);
    PolicyExclusive(DateColumn);
    JornadaStrptime(d);
    assert DateFormats[0] == DMY;
  }

  lemma JornadaPlain(d: Date)
    requires ValidDate(d)
    ensures FmtJornada(d) != [] && IsDigit(FmtJornada(d)[0]) && IsDigit(FmtJornada(d)[|FmtJornada(d)| - 1])
    ensures 'Z' !in FmtJornada(d)
  {
    var s := FmtJornada(d);
    assert forall i :: 0 <= i < |s| ==> IsDigit(s[i]) || s[i] == '/';
  }

  /** "%d/%m/%Y" reads fmt_jornada's text as midnight of the same date. */
  lemma JornadaStrptime(d: Date)
    requires ValidDate(d) && 1000 <= d.year <= 9999
    ensures Strptime(FmtJornada(d), DMY) == Some(DateTime(d, 0, 0, 0))
  {
    var dd, mm, yy := NatToString(d.day), NatToString(d.month), NatToString(d.year);
    assert FmtJornada(d) == dd + ("/" + (mm + ("/" + (yy + ""))));
    assert DMY == DMY + [];
    MatchDayMonthYear(d, "", [], NoFields);
  }

  /** A FECHA text written by fmt_fecha is read back by coerce_value as the
      same datetime to the minute: the text carries no seconds, so they come
      back as zero. */
  lemma FechaReadBack(t: DateTime)
    requires ValidDateTime(t) && 1000 <= t.date.year <= 9999
    ensures Coerce(DatetimeColumn, Some(FmtFecha(t))) == Stamp(t.(second := 0))
  {
    var s := FmtFecha(t);
    FechaPlain(t);
    PlainText(s);
    PolicyExclusive(DatetimeColumn);
    FechaStrptime(t);
    assert DatetimeFormats[0] == DMY + [Gap] + HM;
  }

  lemma FechaPlain(t: DateTime)
    requires ValidDateTime(t)
    ensures FmtFecha(t) != [] && IsDigit(FmtFecha(t)[0]) && IsDigit(FmtFecha(t)[|FmtFecha(t)| - 1])
    ensures 'Z' !in FmtFecha(t)
  {
    var s := FmtFecha(t);
    JornadaPlain(t.date);
    assert forall i :: 0 <= i < |s| ==> IsDigit(s[i]) || s[i] in "/ :";
  }

  /** "%d/%m/%Y %H:%M" reads fmt_fecha's text as the same datetime with no
      seconds. */
  lemma FechaStrptime(t: DateTime)
    requires ValidDateTime(t) && 1000 <= t.date.year <= 9999
    ensures Strptime(FmtFecha(t), DMY + [Gap] + HM) == Some(t.(second := 0))
  {
    FechaMatch(t);
  }

  lemma FechaMatch(t: DateTime)
    requires ValidDateTime(t) && 1000 <= t.date.year <= 9999
    ensures Match(FmtFecha(t), DMY + [Gap] + HM, NoFields)
         == Some(Fields(t.date.year, t.date.month, t.date.day, t.hour, t.minute, 0))
  {
    var d := t.date;
    var time := Pad2(t.hour) + (":" + (Pad2(t.minute) + ""));
    FechaPieces(t);
    var a := NoFields.(day := d.day, month := d.month, year := d.year);
    assert DMY + [Gap] + HM == DMY + ([Gap] + HM);
    MatchDayMonthYear(d, " " + time, [Gap] + HM, NoFields);
    MatchGap(time, HM, a);
    assert HM == [Field(HourField, false), Lit(':'), Field(MinuteField, false)] + [];
    MatchHourMinute(t, false, "", [], a);
  }

  lemma FechaPieces(t: DateTime)
    requires ValidDateTime(t)
    ensures FmtFecha(t) == NatToString(t.date.day) + ("/" + (NatToString(t.date.month) + ("/" +
                           (NatToString(t.date.year) + (" " + (Pad2(t.hour) + (":" + (Pad2(t.minute) + ""))))))))
  {
  }
}
