/** The textual date forms of the dashboard: the day-first `DD/MM/YYYY` input and the `%Y-W%V` week label. */
module DateText {
  import opened Wrappers
  import opened Text
  import opened Calendar

  predicate IsDayFirstShape(s: string) {
    && |s| == 10 && s[2] == '/' && s[5] == '/'
    && AllDigits(s[0..2]) && AllDigits(s[3..5]) && AllDigits(s[6..10])
  }

  /** `pd.to_datetime(s, dayfirst=True)` for a `DD/MM/YYYY` string; `None` where pandas raises. */
  function ParseDayFirst(s: string): (r: Option<CivilDate>)
    ensures r.Some? ==> IsDayFirstShape(s) && 0 <= r.value.year < 10000
  {
    if IsDayFirstShape(s) then
      var d := Date(ParseDigits(s[6..10]), ParseDigits(s[3..5]), ParseDigits(s[0..2]));
      if ValidDate(d) then Some(d) else None
    else None
  }

  /** `strftime('%d/%m/%Y')` for a four-digit year. */
  function FormatDayFirst(d: CivilDate): (s: string)
    requires 0 <= d.year < 10000
    ensures IsDayFirstShape(s)
  {
    var s := Digits(d.day, 2) + "/" + Digits(d.month, 2) + "/" + Digits(d.year, 4);
    assert s[0..2] == Digits(d.day, 2) && s[3..5] == Digits(d.month, 2) && s[6..10] == Digits(d.year, 4);
    s
  }

  /** Every date with a four-digit year is read back from its day-first text. */
  lemma {:induction false} ParseFormatRoundTrip(d: CivilDate)
    requires 0 <= d.year < 10000
    ensures ParseDayFirst(FormatDayFirst(d)) == Some(d)
  {
    var s := FormatDayFirst(d);
    assert s[0..2] == Digits(d.day, 2) && s[3..5] == Digits(d.month, 2) && s[6..10] == Digits(d.year, 4);
    ParseDigitsOfDigits(d.day, 2);
    ParseDigitsOfDigits(d.month, 2);
    ParseDigitsOfDigits(d.year, 4);
  }

  /** Every accepted text is the canonical day-first text of the date it denotes. */
  lemma {:induction false} FormatParseRoundTrip(s: string)
    requires ParseDayFirst(s).Some?
    ensures FormatDayFirst(ParseDayFirst(s).value) == s
  {
    DigitsOfParseDigits(s[0..2]);
    DigitsOfParseDigits(s[3..5]);
    DigitsOfParseDigits(s[6..10]);
    var t := FormatDayFirst(ParseDayFirst(s).value);
    assert t[0..2] == s[0..2] && t[3..5] == s[3..5] && t[6..10] == s[6..10];
    assert forall i :: 0 <= i < 10 ==> t[i] == s[i] by {
      forall i | 0 <= i < 10
        ensures t[i] == s[i]
      {
        if i < 2 { assert t[i] == t[0..2][i]; }
        else if 3 <= i < 5 { assert t[i] == t[3..5][i - 3] && s[i] == s[3..5][i - 3]; }
        else if 6 <= i { assert t[i] == t[6..10][i - 6] && s[i] == s[6..10][i - 6]; }
      }
    }
  }

  /** `<year>-W<week>` with a four-digit year and a two-digit week. */
  function WeekLabel(year: int, week: int): string
    requires 0 <= year < 10000 && 0 <= week < 100
  {
    Digits(year, 4) + "-W" + Digits(week, 2)
  }

  /** `date.strftime('%Y-W%V')`: the CALENDAR year with the ISO week number. */
  function DateWeekLabel(d: CivilDate): string
    requires 0 <= d.year < 10000
  {
    WeekLabel(d.year, IsoWeek(d))
  }

  /** Labels sort as strings exactly as (year, week) pairs sort, and distinct pairs get distinct labels. */
  lemma {:induction false} WeekLabelOrder(y1: int, w1: int, y2: int, w2: int)
    requires 0 <= y1 < 10000 && 0 <= w1 < 100 && 0 <= y2 < 10000 && 0 <= w2 < 100
    ensures LexLess(WeekLabel(y1, w1), WeekLabel(y2, w2)) <==> y1 < y2 || (y1 == y2 && w1 < w2)
    ensures WeekLabel(y1, w1) == WeekLabel(y2, w2) <==> y1 == y2 && w1 == w2
  {
    var a, b := Digits(y1, 4), Digits(y2, 4);
    var c, d := Digits(w1, 2), Digits(w2, 2);
    assert WeekLabel(y1, w1) == a + ("-W" + c);
    assert WeekLabel(y2, w2) == b + ("-W" + d);
    LexLessConcat(a, b, "-W" + c, "-W" + d);
    LexLessConcat("-W", "-W", c, d);
    LexLessIrreflexive("-W");
    DigitsOrder(y1, y2, 4);
    DigitsInjective(y1, y2, 4);
    DigitsOrder(w1, w2, 2);
    DigitsInjective(w1, w2, 2);
    if WeekLabel(y1, w1) == WeekLabel(y2, w2) {
      assert a == WeekLabel(y1, w1)[..4] == b;
      assert c == WeekLabel(y1, w1)[6..] == d;
    }
  }

  /** "01/01/1700" is read as 1 January 1700. */
  lemma {:induction false} FirstOf1700Parses()
    ensures ParseDayFirst("01/01/1700") == Some(Date(1700, 1, 1))
  {
    var s := "01/01/1700";
    assert s[0..2] == "01" && s[3..5] == "01" && s[6..10] == "1700";
    assert IsDayFirstShape(s);
    ParseDigitsOf01();
    ParseDigitsOf1700();
  }

  lemma {:induction false} ParseDigitsOf01()
    ensures AllDigits("01") && ParseDigits("01") == 1
  {
    assert "01"[..1] == "0";
  }

  lemma {:induction false} ParseDigitsOf1700()
    ensures AllDigits("1700") && ParseDigits("1700") == 1700
  {
    assert "1700"[..3] == "170" && "170"[..2] == "17" && "17"[..1] == "1";
    assert ParseDigits("17") == 17;
  }

  /** The last day of 2018 lies in ISO week 1 of 2019 but is labelled with its calendar year. */
  lemma {:induction false} LabelOfNewYearsEve2018()
    ensures IsoWeek(Date(2018, 12, 31)) == 1
    ensures IsoWeekYear(Date(2018, 12, 31)) == 2019
    ensures DateWeekLabel(Date(2018, 12, 31)) == "2018-W01"
  {
    WeekOfNewYearsEve2018();
    DigitsOf2018();
    assert Digits(1, 2) == "01";
  }

  lemma {:induction false} WeekOfNewYearsEve2018()
    ensures IsoWeek(Date(2018, 12, 31)) == 1
    ensures IsoWeekYear(Date(2018, 12, 31)) == 2019
  {
  }

  lemma {:induction false} DigitsOf2018()
    ensures Digits(2018, 4) == "2018"
  {
    assert Digits(20, 2) == "20";
    assert Digits(201, 3) == "201";
  }

  /** 1 January 2017 lies in ISO week 52 of 2016 but is labelled with its calendar year. */
  lemma {:induction false} LabelOfNewYearsDay2017()
    ensures IsoWeek(Date(2017, 1, 1)) == 52
    ensures IsoWeekYear(Date(2017, 1, 1)) == 2016
    ensures DateWeekLabel(Date(2017, 1, 1)) == "2017-W52"
  {
    WeekOfNewYearsDay2017();
    DigitsOf2017();
    assert Digits(52, 2) == "52";
  }

  lemma {:induction false} WeekOfNewYearsDay2017()
    ensures IsoWeek(Date(2017, 1, 1)) == 52
    ensures IsoWeekYear(Date(2017, 1, 1)) == 2016
  {
  }

  lemma {:induction false} DigitsOf2017()
    ensures Digits(2017, 4) == "2017"
  {
    assert Digits(20, 2) == "20";
    assert Digits(201, 3) == "201";
  }
}
