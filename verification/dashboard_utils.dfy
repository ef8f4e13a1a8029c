/**
  The bikeshare aggregation layer: enrichment of the raw hourly table with calendar
  fields, and the derived views the dashboard plots (daily, monthly, month/year,
  weekly and hourly series, and the rows of one day).
*/
module DashboardUtils {
  import opened Wrappers
  import opened Seqs
  import opened Text
  import opened Calendar
  import opened DateText
  import opened Grouping

  /** The weather and season/holiday columns of a row: carried through, never aggregated. */
  datatype Covariates = Covariates(measurements: seq<real>, labels: seq<string>)

  /** One row of the raw table: the rentals of one hour of a `DD/MM/YYYY` dated day. */
  datatype Observation = Observation(date: string, hour: int, rentedBikeCount: nat, covariates: Covariates)

  /**
    pandas stores datetimes as nanoseconds since 1970 in 64 bits: from 1677-09-21 00:12:43
    to 2262-04-11 23:47:16. A midnight timestamp therefore exists from 1677-09-22 to 2262-04-11.
  */
  predicate InTimestampRange(d: Date) {
    !Before(d, Date(1677, 9, 22)) && !Before(Date(2262, 4, 11), d)
  }

  /** A whole-hour datetime pandas can hold. */
  predicate DateTimeInRange(t: DateTime) {
    InTimestampRange(t.date) || (t.date == Date(1677, 9, 21) && t.hour >= 1)
  }

  type TimestampDate = d: CivilDate | InTimestampRange(d) witness Date(2018, 1, 1)

  type MonthNumber = m: int | 1 <= m <= 12 witness 1

  /** A row after `preprocess_data`: the parsed date, its day, month and year, and `datetime`. */
  datatype EnrichedRow = EnrichedRow(
    date: TimestampDate,
    hour: int,
    rentedBikeCount: nat,
    covariates: Covariates,
    day: int,
    month: MonthNumber,
    year: int,
    datetime: DateTime)

  /** The derived day, month and year columns agree with the date column. */
  predicate Consistent(r: EnrichedRow) {
    r.day == r.date.day && r.month == r.date.month && r.year == r.date.year
  }

  /** Why pandas raises while enriching: the index of the offending row. */
  datatype EnrichError =
    | MalformedDate(row: nat)
    | DateOutOfBounds(row: nat)
    | TimedeltaOutOfBounds(row: nat)
    | DatetimeOutOfBounds(row: nat)

  /** `pd.to_datetime(s, dayfirst=True)` on one cell: the text must be a day-first date pandas can hold. */
  predicate ParsesToTimestamp(s: string) {
    ParseDayFirst(s).Some? && InTimestampRange(ParseDayFirst(s).value)
  }

  function ToTimestamp(s: string): TimestampDate
    requires ParsesToTimestamp(s)
  {
    ParseDayFirst(s).value
  }

  /** Nanoseconds in an hour, the unit `pd.to_timedelta(..., unit='h')` converts to. */
  const NanosPerHour: int := 3_600_000_000_000

  /** The largest nanosecond count a 64-bit timedelta holds. */
  const MaxNanos: int := 0x7FFF_FFFF_FFFF_FFFF

  /** `pd.to_timedelta(hour, unit='h')` holds the hour count in 64-bit nanoseconds without overflow. */
  predicate TimedeltaFits(hour: int) {
    -MaxNanos <= hour * NanosPerHour <= MaxNanos
  }

  /** The timedelta conversion accepts exactly the hour counts of magnitude at most 2,562,047. */
  lemma {:induction false} TimedeltaHours(hour: int)
    ensures TimedeltaFits(hour) <==> -2_562_047 <= hour <= 2_562_047
  {
    if hour >= 2_562_048 {
      assert hour * NanosPerHour >= 2_562_048 * NanosPerHour;
    } else if hour <= -2_562_048 {
      assert hour * NanosPerHour <= -2_562_048 * NanosPerHour;
    }
  }

  /** Adding the row's hours to its date stays within pandas' datetime range. */
  predicate HourFits(o: Observation) {
    ParsesToTimestamp(o.date) && DateTimeInRange(AddHours(ToTimestamp(o.date), o.hour))
  }

  function IsTimestampCell(o: Observation): bool {
    ParsesToTimestamp(o.date)
  }

  /** The converted date column, once every cell is known to convert. */
  function DateColumn(obs: seq<Observation>): (ds: seq<TimestampDate>)
    requires forall i :: 0 <= i < |obs| ==> ParsesToTimestamp(obs[i].date)
    ensures |ds| == |obs|
    ensures forall i :: 0 <= i < |obs| ==> ds[i] == ToTimestamp(obs[i].date)
  {
    if |obs| == 0 then [] else [ToTimestamp(obs[0].date)] + DateColumn(obs[1..])
  }

  /**
    `pd.to_datetime(df['date'], dayfirst=True)`: the converted column, or the first row
    whose text is not a day-first date (`MalformedDate`) or lies outside pandas' range
    (`DateOutOfBounds`).
  */
  function ToDatetimeColumn(obs: seq<Observation>): (r: Result<seq<TimestampDate>, EnrichError>)
    ensures r.Success? <==> forall i :: 0 <= i < |obs| ==> ParsesToTimestamp(obs[i].date)
    ensures r.Success? ==> r.value == DateColumn(obs)
    ensures r.Failure? ==>
      && (r.error.MalformedDate? || r.error.DateOutOfBounds?)
      && r.error.row < |obs|
      && !ParsesToTimestamp(obs[r.error.row].date)
      && (r.error.MalformedDate? <==> ParseDayFirst(obs[r.error.row].date).None?)
      && forall i :: 0 <= i < r.error.row ==> ParsesToTimestamp(obs[i].date)
  {
    match FirstFailing(obs, IsTimestampCell)
    case Some(k) =>
      if ParseDayFirst(obs[k].date).None? then Failure(MalformedDate(k)) else Failure(DateOutOfBounds(k))
    case None => Success(DateColumn(obs))
  }

  /** The enriched row of an observation whose date has been converted. */
  function EnrichRow(o: Observation, d: TimestampDate): EnrichedRow {
    EnrichedRow(d, o.hour, o.rentedBikeCount, o.covariates, d.day, d.month, d.year, AddHours(d, o.hour))
  }

  /** The table with its `day`, `month`, `year` and `datetime` columns added. */
  function EnrichRows(obs: seq<Observation>, dates: seq<TimestampDate>): (rows: seq<EnrichedRow>)
    requires |dates| == |obs|
    ensures |rows| == |obs|
    ensures forall i :: 0 <= i < |obs| ==> rows[i] == EnrichRow(obs[i], dates[i])
  {
    if |obs| == 0 then [] else [EnrichRow(obs[0], dates[0])] + EnrichRows(obs[1..], dates[1..])
  }

  /**
    The enriched row `t` keeps the observation's hour, count and covariates, holds its parsed
    date with that date's day, month and year, and its `datetime` lies `hour` hours after the
    date's midnight (on the same day when `0 <= hour < 24`).
  */
  predicate EnrichedFrom(o: Observation, t: EnrichedRow) {
    && ParseDayFirst(o.date).Some?
    && t.date == ParseDayFirst(o.date).value
    && Consistent(t)
    && t.hour == o.hour
    && t.rentedBikeCount == o.rentedBikeCount
    && t.covariates == o.covariates
    && Instant(t.datetime) == DayNumber(t.date) * 24 + o.hour
    && 0 <= t.datetime.hour < 24
    && (0 <= o.hour < 24 ==> t.datetime == DateTime(t.date, o.hour))
  }

  /** One row: enrichment satisfies `EnrichedFrom`, and its datetime fits exactly when the hour does. */
  lemma {:induction false} EnrichRowSpec(o: Observation)
    requires ParsesToTimestamp(o.date)
    ensures EnrichedFrom(o, EnrichRow(o, ToTimestamp(o.date)))
    ensures HasValidDatetime(EnrichRow(o, ToTimestamp(o.date))) <==> HourFits(o)
  {
    var d := ToTimestamp(o.date);
    var t := AddHours(d, o.hour);
    assert Instant(t) == DayNumber(d) * 24 + o.hour;
  }

  /** The enriched columns hold the parsed date's parts, and `datetime` is `hour` hours after its midnight. */
  lemma {:induction false} EnrichedColumns(obs: seq<Observation>)
    requires forall i :: 0 <= i < |obs| ==> ParsesToTimestamp(obs[i].date)
    ensures forall i :: 0 <= i < |obs| ==> EnrichedFrom(obs[i], EnrichRows(obs, DateColumn(obs))[i])
    ensures forall i :: 0 <= i < |obs| ==> (HasValidDatetime(EnrichRows(obs, DateColumn(obs))[i]) <==> HourFits(obs[i]))
  {
    var rows := EnrichRows(obs, DateColumn(obs));
    forall i | 0 <= i < |obs|
      ensures EnrichedFrom(obs[i], rows[i])
      ensures HasValidDatetime(rows[i]) <==> HourFits(obs[i])
    {
      EnrichRowSpec(obs[i]);
    }
  }

  function HasValidDatetime(r: EnrichedRow): bool {
    DateTimeInRange(r.datetime)
  }

  /**
    `preprocess_data`: the enriched table and the daily series. The whole batch fails when
    one date does not parse or fit (the column is converted first), when one hour count
    overflows `to_timedelta` (the hour column is converted next), or when one
    `date + hour` leaves the datetime range.
  */
  function PreprocessData(obs: seq<Observation>): (r: Result<(seq<EnrichedRow>, seq<DayTotal>), EnrichError>)
    ensures r.Failure? ==> r.error.row < |obs|
    ensures r.Failure? && (r.error.MalformedDate? || r.error.DateOutOfBounds?) ==>
      && !ParsesToTimestamp(obs[r.error.row].date)
      && forall i :: 0 <= i < r.error.row ==> ParsesToTimestamp(obs[i].date)
    ensures r.Failure? && r.error.TimedeltaOutOfBounds? ==>
      && (forall i :: 0 <= i < |obs| ==> ParsesToTimestamp(obs[i].date))
      && !TimedeltaFits(obs[r.error.row].hour)
      && forall i :: 0 <= i < r.error.row ==> TimedeltaFits(obs[i].hour)
    ensures r.Failure? && r.error.DatetimeOutOfBounds? ==>
      && (forall i :: 0 <= i < |obs| ==> ParsesToTimestamp(obs[i].date) && TimedeltaFits(obs[i].hour))
      && !HourFits(obs[r.error.row])
      && forall i :: 0 <= i < r.error.row ==> HourFits(obs[i])
    ensures r.Success? ==> |r.value.0| == |obs| && r.value.1 == DailySeries(r.value.0)
    ensures r.Success? ==> forall i :: 0 <= i < |obs| ==>
      TimedeltaFits(obs[i].hour) && HourFits(obs[i]) && EnrichedFrom(obs[i], r.value.0[i])
  {
    match ToDatetimeColumn(obs)
    case Failure(e) => Failure(e)
    case Success(_) => ConvertHours(obs)
  }

  /** The hour column converted to timedeltas, once the date column has converted. */
  function ConvertHours(obs: seq<Observation>): (r: Result<(seq<EnrichedRow>, seq<DayTotal>), EnrichError>)
    requires forall i :: 0 <= i < |obs| ==> ParsesToTimestamp(obs[i].date)
    ensures r.Failure? ==> (r.error.TimedeltaOutOfBounds? || r.error.DatetimeOutOfBounds?) && r.error.row < |obs|
    ensures r.Failure? && r.error.TimedeltaOutOfBounds? ==>
      && !TimedeltaFits(obs[r.error.row].hour)
      && forall i :: 0 <= i < r.error.row ==> TimedeltaFits(obs[i].hour)
    ensures r.Failure? && r.error.DatetimeOutOfBounds? ==>
      && (forall i :: 0 <= i < |obs| ==> TimedeltaFits(obs[i].hour))
      && !HourFits(obs[r.error.row])
      && forall i :: 0 <= i < r.error.row ==> HourFits(obs[i])
    ensures r.Success? ==> |r.value.0| == |obs| && r.value.1 == DailySeries(r.value.0)
    ensures r.Success? ==> forall i :: 0 <= i < |obs| ==>
      TimedeltaFits(obs[i].hour) && HourFits(obs[i]) && EnrichedFrom(obs[i], r.value.0[i])
  {
    match FirstFailing(obs, TimedeltaCell)
    case Some(k) => Failure(TimedeltaOutOfBounds(k))
    case None => EnrichConverted(obs)
  }

  function TimedeltaCell(o: Observation): bool {
    TimedeltaFits(o.hour)
  }

  /** The steps of `preprocess_data` after the date and hour columns have converted. */
  function EnrichConverted(obs: seq<Observation>): (r: Result<(seq<EnrichedRow>, seq<DayTotal>), EnrichError>)
    requires forall i :: 0 <= i < |obs| ==> ParsesToTimestamp(obs[i].date)
    ensures r.Failure? ==>
      && r.error.DatetimeOutOfBounds?
      && r.error.row < |obs| && !HourFits(obs[r.error.row])
      && forall i :: 0 <= i < r.error.row ==> HourFits(obs[i])
    ensures r.Success? ==> |r.value.0| == |obs| && r.value.1 == DailySeries(r.value.0)
    ensures r.Success? ==> forall i :: 0 <= i < |obs| ==> HourFits(obs[i]) && EnrichedFrom(obs[i], r.value.0[i])
  {
    match FirstFailing(obs, HourFitsCell)
    case Some(k) => Failure(DatetimeOutOfBounds(k))
    case None =>
      var rows := EnrichRows(obs, DateColumn(obs));
      EnrichedColumns(obs);
      Success((rows, DailySeries(rows)))
  }

  /** The row's `date + hour` is a datetime pandas can hold. */
  function HourFitsCell(o: Observation): bool {
    HourFits(o)
  }

  /**
    A convertible date with an hour count too large for a 64-bit timedelta fails at the hour
    column, whatever datetime the sum would give.
  */
  lemma {:induction false} HugeHourRejected()
    ensures var o := Observation("01/01/1700", 2_562_048, 0, Covariates([], []));
      && ParsesToTimestamp(o.date)
      && PreprocessData([o]) == Failure(TimedeltaOutOfBounds(0))
  {
    var o := Observation("01/01/1700", 2_562_048, 0, Covariates([], []));
    FirstOf1700InRange();
    TimedeltaHours(o.hour);
    FirstHourOverflowRejected([o]);
  }

  /** "01/01/1700" is a date inside pandas' timestamp range. */
  lemma {:induction false} FirstOf1700InRange()
    ensures ParsesToTimestamp("01/01/1700")
  {
    FirstOf1700Parses();
    assert InTimestampRange(Date(1700, 1, 1));
  }

  /** When every date converts, a first row whose hour count overflows fails the batch at row 0. */
  lemma {:induction false} FirstHourOverflowRejected(obs: seq<Observation>)
    requires |obs| > 0 && !TimedeltaFits(obs[0].hour)
    requires forall i :: 0 <= i < |obs| ==> ParsesToTimestamp(obs[i].date)
    ensures PreprocessData(obs) == Failure(TimedeltaOutOfBounds(0))
  {
    var r := PreprocessData(obs);
    assert r.Failure?;
    assert r.error.row == 0;
  }

  /** Every batch of convertible rows is accepted: the failure cases above are the only ones. */
  lemma {:induction false} PreprocessAccepts(obs: seq<Observation>)
    requires forall i :: 0 <= i < |obs| ==> TimedeltaFits(obs[i].hour) && HourFits(obs[i])
    ensures PreprocessData(obs).Success?
  {
    var dates := DateColumn(obs);
    var rows := EnrichRows(obs, dates);
    assert forall i :: 0 <= i < |rows| ==> HasValidDatetime(rows[i]);
  }

  function TotalCount(rows: seq<EnrichedRow>): nat {
    if |rows| == 0 then 0 else rows[0].rentedBikeCount + TotalCount(rows[1..])
  }

  // ---------------------------------------------------------------------------------------
  // Daily series: `set_index('datetime').resample('D').sum()` then the days whose sum is 0 removed.

  /** One point of the daily series. */
  datatype DayTotal = DayTotal(date: CivilDate, rentedBikeCount: nat)

  /** Rentals of the rows whose `datetime` falls on day `d`. */
  function SumOnDay(rows: seq<EnrichedRow>, d: Date): nat {
    if |rows| == 0 then 0
    else (if rows[0].datetime.date == d then rows[0].rentedBikeCount else 0) + SumOnDay(rows[1..], d)
  }

  function DayEntries(rows: seq<EnrichedRow>): (es: seq<Entry>)
    ensures |es| == |rows|
    ensures forall i :: 0 <= i < |rows| ==> es[i] == Entry(DateKey(rows[i].datetime.date), rows[i].rentedBikeCount)
  {
    if |rows| == 0 then [] else [Entry(DateKey(rows[0].datetime.date), rows[0].rentedBikeCount)] + DayEntries(rows[1..])
  }

  lemma {:induction false} DayEntriesSums(rows: seq<EnrichedRow>, d: CivilDate)
    ensures SumAt(DayEntries(rows), DateKey(d)) == SumOnDay(rows, d)
    ensures SumOf(DayEntries(rows)) == TotalCount(rows)
    ensures forall k :: k in KeySet(DayEntries(rows)) ==> IsDateKey(k)
  {
    if |rows| > 0 {
      var es := DayEntries(rows);
      assert es[1..] == DayEntries(rows[1..]);
      DayEntriesSums(rows[1..], d);
      DateKeyOrder(rows[0].datetime.date, d);
      DateKeyRoundTrip(rows[0].datetime.date);
    }
  }

  function SumDays(ts: seq<DayTotal>): nat {
    if |ts| == 0 then 0 else ts[0].rentedBikeCount + SumDays(ts[1..])
  }

  /** Buckets keyed by `yyyymmdd` read back as dated totals. */
  function DayTotals(bs: seq<Bucket>): (ts: seq<DayTotal>)
    requires forall i :: 0 <= i < |bs| ==> IsDateKey(bs[i].key)
    ensures |ts| == |bs|
    ensures forall i :: 0 <= i < |bs| ==> ts[i] == DayTotal(DateOfKey(bs[i].key), bs[i].total)
    ensures SumDays(ts) == Totals(bs)
  {
    if |bs| == 0 then [] else
      var ts := [DayTotal(DateOfKey(bs[0].key), bs[0].total)] + DayTotals(bs[1..]);
      assert ts[1..] == DayTotals(bs[1..]);
      ts
  }

  function IsNonZeroDay(t: DayTotal): bool {
    t.rentedBikeCount != 0
  }

  lemma {:induction false} DropZeroDays(ts: seq<DayTotal>)
    ensures SumDays(Filter(ts, IsNonZeroDay)) == SumDays(ts)
  {
    if |ts| > 0 {
      DropZeroDays(ts[1..]);
      if IsNonZeroDay(ts[0]) {
        assert ([ts[0]] + Filter(ts[1..], IsNonZeroDay))[1..] == Filter(ts[1..], IsNonZeroDay);
      }
    }
  }

  /** Dropping elements keeps a chronological sequence chronological. */
  lemma {:induction false} FilterKeepsDayOrder(ts: seq<DayTotal>)
    requires forall i, j :: 0 <= i < j < |ts| ==> Before(ts[i].date, ts[j].date)
    ensures forall i, j :: 0 <= i < j < |Filter(ts, IsNonZeroDay)| ==>
      Before(Filter(ts, IsNonZeroDay)[i].date, Filter(ts, IsNonZeroDay)[j].date)
  {
    if |ts| > 0 {
      FilterKeepsDayOrder(ts[1..]);
      var rest := Filter(ts[1..], IsNonZeroDay);
      if IsNonZeroDay(ts[0]) {
        var r := Filter(ts, IsNonZeroDay);
        assert r[1..] == rest;
        forall i, j | 0 <= i < j < |r|
          ensures Before(r[i].date, r[j].date)
        {
          var x, y := r[i], r[j];
          assert y == rest[j - 1];
          if i == 0 {
            var k :| 0 <= k < |ts[1..]| && ts[1..][k] == y;
            assert ts[k + 1] == y;
          } else {
            assert x == rest[i - 1];
          }
        }
      }
    }
  }

  /** Every day some row falls on, with the rentals summed per day, in key order. */
  function AllDays(rows: seq<EnrichedRow>): seq<DayTotal> {
    var es := DayEntries(rows);
    GroupByBuckets(es);
    DayEntriesSums(rows, Date(1970, 1, 1));
    DayTotals(GroupBy(es))
  }

  lemma {:induction false} AllDaysOrdered(rows: seq<EnrichedRow>)
    ensures forall i, j :: 0 <= i < j < |AllDays(rows)| ==> Before(AllDays(rows)[i].date, AllDays(rows)[j].date)
  {
    var es := DayEntries(rows);
    var bs := GroupBy(es);
    GroupByBuckets(es);
    DayEntriesSums(rows, Date(1970, 1, 1));
    var ts := AllDays(rows);
    forall i, j | 0 <= i < j < |ts|
      ensures Before(ts[i].date, ts[j].date)
    {
      KeyOfDateOfKey(bs[i].key);
      KeyOfDateOfKey(bs[j].key);
      DateKeyOrder(ts[i].date, ts[j].date);
    }
  }

  lemma {:induction false} AllDaysSums(rows: seq<EnrichedRow>)
    ensures forall i :: 0 <= i < |AllDays(rows)| ==> AllDays(rows)[i].rentedBikeCount == SumOnDay(rows, AllDays(rows)[i].date)
    ensures SumDays(AllDays(rows)) == TotalCount(rows)
  {
    var es := DayEntries(rows);
    var bs := GroupBy(es);
    GroupByBuckets(es);
    DayEntriesSums(rows, Date(1970, 1, 1));
    var ts := AllDays(rows);
    forall i | 0 <= i < |ts|
      ensures ts[i].rentedBikeCount == SumOnDay(rows, ts[i].date)
    {
      KeyOfDateOfKey(bs[i].key);
      DayEntriesSums(rows, ts[i].date);
    }
  }

  lemma {:induction false} AllDaysCover(rows: seq<EnrichedRow>, i: int)
    requires 0 <= i < |rows|
    ensures exists j :: 0 <= j < |AllDays(rows)| && AllDays(rows)[j].date == rows[i].datetime.date
  {
    var es := DayEntries(rows);
    GroupByCovers(es, i);
    var j :| 0 <= j < |GroupBy(es)| && GroupBy(es)[j].key == es[i].key;
    DateKeyRoundTrip(rows[i].datetime.date);
    assert AllDays(rows)[j].date == rows[i].datetime.date;
  }

  /**
    The daily series. pandas' resample also creates the days between the first and the
    last one that have no row; their sum is 0, so the filter removes them again.
  */
  function DailySeries(rows: seq<EnrichedRow>): seq<DayTotal> {
    Filter(AllDays(rows), IsNonZeroDay)
  }

  /**
    The daily series lists, in chronological order, exactly the days with rentals, each
    with the rentals of the rows falling on it; nothing is lost or counted twice.
  */
  lemma {:induction false} DailySeriesSpec(rows: seq<EnrichedRow>)
    ensures var r := DailySeries(rows);
      && (forall i, j :: 0 <= i < j < |r| ==> Before(r[i].date, r[j].date))
      && (forall i :: 0 <= i < |r| ==> r[i].rentedBikeCount > 0 && r[i].rentedBikeCount == SumOnDay(rows, r[i].date))
      && (forall i :: 0 <= i < |rows| && SumOnDay(rows, rows[i].datetime.date) > 0 ==>
            exists j :: 0 <= j < |r| && r[j].date == rows[i].datetime.date)
      && SumDays(r) == TotalCount(rows)
  {
    var ts := AllDays(rows);
    var r := DailySeries(rows);
    AllDaysOrdered(rows);
    AllDaysSums(rows);
    FilterKeepsDayOrder(ts);
    DropZeroDays(ts);
    forall i | 0 <= i < |rows| && SumOnDay(rows, rows[i].datetime.date) > 0
      ensures exists j :: 0 <= j < |r| && r[j].date == rows[i].datetime.date
    {
      AllDaysCover(rows, i);
      var j :| 0 <= j < |ts| && ts[j].date == rows[i].datetime.date;
      assert ts[j] in r;
    }
  }

  // ---------------------------------------------------------------------------------------
  // Monthly totals: `groupby('month').sum()` with month numbers relabelled `Jan` ... `Dec`.

  function MonthAbbrev(m: MonthNumber): string {
    ["Jan", "Feb", "Mar", "Apr", "May", "Jun", "Jul", "Aug", "Sep", "Oct", "Nov", "Dec"][m - 1]
  }

  /** The month number behind an abbreviation, the inverse of `month_map`. */
  function MonthOfAbbrev(s: string): (r: Option<MonthNumber>)
    ensures r.Some? ==> MonthAbbrev(r.value) == s
  {
    if s == "Jan" then Some(1) else if s == "Feb" then Some(2) else if s == "Mar" then Some(3)
    else if s == "Apr" then Some(4) else if s == "May" then Some(5) else if s == "Jun" then Some(6)
    else if s == "Jul" then Some(7) else if s == "Aug" then Some(8) else if s == "Sep" then Some(9)
    else if s == "Oct" then Some(10) else if s == "Nov" then Some(11) else if s == "Dec" then Some(12)
    else None
  }

  /** `month_map` is injective: each month gets its own label, and the label gives the month back. */
  lemma {:induction false} MonthAbbrevBijective(m: MonthNumber)
    ensures MonthOfAbbrev(MonthAbbrev(m)) == Some(m)
  {
  }

  datatype MonthTotal = MonthTotal(month: string, rentedBikeCount: nat)

  /** Month numbers present in the table. */
  function MonthsPresent(rows: seq<EnrichedRow>): set<int> {
    if |rows| == 0 then {} else {rows[0].month} + MonthsPresent(rows[1..])
  }

  /** Rentals of every row with month `m`, whatever its year. */
  function SumInMonth(rows: seq<EnrichedRow>, m: int): nat {
    if |rows| == 0 then 0
    else (if rows[0].month == m then rows[0].rentedBikeCount else 0) + SumInMonth(rows[1..], m)
  }

  function MonthEntries(rows: seq<EnrichedRow>): (es: seq<Entry>)
    ensures |es| == |rows|
    ensures forall i :: 0 <= i < |rows| ==> es[i] == Entry(rows[i].month, rows[i].rentedBikeCount)
  {
    if |rows| == 0 then [] else [Entry(rows[0].month, rows[0].rentedBikeCount)] + MonthEntries(rows[1..])
  }

  lemma {:induction false} MonthEntriesSums(rows: seq<EnrichedRow>, m: int)
    ensures SumAt(MonthEntries(rows), m) == SumInMonth(rows, m)
    ensures SumOf(MonthEntries(rows)) == TotalCount(rows)
    ensures KeySet(MonthEntries(rows)) == MonthsPresent(rows)
  {
    if |rows| > 0 {
      assert MonthEntries(rows)[1..] == MonthEntries(rows[1..]);
      MonthEntriesSums(rows[1..], m);
    }
  }

  function SumMonths(ts: seq<MonthTotal>): nat {
    if |ts| == 0 then 0 else ts[0].rentedBikeCount + SumMonths(ts[1..])
  }

  function MonthTotals(bs: seq<Bucket>): (ts: seq<MonthTotal>)
    requires forall i :: 0 <= i < |bs| ==> 1 <= bs[i].key <= 12
    ensures |ts| == |bs|
    ensures forall i :: 0 <= i < |bs| ==> ts[i] == MonthTotal(MonthAbbrev(bs[i].key), bs[i].total)
    ensures SumMonths(ts) == Totals(bs)
  {
    if |bs| == 0 then [] else
      var ts := [MonthTotal(MonthAbbrev(bs[0].key), bs[0].total)] + MonthTotals(bs[1..]);
      assert ts[1..] == MonthTotals(bs[1..]);
      ts
  }

  /**
    `total_month_rentals_df`: one row per month number present, in month order, labelled
    by its abbreviation; the same month of different years is summed together.
  */
  function TotalMonthRentals(rows: seq<EnrichedRow>): seq<MonthTotal> {
    MonthKeys(rows);
    MonthTotals(GroupBy(MonthEntries(rows)))
  }

  /** A bucket of the month grouping: a month present in the table, with its rentals. */
  lemma {:induction false} MonthBucket(rows: seq<EnrichedRow>, j: int)
    requires 0 <= j < |GroupBy(MonthEntries(rows))|
    ensures var k := GroupBy(MonthEntries(rows))[j].key;
      && 1 <= k <= 12
      && k in MonthsPresent(rows)
      && GroupBy(MonthEntries(rows))[j].total == SumInMonth(rows, k)
  {
    var es := MonthEntries(rows);
    GroupByAt(es, j);
    var i :| 0 <= i < |es| && es[i].key == GroupBy(es)[j].key;
    MonthEntriesSums(rows, es[i].key);
  }

  lemma {:induction false} MonthKeys(rows: seq<EnrichedRow>)
    ensures forall j :: 0 <= j < |GroupBy(MonthEntries(rows))| ==> 1 <= GroupBy(MonthEntries(rows))[j].key <= 12
  {
    forall j | 0 <= j < |GroupBy(MonthEntries(rows))|
      ensures 1 <= GroupBy(MonthEntries(rows))[j].key <= 12
    {
      MonthBucket(rows, j);
    }
  }

  /**
    `total_month_rentals_df`: each row names, by its abbreviation, a month present in the
    table and holds that month's rentals over all years; the months ascend.
  */
  lemma {:induction false} TotalMonthRentalsRows(rows: seq<EnrichedRow>)
    ensures var r := TotalMonthRentals(rows);
      && (forall i :: 0 <= i < |r| ==>
            && MonthOfAbbrev(r[i].month).Some?
            && MonthOfAbbrev(r[i].month).value in MonthsPresent(rows)
            && r[i].rentedBikeCount == SumInMonth(rows, MonthOfAbbrev(r[i].month).value))
      && (forall i, j :: 0 <= i < j < |r| ==> MonthOfAbbrev(r[i].month).value < MonthOfAbbrev(r[j].month).value)
  {
    var bs := GroupBy(MonthEntries(rows));
    var r := TotalMonthRentals(rows);
    forall i | 0 <= i < |r|
      ensures 1 <= bs[i].key <= 12 && MonthOfAbbrev(r[i].month) == Some(bs[i].key as MonthNumber)
      ensures bs[i].key in MonthsPresent(rows) && r[i].rentedBikeCount == SumInMonth(rows, bs[i].key)
    {
      MonthBucket(rows, i);
      MonthAbbrevBijective(bs[i].key);
    }
  }

  /** Every month present gets a row, and the rows add up to the table's total. */
  lemma {:induction false} TotalMonthRentalsComplete(rows: seq<EnrichedRow>)
    ensures var r := TotalMonthRentals(rows);
      && |r| == |MonthsPresent(rows)|
      && (forall m :: m in MonthsPresent(rows) ==> exists i :: 0 <= i < |r| && r[i].month == MonthAbbrev(m))
      && SumMonths(r) == TotalCount(rows)
  {
    var es := MonthEntries(rows);
    var bs := GroupBy(es);
    var r := TotalMonthRentals(rows);
    MonthEntriesSums(rows, 1);
    GroupByLength(es);
    forall m | m in MonthsPresent(rows)
      ensures exists i :: 0 <= i < |r| && r[i].month == MonthAbbrev(m)
    {
      KeySetMembers(es);
      var k :| 0 <= k < |es| && es[k].key == m;
      GroupByCovers(es, k);
      var i :| 0 <= i < |bs| && bs[i].key == m;
      assert r[i].month == MonthAbbrev(m);
    }
  }

  /** Monthly totals merge years: the total of a month over two tables is the sum of its totals in each. */
  lemma {:induction false} SumInMonthAppend(a: seq<EnrichedRow>, b: seq<EnrichedRow>, m: int)
    ensures SumInMonth(a + b, m) == SumInMonth(a, m) + SumInMonth(b, m)
  {
    if |a| == 0 {
      assert a + b == b;
    } else {
      assert (a + b)[1..] == a[1..] + b;
      SumInMonthAppend(a[1..], b, m);
    }
  }

  // ---------------------------------------------------------------------------------------
  // Month/year view: daily totals of one month of one year, each with the mean of the
  // totals of the same weekday within that month.

  function InMonth(monthNum: int, year: int): EnrichedRow -> bool {
    (r: EnrichedRow) => r.month == monthNum && r.year == year
  }

  /** `month_df[(month == month_num) & (year == year)]`. */
  function SelectMonth(rows: seq<EnrichedRow>, monthNum: int, year: int): seq<EnrichedRow> {
    Filter(rows, InMonth(monthNum, year))
  }

  /** Rentals of the rows dated `d`. */
  function SumOnDate(rows: seq<EnrichedRow>, d: Date): nat {
    if |rows| == 0 then 0
    else (if rows[0].date == d then rows[0].rentedBikeCount else 0) + SumOnDate(rows[1..], d)
  }

  function DateEntries(rows: seq<EnrichedRow>): (es: seq<Entry>)
    ensures |es| == |rows|
    ensures forall i :: 0 <= i < |rows| ==> es[i] == Entry(DateKey(rows[i].date), rows[i].rentedBikeCount)
  {
    if |rows| == 0 then [] else [Entry(DateKey(rows[0].date), rows[0].rentedBikeCount)] + DateEntries(rows[1..])
  }

  lemma {:induction false} DateEntriesSums(rows: seq<EnrichedRow>, d: CivilDate)
    ensures SumAt(DateEntries(rows), DateKey(d)) == SumOnDate(rows, d)
    ensures forall k :: k in KeySet(DateEntries(rows)) ==> IsDateKey(k)
  {
    if |rows| > 0 {
      assert DateEntries(rows)[1..] == DateEntries(rows[1..]);
      DateEntriesSums(rows[1..], d);
      DateKeyOrder(rows[0].date, d);
      DateKeyRoundTrip(rows[0].date);
    }
  }

  /** A date of the selected month with its summed rentals and weekday name. */
  datatype DayCount = DayCount(date: CivilDate, rentedBikeCount: nat, dayOfWeek: string)

  function DayCounts(bs: seq<Bucket>): (ds: seq<DayCount>)
    requires forall i :: 0 <= i < |bs| ==> IsDateKey(bs[i].key)
    ensures |ds| == |bs|
    ensures forall i :: 0 <= i < |bs| ==>
      ds[i] == DayCount(DateOfKey(bs[i].key), bs[i].total, WeekdayName(Weekday(DateOfKey(bs[i].key))))
  {
    if |bs| == 0 then [] else
      var d := DateOfKey(bs[0].key);
      [DayCount(d, bs[0].total, WeekdayName(Weekday(d)))] + DayCounts(bs[1..])
  }

  /** How many of the days fall on weekday `name`, and their summed rentals. */
  function CountNamed(ds: seq<DayCount>, name: string): nat {
    if |ds| == 0 then 0 else (if ds[0].dayOfWeek == name then 1 else 0) + CountNamed(ds[1..], name)
  }

  function SumNamed(ds: seq<DayCount>, name: string): nat {
    if |ds| == 0 then 0 else (if ds[0].dayOfWeek == name then ds[0].rentedBikeCount else 0) + SumNamed(ds[1..], name)
  }

  lemma {:induction false} CountNamedPositive(ds: seq<DayCount>, i: int)
    requires 0 <= i < |ds|
    ensures CountNamed(ds, ds[i].dayOfWeek) > 0
  {
    if i > 0 {
      assert ds[1..][i - 1] == ds[i];
      CountNamedPositive(ds[1..], i - 1);
    }
  }

  lemma {:induction false} EveryWeekdayCounted(ds: seq<DayCount>)
    ensures forall i :: 0 <= i < |ds| ==> CountNamed(ds, ds[i].dayOfWeek) > 0
  {
    forall i | 0 <= i < |ds|
      ensures CountNamed(ds, ds[i].dayOfWeek) > 0
    {
      CountNamedPositive(ds, i);
    }
  }

  /** A row of `get_monthly_rentals_df`. */
  datatype MonthDay = MonthDay(date: CivilDate, rentedBikeCount: nat, dayOfWeek: string, avgRentals: real)

  /** The rows' count and total on weekday `name`, read from the joined view. */
  function ViewCountNamed(r: seq<MonthDay>, name: string): nat {
    if |r| == 0 then 0 else (if r[0].dayOfWeek == name then 1 else 0) + ViewCountNamed(r[1..], name)
  }

  function ViewSumNamed(r: seq<MonthDay>, name: string): nat {
    if |r| == 0 then 0 else (if r[0].dayOfWeek == name then r[0].rentedBikeCount else 0) + ViewSumNamed(r[1..], name)
  }

  /** `average_per_week` merged back onto the days by weekday name. */
  function JoinWeekdayMeans(ds: seq<DayCount>, all: seq<DayCount>): (r: seq<MonthDay>)
    requires forall i :: 0 <= i < |ds| ==> CountNamed(all, ds[i].dayOfWeek) > 0
    ensures |r| == |ds|
    ensures forall i :: 0 <= i < |ds| ==>
      r[i] == MonthDay(ds[i].date, ds[i].rentedBikeCount, ds[i].dayOfWeek,
                       SumNamed(all, ds[i].dayOfWeek) as real / CountNamed(all, ds[i].dayOfWeek) as real)
    ensures forall name :: ViewCountNamed(r, name) == CountNamed(ds, name) && ViewSumNamed(r, name) == SumNamed(ds, name)
  {
    if |ds| == 0 then [] else
      var n := ds[0].dayOfWeek;
      var x := MonthDay(ds[0].date, ds[0].rentedBikeCount, n, SumNamed(all, n) as real / CountNamed(all, n) as real);
      var rest := JoinWeekdayMeans(ds[1..], all);
      ViewNamedCons(x, rest);
      [x] + rest
  }

  /** The weekday counts and sums of a view with one more row in front. */
  lemma {:induction false} ViewNamedCons(x: MonthDay, rest: seq<MonthDay>)
    ensures forall name :: ViewCountNamed([x] + rest, name) == (if x.dayOfWeek == name then 1 else 0) + ViewCountNamed(rest, name)
    ensures forall name :: ViewSumNamed([x] + rest, name) == (if x.dayOfWeek == name then x.rentedBikeCount else 0) + ViewSumNamed(rest, name)
  {
    assert ([x] + rest)[1..] == rest;
  }

  /** Each row's weekday mean is the summed rentals of the rows on that weekday over their number. */
  predicate WeekdayMeansHold(r: seq<MonthDay>) {
    forall i :: 0 <= i < |r| ==>
      && ViewCountNamed(r, r[i].dayOfWeek) > 0
      && r[i].avgRentals == ViewSumNamed(r, r[i].dayOfWeek) as real / ViewCountNamed(r, r[i].dayOfWeek) as real
  }

  /** Joining the days with their own weekday means: each mean times its weekday's day count is their total. */
  lemma {:induction false} JoinedMeans(ds: seq<DayCount>)
    requires forall i :: 0 <= i < |ds| ==> CountNamed(ds, ds[i].dayOfWeek) > 0
    ensures WeekdayMeansHold(JoinWeekdayMeans(ds, ds))
  {
    var r := JoinWeekdayMeans(ds, ds);
    forall i | 0 <= i < |r|
      ensures ViewCountNamed(r, r[i].dayOfWeek) > 0
      ensures r[i].avgRentals == ViewSumNamed(r, r[i].dayOfWeek) as real / ViewCountNamed(r, r[i].dayOfWeek) as real
    {
      var n := ds[i].dayOfWeek;
      assert r[i].dayOfWeek == n;
      assert ViewCountNamed(r, n) == CountNamed(ds, n) && ViewSumNamed(r, n) == SumNamed(ds, n);
    }
  }

  /** A bucket of the date grouping: a date some row carries, with that date's rentals. */
  lemma {:induction false} DateBucket(sel: seq<EnrichedRow>, j: int)
    requires 0 <= j < |GroupBy(DateEntries(sel))|
    ensures var k := GroupBy(DateEntries(sel))[j].key;
      && IsDateKey(k)
      && GroupBy(DateEntries(sel))[j].total == SumOnDate(sel, DateOfKey(k))
      && exists i :: 0 <= i < |sel| && sel[i].date == DateOfKey(k)
  {
    var es := DateEntries(sel);
    var k := GroupBy(es)[j].key;
    GroupByAt(es, j);
    var i :| 0 <= i < |es| && es[i].key == k;
    DateKeyRoundTrip(sel[i].date);
    DateEntriesSums(sel, sel[i].date);
  }

  lemma {:induction false} DateKeys(sel: seq<EnrichedRow>)
    ensures forall j :: 0 <= j < |GroupBy(DateEntries(sel))| ==> IsDateKey(GroupBy(DateEntries(sel))[j].key)
  {
    forall j | 0 <= j < |GroupBy(DateEntries(sel))|
      ensures IsDateKey(GroupBy(DateEntries(sel))[j].key)
    {
      DateBucket(sel, j);
    }
  }

  /** The distinct dates of `sel` with their rentals and weekday names: `groupby('date').sum()`. */
  function DaysOf(sel: seq<EnrichedRow>): seq<DayCount> {
    DateKeys(sel);
    DayCounts(GroupBy(DateEntries(sel)))
  }

  lemma {:induction false} DaysOfOrdered(sel: seq<EnrichedRow>)
    ensures forall i, j :: 0 <= i < j < |DaysOf(sel)| ==> Before(DaysOf(sel)[i].date, DaysOf(sel)[j].date)
  {
    var bs := GroupBy(DateEntries(sel));
    var ds := DaysOf(sel);
    forall i, j | 0 <= i < j < |ds|
      ensures Before(ds[i].date, ds[j].date)
    {
      KeyOfDateOfKey(bs[i].key);
      KeyOfDateOfKey(bs[j].key);
      DateKeyOrder(ds[i].date, ds[j].date);
    }
  }

  lemma {:induction false} DaysOfAt(sel: seq<EnrichedRow>, i: int)
    requires 0 <= i < |DaysOf(sel)|
    ensures DaysOf(sel)[i].rentedBikeCount == SumOnDate(sel, DaysOf(sel)[i].date)
    ensures DaysOf(sel)[i].dayOfWeek == WeekdayName(Weekday(DaysOf(sel)[i].date))
    ensures exists k :: 0 <= k < |sel| && sel[k].date == DaysOf(sel)[i].date
  {
    DateBucket(sel, i);
  }

  lemma {:induction false} DaysOfCover(sel: seq<EnrichedRow>, k: int)
    requires 0 <= k < |sel|
    ensures exists i :: 0 <= i < |DaysOf(sel)| && DaysOf(sel)[i].date == sel[k].date
  {
    var es := DateEntries(sel);
    GroupByCovers(es, k);
    var i :| 0 <= i < |GroupBy(es)| && GroupBy(es)[i].key == es[k].key;
    DateKeyRoundTrip(sel[k].date);
    assert DaysOf(sel)[i].date == sel[k].date;
  }

  /**
    `get_monthly_rentals_df`: one row per date of the selected month and year, in date
    order, with its summed rentals, its weekday name, and the mean daily total of the
    dates of that month sharing the weekday.
  */
  function MonthlyRentals(rows: seq<EnrichedRow>, monthNum: int, year: int): seq<MonthDay> {
    var ds := DaysOf(SelectMonth(rows, monthNum, year));
    EveryWeekdayCounted(ds);
    JoinWeekdayMeans(ds, ds)
  }

  /**
    The month/year view lists its dates in order, each a date of a selected row, with the
    rentals of the selected rows on that date and its weekday name.
  */
  lemma {:induction false} MonthlyRentalsRows(rows: seq<EnrichedRow>, monthNum: int, year: int)
    ensures var r := MonthlyRentals(rows, monthNum, year);
      && (forall i, j :: 0 <= i < j < |r| ==> Before(r[i].date, r[j].date))
      && (forall i :: 0 <= i < |r| ==>
            && r[i].rentedBikeCount == SumOnDate(SelectMonth(rows, monthNum, year), r[i].date)
            && r[i].dayOfWeek == WeekdayName(Weekday(r[i].date))
            && exists k :: 0 <= k < |rows| && rows[k].date == r[i].date && InMonth(monthNum, year)(rows[k]))
  {
    var sel := SelectMonth(rows, monthNum, year);
    var r := MonthlyRentals(rows, monthNum, year);
    DaysOfOrdered(sel);
    forall i | 0 <= i < |r|
      ensures r[i].rentedBikeCount == SumOnDate(sel, r[i].date)
      ensures r[i].dayOfWeek == WeekdayName(Weekday(r[i].date))
      ensures exists k :: 0 <= k < |rows| && rows[k].date == r[i].date && InMonth(monthNum, year)(rows[k])
    {
      DaysOfAt(sel, i);
      var k :| 0 <= k < |sel| && sel[k].date == r[i].date;
      assert sel[k] in rows;
    }
  }

  /** Every selected row's date is listed, so the view is empty exactly when no row is selected. */
  lemma {:induction false} MonthlyRentalsComplete(rows: seq<EnrichedRow>, monthNum: int, year: int)
    ensures var r := MonthlyRentals(rows, monthNum, year);
      && (forall k :: 0 <= k < |rows| && InMonth(monthNum, year)(rows[k]) ==>
            exists i :: 0 <= i < |r| && r[i].date == rows[k].date)
      && (|r| == 0 <==> forall k :: 0 <= k < |rows| ==> !InMonth(monthNum, year)(rows[k]))
  {
    var sel := SelectMonth(rows, monthNum, year);
    var r := MonthlyRentals(rows, monthNum, year);
    forall k | 0 <= k < |rows| && InMonth(monthNum, year)(rows[k])
      ensures exists i :: 0 <= i < |r| && r[i].date == rows[k].date
    {
      assert rows[k] in sel;
      var m :| 0 <= m < |sel| && sel[m] == rows[k];
      DaysOfCover(sel, m);
    }
    if |r| > 0 {
      DaysOfAt(sel, 0);
      var m :| 0 <= m < |sel| && sel[m].date == r[0].date;
      assert sel[m] in rows;
    }
  }

  /**
    `average_per_week` is the mean over the listed days: each row's weekday mean is the
    summed rentals of the listed days on that weekday over their number.
  */
  lemma {:induction false} MonthlyRentalsWeekdayMean(rows: seq<EnrichedRow>, monthNum: int, year: int)
    ensures WeekdayMeansHold(MonthlyRentals(rows, monthNum, year))
  {
    var ds := DaysOf(SelectMonth(rows, monthNum, year));
    EveryWeekdayCounted(ds);
    JoinedMeans(ds);
    assert MonthlyRentals(rows, monthNum, year) == JoinWeekdayMeans(ds, ds);
  }

  /** When the derived columns agree with the dates, every listed date lies in the selected month. */
  lemma {:induction false} MonthlyRentalsInMonth(rows: seq<EnrichedRow>, monthNum: int, year: int)
    requires forall k :: 0 <= k < |rows| ==> Consistent(rows[k])
    ensures var r := MonthlyRentals(rows, monthNum, year);
      forall i :: 0 <= i < |r| ==> r[i].date.month == monthNum && r[i].date.year == year
  {
    MonthlyRentalsRows(rows, monthNum, year);
  }

  /** Rows outside the selected month and year change nothing in the view. */
  lemma {:induction false} MonthlyRentalsIgnoresOtherRows(rows: seq<EnrichedRow>, other: seq<EnrichedRow>, monthNum: int, year: int)
    requires forall k :: 0 <= k < |other| ==> !InMonth(monthNum, year)(other[k])
    ensures MonthlyRentals(rows + other, monthNum, year) == MonthlyRentals(rows, monthNum, year)
    ensures MonthlyRentals(other + rows, monthNum, year) == MonthlyRentals(rows, monthNum, year)
  {
    FilterAppend(rows, other, InMonth(monthNum, year));
    FilterAppend(other, rows, InMonth(monthNum, year));
    FilterNone(other, InMonth(monthNum, year));
    assert SelectMonth(rows + other, monthNum, year) == SelectMonth(rows, monthNum, year);
    assert SelectMonth(other + rows, monthNum, year) == SelectMonth(rows, monthNum, year);
  }

  // ---------------------------------------------------------------------------------------
  // Weekly totals: `groupby(date.strftime('%Y-W%V')).sum()`.

  /** Calendar year and ISO week as one integer key, `yyyyww`; it sorts as the labels do. */
  function WeekKey(d: TimestampDate): int {
    d.year * 100 + IsoWeek(d)
  }

  predicate IsWeekKey(k: int) {
    1677 <= k / 100 <= 2262 && 1 <= k % 100 <= 53
  }

  function WeekKeyLabel(k: int): string
    requires IsWeekKey(k)
  {
    WeekLabel(k / 100, k % 100)
  }

  lemma {:induction false} WeekKeyLabelOfDate(d: TimestampDate)
    ensures IsWeekKey(WeekKey(d)) && WeekKeyLabel(WeekKey(d)) == DateWeekLabel(d)
  {
    assert WeekKey(d) / 100 == d.year && WeekKey(d) % 100 == IsoWeek(d);
  }

  /** Week keys and their labels are ordered alike, and distinct keys have distinct labels. */
  lemma {:induction false} WeekKeyLabelOrder(k1: int, k2: int)
    requires IsWeekKey(k1) && IsWeekKey(k2)
    ensures LexLess(WeekKeyLabel(k1), WeekKeyLabel(k2)) <==> k1 < k2
    ensures WeekKeyLabel(k1) == WeekKeyLabel(k2) <==> k1 == k2
  {
    WeekLabelOrder(k1 / 100, k1 % 100, k2 / 100, k2 % 100);
  }

  /** Rentals of the rows whose date is labelled `yearWeek`. */
  function SumInWeek(rows: seq<EnrichedRow>, yearWeek: string): nat {
    if |rows| == 0 then 0
    else (if DateWeekLabel(rows[0].date) == yearWeek then rows[0].rentedBikeCount else 0) + SumInWeek(rows[1..], yearWeek)
  }

  function WeekEntries(rows: seq<EnrichedRow>): (es: seq<Entry>)
    ensures |es| == |rows|
    ensures forall i :: 0 <= i < |rows| ==> es[i] == Entry(WeekKey(rows[i].date), rows[i].rentedBikeCount)
  {
    if |rows| == 0 then [] else [Entry(WeekKey(rows[0].date), rows[0].rentedBikeCount)] + WeekEntries(rows[1..])
  }

  lemma {:induction false} WeekEntriesSums(rows: seq<EnrichedRow>, k: int)
    requires IsWeekKey(k)
    ensures SumAt(WeekEntries(rows), k) == SumInWeek(rows, WeekKeyLabel(k))
    ensures SumOf(WeekEntries(rows)) == TotalCount(rows)
    ensures forall k' :: k' in KeySet(WeekEntries(rows)) ==> IsWeekKey(k')
  {
    if |rows| > 0 {
      assert WeekEntries(rows)[1..] == WeekEntries(rows[1..]);
      WeekEntriesSums(rows[1..], k);
      WeekKeyLabelOfDate(rows[0].date);
      WeekKeyLabelOrder(WeekKey(rows[0].date), k);
    }
  }

  datatype WeekTotal = WeekTotal(yearWeek: string, totalRentals: nat)

  function SumWeeks(ts: seq<WeekTotal>): nat {
    if |ts| == 0 then 0 else ts[0].totalRentals + SumWeeks(ts[1..])
  }

  function WeekTotals(bs: seq<Bucket>): (ts: seq<WeekTotal>)
    requires forall i :: 0 <= i < |bs| ==> IsWeekKey(bs[i].key)
    ensures |ts| == |bs|
    ensures forall i :: 0 <= i < |bs| ==> ts[i] == WeekTotal(WeekKeyLabel(bs[i].key), bs[i].total)
    ensures SumWeeks(ts) == Totals(bs)
  {
    if |bs| == 0 then [] else
      var ts := [WeekTotal(WeekKeyLabel(bs[0].key), bs[0].total)] + WeekTotals(bs[1..]);
      assert ts[1..] == WeekTotals(bs[1..]);
      ts
  }

  /**
    `get_weekly_rentals_df`: one row per distinct `%Y-W%V` label, in ascending string
    order, holding the rentals of the rows carrying that label.
  */
  function WeeklyRentals(rows: seq<EnrichedRow>): seq<WeekTotal> {
    WeekKeys(rows);
    WeekTotals(GroupBy(WeekEntries(rows)))
  }

  /** A bucket of the week grouping: a week key some row carries, with the rentals of its label. */
  lemma {:induction false} WeekBucket(rows: seq<EnrichedRow>, j: int)
    requires 0 <= j < |GroupBy(WeekEntries(rows))|
    ensures var k := GroupBy(WeekEntries(rows))[j].key;
      && IsWeekKey(k)
      && GroupBy(WeekEntries(rows))[j].total == SumInWeek(rows, WeekKeyLabel(k))
      && exists i :: 0 <= i < |rows| && DateWeekLabel(rows[i].date) == WeekKeyLabel(k)
  {
    var es := WeekEntries(rows);
    GroupByAt(es, j);
    var i :| 0 <= i < |es| && es[i].key == GroupBy(es)[j].key;
    WeekKeyLabelOfDate(rows[i].date);
    WeekEntriesSums(rows, es[i].key);
  }

  lemma {:induction false} WeekKeys(rows: seq<EnrichedRow>)
    ensures forall j :: 0 <= j < |GroupBy(WeekEntries(rows))| ==> IsWeekKey(GroupBy(WeekEntries(rows))[j].key)
  {
    forall j | 0 <= j < |GroupBy(WeekEntries(rows))|
      ensures IsWeekKey(GroupBy(WeekEntries(rows))[j].key)
    {
      WeekBucket(rows, j);
    }
  }

  /**
    `get_weekly_rentals_df`: the labels ascend as strings, and each row holds the rentals
    of the table rows carrying its label, at least one of which exists.
  */
  lemma {:induction false} WeeklyRentalsRows(rows: seq<EnrichedRow>)
    ensures var r := WeeklyRentals(rows);
      && (forall i, j :: 0 <= i < j < |r| ==> LexLess(r[i].yearWeek, r[j].yearWeek))
      && (forall i :: 0 <= i < |r| ==>
            && r[i].totalRentals == SumInWeek(rows, r[i].yearWeek)
            && exists k :: 0 <= k < |rows| && DateWeekLabel(rows[k].date) == r[i].yearWeek)
  {
    var bs := GroupBy(WeekEntries(rows));
    var r := WeeklyRentals(rows);
    WeekKeys(rows);
    forall i, j | 0 <= i < j < |r|
      ensures LexLess(r[i].yearWeek, r[j].yearWeek)
    {
      WeekKeyLabelOrder(bs[i].key, bs[j].key);
    }
    forall i | 0 <= i < |r|
      ensures r[i].totalRentals == SumInWeek(rows, r[i].yearWeek)
      ensures exists k :: 0 <= k < |rows| && DateWeekLabel(rows[k].date) == r[i].yearWeek
    {
      WeekBucket(rows, i);
    }
  }

  lemma {:induction false} WeekCovered(rows: seq<EnrichedRow>, k: int)
    requires 0 <= k < |rows|
    ensures exists i :: 0 <= i < |WeeklyRentals(rows)| && WeeklyRentals(rows)[i].yearWeek == DateWeekLabel(rows[k].date)
  {
    var es := WeekEntries(rows);
    var bs := GroupBy(es);
    WeekKeys(rows);
    WeekKeyLabelOfDate(rows[k].date);
    GroupByCovers(es, k);
    var i :| 0 <= i < |bs| && bs[i].key == es[k].key;
    assert WeeklyRentals(rows)[i].yearWeek == WeekKeyLabel(WeekKey(rows[k].date));
  }

  /** Every row's label is listed, and the weekly totals add up to the table's total. */
  lemma {:induction false} WeeklyRentalsComplete(rows: seq<EnrichedRow>)
    ensures var r := WeeklyRentals(rows);
      && (forall k :: 0 <= k < |rows| ==> exists i :: 0 <= i < |r| && r[i].yearWeek == DateWeekLabel(rows[k].date))
      && SumWeeks(r) == TotalCount(rows)
  {
    WeekKeys(rows);
    WeekEntriesSums(rows, 167701);
    forall k | 0 <= k < |rows|
      ensures exists i :: 0 <= i < |WeeklyRentals(rows)| && WeeklyRentals(rows)[i].yearWeek == DateWeekLabel(rows[k].date)
    {
      WeekCovered(rows, k);
    }
  }

  // ---------------------------------------------------------------------------------------
  // Hourly means: `groupby('hour').mean()`.

  datatype HourMean = HourMean(hour: int, rentedBikeCount: real)

  function HourEntries(rows: seq<EnrichedRow>): (es: seq<Entry>)
    ensures |es| == |rows|
    ensures forall i :: 0 <= i < |rows| ==> es[i] == Entry(rows[i].hour, rows[i].rentedBikeCount)
  {
    if |rows| == 0 then [] else [Entry(rows[0].hour, rows[0].rentedBikeCount)] + HourEntries(rows[1..])
  }

  /** Rentals of the rows at hour `h`. */
  function SumAtHour(rows: seq<EnrichedRow>, h: int): nat {
    if |rows| == 0 then 0
    else (if rows[0].hour == h then rows[0].rentedBikeCount else 0) + SumAtHour(rows[1..], h)
  }

  /** Number of rows at hour `h`. */
  function CountAtHour(rows: seq<EnrichedRow>, h: int): nat {
    if |rows| == 0 then 0 else (if rows[0].hour == h then 1 else 0) + CountAtHour(rows[1..], h)
  }

  predicate HasHour(rows: seq<EnrichedRow>, h: int) {
    exists k :: 0 <= k < |rows| && rows[k].hour == h
  }

  lemma {:induction false} HourEntriesSums(rows: seq<EnrichedRow>, h: int)
    ensures SumAt(HourEntries(rows), h) == SumAtHour(rows, h)
    ensures CountAt(HourEntries(rows), h) == CountAtHour(rows, h)
  {
    if |rows| > 0 {
      assert HourEntries(rows)[1..] == HourEntries(rows[1..]);
      HourEntriesSums(rows[1..], h);
    }
  }

  function HourMeans(bs: seq<Bucket>): (ms: seq<HourMean>)
    requires forall i :: 0 <= i < |bs| ==> bs[i].count > 0
    ensures |ms| == |bs|
    ensures forall i :: 0 <= i < |bs| ==> ms[i] == HourMean(bs[i].key, Mean(bs[i]))
  {
    if |bs| == 0 then [] else [HourMean(bs[0].key, Mean(bs[0]))] + HourMeans(bs[1..])
  }

  function AverageHourlyRentals(rows: seq<EnrichedRow>): seq<HourMean> {
    var es := HourEntries(rows);
    GroupByBuckets(es);
    HourMeans(GroupBy(es))
  }

  /** One row of the hourly means: an hour present, whose mean lies between the hour's extremes. */
  lemma {:induction false} HourMeanAt(rows: seq<EnrichedRow>, j: int)
    requires 0 <= j < |AverageHourlyRentals(rows)|
    ensures var m := AverageHourlyRentals(rows)[j];
      && HasHour(rows, m.hour)
      && CountAtHour(rows, m.hour) > 0
      && m.rentedBikeCount == SumAtHour(rows, m.hour) as real / CountAtHour(rows, m.hour) as real
      && m.hour in KeySet(HourEntries(rows))
      && MinAt(HourEntries(rows), m.hour) as real <= m.rentedBikeCount <= MaxAt(HourEntries(rows), m.hour) as real
  {
    var es := HourEntries(rows);
    var b := GroupBy(es)[j];
    GroupByAt(es, j);
    var k :| 0 <= k < |es| && es[k].key == b.key;
    assert rows[k].hour == b.key;
    HourEntriesSums(rows, b.key);
    SumAtBounds(es, b.key, MinAt(es, b.key), MaxAt(es, b.key));
    MeanBetween(b.total, b.count, MinAt(es, b.key), MaxAt(es, b.key));
  }

  lemma {:induction false} HourCovered(rows: seq<EnrichedRow>, k: int)
    requires 0 <= k < |rows|
    ensures exists i :: 0 <= i < |AverageHourlyRentals(rows)| && AverageHourlyRentals(rows)[i].hour == rows[k].hour
  {
    var es := HourEntries(rows);
    GroupByCovers(es, k);
    var i :| 0 <= i < |GroupBy(es)| && GroupBy(es)[i].key == es[k].key;
    assert AverageHourlyRentals(rows)[i].hour == rows[k].hour;
  }

  /**
    `get_average_hourly_rentals_df`: one row per hour present, in ascending hour order,
    holding the mean of that hour's counts, which lies between their minimum and maximum.
  */
  lemma {:induction false} AverageHourlyRentalsSpec(rows: seq<EnrichedRow>)
    ensures var r := AverageHourlyRentals(rows);
      && (forall i, j :: 0 <= i < j < |r| ==> r[i].hour < r[j].hour)
      && (forall k :: 0 <= k < |rows| ==> exists i :: 0 <= i < |r| && r[i].hour == rows[k].hour)
      && (forall i :: 0 <= i < |r| ==>
            && HasHour(rows, r[i].hour)
            && CountAtHour(rows, r[i].hour) > 0
            && r[i].rentedBikeCount == SumAtHour(rows, r[i].hour) as real / CountAtHour(rows, r[i].hour) as real)
      && (forall i :: 0 <= i < |r| ==>
            && r[i].hour in KeySet(HourEntries(rows))
            && MinAt(HourEntries(rows), r[i].hour) as real <= r[i].rentedBikeCount
            && r[i].rentedBikeCount <= MaxAt(HourEntries(rows), r[i].hour) as real)
  {
    var r := AverageHourlyRentals(rows);
    forall i | 0 <= i < |r|
      ensures HasHour(rows, r[i].hour) && CountAtHour(rows, r[i].hour) > 0
      ensures r[i].rentedBikeCount == SumAtHour(rows, r[i].hour) as real / CountAtHour(rows, r[i].hour) as real
      ensures r[i].hour in KeySet(HourEntries(rows))
      ensures MinAt(HourEntries(rows), r[i].hour) as real <= r[i].rentedBikeCount
      ensures r[i].rentedBikeCount <= MaxAt(HourEntries(rows), r[i].hour) as real
    {
      HourMeanAt(rows, i);
    }
    forall k | 0 <= k < |rows|
      ensures exists i :: 0 <= i < |r| && r[i].hour == rows[k].hour
    {
      HourCovered(rows, k);
    }
  }

  // ---------------------------------------------------------------------------------------
  // Rows of one day.

  function OnDate(day: int, month: int, year: int): EnrichedRow -> bool {
    (r: EnrichedRow) => r.day == day && r.month == month && r.year == year
  }

  /**
    `rentals_per_day`: exactly the rows whose day, month and year columns match, unchanged
    and in their original order; no match gives an empty table.
  */
  function RentalsPerDay(rows: seq<EnrichedRow>, day: int, month: int, year: int): (r: seq<EnrichedRow>)
    ensures IsSubsequence(r, rows)
    ensures forall i :: 0 <= i < |r| ==> r[i].day == day && r[i].month == month && r[i].year == year
    ensures forall k :: 0 <= k < |rows| && rows[k].day == day && rows[k].month == month && rows[k].year == year ==>
      rows[k] in r
    ensures |r| == Count(rows, OnDate(day, month, year))
  {
    Filter(rows, OnDate(day, month, year))
  }
}
