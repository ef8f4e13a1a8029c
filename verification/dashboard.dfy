/**
  The key metrics of the dashboard page and its month selector: the total, the mean of the
  monthly sums, the busiest and the quietest hour, and the month name turned into a number.
*/
module Dashboard {
  import opened Wrappers
  import opened Seqs
  import opened Grouping
  import opened DashboardUtils

  // ---------------------------------------------------------------------------------------
  // Total rentals.

  /** `int(df["rented_bike_count"].sum())`. */
  function TotalRentals(rows: seq<EnrichedRow>): nat {
    TotalCount(rows)
  }

  /** Hourly sums add up to the total as well. */
  lemma {:induction false} HourEntriesTotal(rows: seq<EnrichedRow>)
    ensures SumOf(HourEntries(rows)) == TotalCount(rows)
  {
    if |rows| > 0 {
      assert HourEntries(rows)[1..] == HourEntries(rows[1..]);
      HourEntriesTotal(rows[1..]);
    }
  }

  /**
    The total shown on the page is the one every derived view conserves: the daily series,
    the monthly totals, the weekly totals and the hourly sums all add up to it.
  */
  lemma {:induction false} ViewsConserveTotal(rows: seq<EnrichedRow>)
    ensures SumDays(DailySeries(rows)) == TotalRentals(rows)
    ensures SumMonths(TotalMonthRentals(rows)) == TotalRentals(rows)
    ensures SumWeeks(WeeklyRentals(rows)) == TotalRentals(rows)
    ensures Totals(HourSums(rows)) == TotalRentals(rows)
  {
    DailySeriesSpec(rows);
    TotalMonthRentalsComplete(rows);
    WeeklyRentalsComplete(rows);
    HourEntriesTotal(rows);
  }

  /** The total of two tables read one after the other is the sum of their totals. */
  lemma {:induction false} TotalRentalsAppend(a: seq<EnrichedRow>, b: seq<EnrichedRow>)
    ensures TotalRentals(a + b) == TotalRentals(a) + TotalRentals(b)
  {
    if |a| == 0 {
      assert a + b == b;
    } else {
      assert (a + b)[1..] == a[1..] + b;
      TotalRentalsAppend(a[1..], b);
    }
  }

  // ---------------------------------------------------------------------------------------
  // Average monthly rentals: `df.groupby('month')['rented_bike_count'].sum()` then `.mean()`.

  /** `groupby('month').sum()`: one bucket per month number present, years merged. */
  function MonthSums(rows: seq<EnrichedRow>): seq<Bucket> {
    GroupBy(MonthEntries(rows))
  }

  lemma {:induction false} MonthsPresentEmpty(rows: seq<EnrichedRow>)
    ensures MonthsPresent(rows) == {} <==> |rows| == 0
  {
    if |rows| > 0 {
      assert rows[0].month in MonthsPresent(rows);
    }
  }

  /**
    `monthly_mean`: the mean of the monthly sums; `None` for an empty table, where the mean
    of an empty column is NaN.
  */
  function MonthlyMean(rows: seq<EnrichedRow>): (r: Option<real>)
    ensures r.None? <==> |rows| == 0
    ensures r.Some? ==> |MonthsPresent(rows)| > 0
    ensures r.Some? ==> r.value == TotalRentals(rows) as real / |MonthsPresent(rows)| as real
  {
    var bs := MonthSums(rows);
    MonthEntriesSums(rows, 1);
    GroupByLength(MonthEntries(rows));
    MonthsPresentEmpty(rows);
    if |bs| == 0 then None else Some(Totals(bs) as real / |bs| as real)
  }

  /** The mean is also the mean of the labelled monthly totals view. */
  lemma {:induction false} MonthlyMeanOfView(rows: seq<EnrichedRow>)
    requires |rows| > 0
    ensures |TotalMonthRentals(rows)| > 0
    ensures MonthlyMean(rows) == Some(SumMonths(TotalMonthRentals(rows)) as real / |TotalMonthRentals(rows)| as real)
  {
    TotalMonthRentalsComplete(rows);
    MonthsPresentEmpty(rows);
  }

  // ---------------------------------------------------------------------------------------
  // Peak and quietest hour: `idxmax` / `idxmin` of `groupby('hour').sum()`.

  /** `df.groupby('hour')['rented_bike_count'].sum()`, indexed by the sorted hours. */
  function HourSums(rows: seq<EnrichedRow>): seq<Bucket> {
    GroupBy(HourEntries(rows))
  }

  /** One entry of the hourly sums: an hour present, with that hour's rentals. */
  lemma {:induction false} HourSumsAt(rows: seq<EnrichedRow>, j: int)
    requires 0 <= j < |HourSums(rows)|
    ensures HasHour(rows, HourSums(rows)[j].key)
    ensures HourSums(rows)[j].total == SumAtHour(rows, HourSums(rows)[j].key)
  {
    var es := HourEntries(rows);
    GroupByAt(es, j);
    var k :| 0 <= k < |es| && es[k].key == GroupBy(es)[j].key;
    assert rows[k].hour == GroupBy(es)[j].key;
    HourEntriesSums(rows, GroupBy(es)[j].key);
  }

  /** Every hour of the table has an entry in the hourly sums. */
  lemma {:induction false} HourSumsCover(rows: seq<EnrichedRow>, k: int)
    requires 0 <= k < |rows|
    ensures exists j :: 0 <= j < |HourSums(rows)| && HourSums(rows)[j].key == rows[k].hour
  {
    var es := HourEntries(rows);
    GroupByCovers(es, k);
    var j :| 0 <= j < |GroupBy(es)| && GroupBy(es)[j].key == es[k].key;
    assert HourSums(rows)[j].key == rows[k].hour;
  }

  lemma {:induction false} HourSumsEmpty(rows: seq<EnrichedRow>)
    ensures |HourSums(rows)| == 0 <==> |rows| == 0
  {
    if |rows| > 0 {
      HourSumsCover(rows, 0);
    }
  }

  /**
    Position of the first largest total, as `Series.idxmax` reports the first label
    among equal maxima.
  */
  method FirstMaxIndex(bs: seq<Bucket>) returns (best: nat)
    requires |bs| > 0
    ensures best < |bs|
    ensures forall i :: 0 <= i < |bs| ==> bs[i].total <= bs[best].total
    ensures forall i :: 0 <= i < best ==> bs[i].total < bs[best].total
  {
    best := 0;
    for j := 1 to |bs|
      invariant best < j
      invariant forall i :: 0 <= i < j ==> bs[i].total <= bs[best].total
      invariant forall i :: 0 <= i < best ==> bs[i].total < bs[best].total
    {
      if bs[j].total > bs[best].total {
        best := j;
      }
    }
  }

  /** Position of the first smallest total, as `Series.idxmin` does. */
  method FirstMinIndex(bs: seq<Bucket>) returns (best: nat)
    requires |bs| > 0
    ensures best < |bs|
    ensures forall i :: 0 <= i < |bs| ==> bs[best].total <= bs[i].total
    ensures forall i :: 0 <= i < best ==> bs[best].total < bs[i].total
  {
    best := 0;
    for j := 1 to |bs|
      invariant best < j
      invariant forall i :: 0 <= i < j ==> bs[best].total <= bs[i].total
      invariant forall i :: 0 <= i < best ==> bs[best].total < bs[i].total
    {
      if bs[j].total < bs[best].total {
        best := j;
      }
    }
  }

  /**
    `h` is the hour `idxmax` names: an hour of the table whose rentals no other hour
    exceeds, and every smaller hour has strictly fewer.
  */
  predicate IsPeakHour(rows: seq<EnrichedRow>, h: int) {
    && HasHour(rows, h)
    && (forall k :: 0 <= k < |rows| ==> SumAtHour(rows, rows[k].hour) <= SumAtHour(rows, h))
    && (forall k :: 0 <= k < |rows| && rows[k].hour < h ==> SumAtHour(rows, rows[k].hour) < SumAtHour(rows, h))
  }

  /** `h` is the hour `idxmin` names: the smallest hour among those with the fewest rentals. */
  predicate IsMinHour(rows: seq<EnrichedRow>, h: int) {
    && HasHour(rows, h)
    && (forall k :: 0 <= k < |rows| ==> SumAtHour(rows, h) <= SumAtHour(rows, rows[k].hour))
    && (forall k :: 0 <= k < |rows| && rows[k].hour < h ==> SumAtHour(rows, h) < SumAtHour(rows, rows[k].hour))
  }

  /** `peak_hour`; `None` for an empty table, where `idxmax` raises. */
  method PeakHour(rows: seq<EnrichedRow>) returns (peak: Option<int>)
    ensures peak.None? <==> |rows| == 0
    ensures peak.Some? ==> IsPeakHour(rows, peak.value)
  {
    var bs := HourSums(rows);
    HourSumsEmpty(rows);
    if |bs| == 0 {
      return None;
    }
    var best := FirstMaxIndex(bs);
    var h := bs[best].key;
    HourSumsAt(rows, best);
    forall k | 0 <= k < |rows|
      ensures SumAtHour(rows, rows[k].hour) <= SumAtHour(rows, h)
      ensures rows[k].hour < h ==> SumAtHour(rows, rows[k].hour) < SumAtHour(rows, h)
    {
      HourSumsCover(rows, k);
      var j :| 0 <= j < |bs| && bs[j].key == rows[k].hour;
      HourSumsAt(rows, j);
      if rows[k].hour < h {
        assert j < best;
      }
    }
    peak := Some(h);
  }

  /** `min_hour`; `None` for an empty table, where `idxmin` raises. */
  method MinHour(rows: seq<EnrichedRow>) returns (quiet: Option<int>)
    ensures quiet.None? <==> |rows| == 0
    ensures quiet.Some? ==> IsMinHour(rows, quiet.value)
  {
    var bs := HourSums(rows);
    HourSumsEmpty(rows);
    if |bs| == 0 {
      return None;
    }
    var best := FirstMinIndex(bs);
    var h := bs[best].key;
    HourSumsAt(rows, best);
    forall k | 0 <= k < |rows|
      ensures SumAtHour(rows, h) <= SumAtHour(rows, rows[k].hour)
      ensures rows[k].hour < h ==> SumAtHour(rows, h) < SumAtHour(rows, rows[k].hour)
    {
      HourSumsCover(rows, k);
      var j :| 0 <= j < |bs| && bs[j].key == rows[k].hour;
      HourSumsAt(rows, j);
      if rows[k].hour < h {
        assert j < best;
      }
    }
    quiet := Some(h);
  }

  /** The peak hour is determined by the table: two hours meeting the description are equal. */
  lemma {:induction false} PeakHourUnique(rows: seq<EnrichedRow>, h1: int, h2: int)
    requires IsPeakHour(rows, h1) && IsPeakHour(rows, h2)
    ensures h1 == h2
  {
    var k1 :| 0 <= k1 < |rows| && rows[k1].hour == h1;
    var k2 :| 0 <= k2 < |rows| && rows[k2].hour == h2;
    assert SumAtHour(rows, h1) == SumAtHour(rows, h2);
  }

  /** So is the quietest hour. */
  lemma {:induction false} MinHourUnique(rows: seq<EnrichedRow>, h1: int, h2: int)
    requires IsMinHour(rows, h1) && IsMinHour(rows, h2)
    ensures h1 == h2
  {
    var k1 :| 0 <= k1 < |rows| && rows[k1].hour == h1;
    var k2 :| 0 <= k2 < |rows| && rows[k2].hour == h2;
    assert SumAtHour(rows, h1) == SumAtHour(rows, h2);
  }

  // ---------------------------------------------------------------------------------------
  // Month selector: `month_names.index(month) + 1`.

  const MonthNames: seq<string> := ["January", "February", "March", "April", "May", "June",
    "July", "August", "September", "October", "November", "December"]

  /** The month number of a selected name; `None` for a name not offered, where `index` raises. */
  function MonthNumberOf(name: string): (r: Option<int>)
    ensures r.None? <==> name !in MonthNames
    ensures r.Some? ==> 1 <= r.value <= 12 && MonthNames[r.value - 1] == name
  {
    match IndexOf(MonthNames, name)
    case None => None
    case Some(i) => Some(i + 1)
  }

  /** No name is offered twice. */
  lemma {:induction false} MonthNamesDistinct()
    ensures |MonthNames| == 12
    ensures forall i, j :: 0 <= i < j < 12 ==> MonthNames[i] != MonthNames[j]
  {
  }

  /** Every month number 1..12 is selected by exactly the name in its place. */
  lemma {:induction false} MonthSelectorBijective(m: int)
    requires 1 <= m <= 12
    ensures MonthNumberOf(MonthNames[m - 1]) == Some(m)
  {
    MonthNamesDistinct();
  }
}
