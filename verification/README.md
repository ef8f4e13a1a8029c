# Bikeshare aggregation and heart-disease decoding, modelled in Dafny

This project models three parts of a collection of data-science demos.

1. The **time-bucketed aggregation layer** of the bikeshare dashboard, `bikeshare-app/streamlit/utils/dashboard_utils.py`:
   - `preprocess_data` parses the day-first `DD/MM/YYYY` date and derives the `day`, `month`, `year` and `datetime` columns.
   - It also builds the daily series and drops the days whose total is 0.
   - `total_month_rentals_df` gives monthly totals keyed by month number only, labelled `Jan`…`Dec`.
   - `get_monthly_rentals_df` gives the daily totals of one month of one year, each with the mean of its weekday within that month.
   - `get_weekly_rentals_df` gives weekly totals keyed by `'%Y-W%V'`.
   - `get_average_hourly_rentals_df` gives hourly means.
   - `rentals_per_day` returns the rows of one day.
2. The **key metrics** of the dashboard page, `bikeshare-app/streamlit/dashboard.py`: the total rentals, the mean of the monthly sums, the peak and quietest hours, and the month-name selector.
3. The **categorical decoding** of the heart-disease predictor:
   - `get_clean_data` decodes eight coded columns through fixed tables, in both the web app and the training script.
   - The app drops incomplete rows with `dropna`; the training script keeps them.
   - The training script splits the table into the features `X` and the label `y`.
   - The app's `get_scaled_values` applies min-max scaling.

A table is a `seq` of immutable rows. Dates are `(year, month, day)` triples; a day number counts days since 0001-01-01. All sums are over `nat`, and means use exact `real` division.

Modules:
- `Wrappers` holds `Option` and `Result`.
- `Seqs` holds row selection (`Filter`, `IsSubsequence`), `FirstFailing` and `IndexOf`.
- `Text` holds fixed-width decimal digits and lexicographic order.
- `Calendar` holds Gregorian dates, weekdays, hour arithmetic and ISO 8601 week numbers.
- `DateText` holds the `DD/MM/YYYY` text and the `%Y-W%V` label.
- `Grouping` is a sorted `groupby` over integer keys that keeps the sum and count of each key.
- `DashboardUtils`, `Dashboard`, `HeartCodes`, `HeartModel` and `HeartApp` each follow one source file or one shared concept.

Facts about the code that the model follows:
- **Week label.** The code formats `'%Y-W%V'`, which pairs the calendar year with the ISO week number. So 2018-12-31 is labelled `2018-W01` and 2017-01-01 is labelled `2017-W52` (`DateText.LabelOfNewYearsEve2018`, `DateText.LabelOfNewYearsDay2017`).
- **Weekday mean in the month/year view.** It is taken over the dates of the selected month only.
- **Size of the month/year view.** The code groups by date first, so the view has one row per distinct date.
- **Merging years.** The monthly totals always merge all years.

## Model

| member | source | states |
|---|---|---|
| `DashboardUtils.ToDatetimeColumn` | bikeshare-app/streamlit/utils/dashboard_utils.py:18 | Succeeds exactly when every date cell is a day-first date within pandas' timestamp range. Otherwise it reports the first offending row, as `MalformedDate` exactly when the text is not a date. |
| `DashboardUtils.PreprocessData` | bikeshare-app/streamlit/utils/dashboard_utils.py:16-34 | Fails only at the first row whose date does not convert; otherwise at the first row whose hour count overflows a 64-bit nanosecond timedelta; otherwise at the first row whose `date + hour` leaves the timestamp range. On success each row keeps its count, hour and covariates, and its day, month and year are those of its parsed date. Its `datetime` has an hour of day in 0..23 and lies exactly `hour` hours after the date's midnight, on the same day when `0 <= hour < 24`. The second result is the daily series of the enriched rows. |
| `DashboardUtils.EnrichedColumns` | bikeshare-app/streamlit/utils/dashboard_utils.py:20-26 | Every enriched row's day, month and year are its parsed date's components. Its datetime has an hour of day in 0..23 and lies `hour` hours after that date's midnight, which fixes its calendar day. The datetime is in range exactly when the row's hour fits. |
| `DashboardUtils.PreprocessAccepts` | bikeshare-app/streamlit/utils/dashboard_utils.py:16-34 | Every table whose dates convert, whose hour counts fit a timedelta and whose datetimes fit is accepted, so the listed failures are the only ones. |
| `DashboardUtils.TimedeltaHours` | bikeshare-app/streamlit/utils/dashboard_utils.py:26 | `to_timedelta(hour, unit='h')` fits 64-bit nanoseconds exactly when the hour count lies in -2,562,047..2,562,047. |
| `DashboardUtils.FirstHourOverflowRejected` | bikeshare-app/streamlit/utils/dashboard_utils.py:18-26 | When every date converts and the first row's hour count overflows a 64-bit nanosecond timedelta, the batch fails at the hour column, at row 0. |
| `DashboardUtils.HugeHourRejected` | bikeshare-app/streamlit/utils/dashboard_utils.py:18-26 | A row dated 01/01/1700 converts, but its hour count 2,562,048 makes the batch fail at the hour column, at row 0. |
| `DateText.ParseFormatRoundTrip` | bikeshare-app/streamlit/utils/dashboard_utils.py:18 | Every date with a four-digit year is read back from its `DD/MM/YYYY` text. |
| `DateText.FormatParseRoundTrip` | bikeshare-app/streamlit/utils/dashboard_utils.py:18 | Every accepted text is the canonical `DD/MM/YYYY` text of its date, so the parser accepts one spelling per date. |
| `Calendar.AddHours` | bikeshare-app/streamlit/utils/dashboard_utils.py:26 | Adding `h` hours gives an hour of day in 0..23 at absolute hour `day number * 24 + h`, with any overflow carried into the date. |
| `Calendar.AddDays` | bikeshare-app/streamlit/utils/dashboard_utils.py:26 | Moving `n` days moves the day number by exactly `n`, across month and year ends and leap days. |
| `Calendar.NextDayWeekday` | bikeshare-app/streamlit/utils/dashboard_utils.py:57 | Consecutive days have consecutive weekdays, which anchors `day_name()` on the day count from a Monday. |
| `DashboardUtils.DailySeriesSpec` | bikeshare-app/streamlit/utils/dashboard_utils.py:28-32 | The daily series is in strictly ascending date order, so each day appears at most once. Each day's total is positive and equals the rentals of the rows falling on it. Every day with rentals is listed, and the totals add up to the grand total. |
| `DashboardUtils.DropZeroDays` | bikeshare-app/streamlit/utils/dashboard_utils.py:32 | Removing the zero days does not change the sum of the series. |
| `DashboardUtils.TotalMonthRentalsRows` | bikeshare-app/streamlit/utils/dashboard_utils.py:41-45 | Each row's label decodes to a month present in the table. Its total is that month's rentals over all years. The months strictly ascend. |
| `DashboardUtils.TotalMonthRentalsComplete` | bikeshare-app/streamlit/utils/dashboard_utils.py:41-45 | There is one row per distinct month present, every present month is listed, and the totals add up to the grand total. |
| `DashboardUtils.SumInMonthAppend` | bikeshare-app/streamlit/utils/dashboard_utils.py:41 | The same month of two tables (say two years) is summed together. |
| `DashboardUtils.MonthOfAbbrev` | bikeshare-app/streamlit/utils/dashboard_utils.py:44-45 | Reading an abbreviation back gives a month whose abbreviation it is. |
| `DashboardUtils.MonthAbbrevBijective` | bikeshare-app/streamlit/utils/dashboard_utils.py:44-45 | The month map is injective: each month's label reads back as that month. |
| `DashboardUtils.MonthlyRentalsRows` | bikeshare-app/streamlit/utils/dashboard_utils.py:55-57 | The month/year view lists dates in strictly ascending order, so each date appears once. Each date belongs to a row of the selected month and year, holds the summed rentals of the selected rows on it, and is labelled with its weekday name. |
| `DashboardUtils.MonthlyRentalsComplete` | bikeshare-app/streamlit/utils/dashboard_utils.py:55-56 | Every selected row's date is listed. The view is empty exactly when no row matches the month and year, and that case is not an error. |
| `DashboardUtils.MonthlyRentalsWeekdayMean` | bikeshare-app/streamlit/utils/dashboard_utils.py:57-63 | Every row's `avg_rentals` is the summed totals of the view's dates sharing its weekday, divided by their positive number. |
| `DashboardUtils.JoinWeekdayMeans` | bikeshare-app/streamlit/utils/dashboard_utils.py:60-63 | The merge keeps one row per day, in the days' order, and gives each row exactly one average: the mean of its weekday. |
| `DashboardUtils.MonthlyRentalsInMonth` | bikeshare-app/streamlit/utils/dashboard_utils.py:55 | When the derived columns agree with the dates, every listed date lies in the selected month and year. |
| `DashboardUtils.MonthlyRentalsIgnoresOtherRows` | bikeshare-app/streamlit/utils/dashboard_utils.py:55 | Adding rows of other months or years, before or after, leaves the view unchanged. |
| `DateText.LabelOfNewYearsEve2018` | bikeshare-app/streamlit/utils/dashboard_utils.py:75 | 2018-12-31 lies in ISO week 1 of 2019 but is labelled `2018-W01`. |
| `DateText.LabelOfNewYearsDay2017` | bikeshare-app/streamlit/utils/dashboard_utils.py:75 | 2017-01-01 lies in ISO week 52 of 2016 but is labelled `2017-W52`. |
| `Calendar.IsoWeekMatchesDefinition` | bikeshare-app/streamlit/utils/dashboard_utils.py:75 | The ordinal-date formula for `%V` equals the ISO 8601 definition: the week of the year holding the week's Thursday. |
| `Calendar.IsoWeek` | bikeshare-app/streamlit/utils/dashboard_utils.py:75 | Every ISO week number lies in 1..53. |
| `DateText.WeekLabelOrder` | bikeshare-app/streamlit/utils/dashboard_utils.py:75-79 | Labels compare as strings exactly as the (year, week) pairs compare, and distinct pairs get distinct labels. |
| `DashboardUtils.WeeklyRentalsRows` | bikeshare-app/streamlit/utils/dashboard_utils.py:77-79 | Weekly labels strictly ascend as strings, so they are unique. Each row carries a label of some table row and holds the rentals of the rows with that label. |
| `DashboardUtils.WeeklyRentalsComplete` | bikeshare-app/streamlit/utils/dashboard_utils.py:77-79 | Every row's label is listed, and the weekly totals add up to the grand total. |
| `DashboardUtils.AverageHourlyRentalsSpec` | bikeshare-app/streamlit/utils/dashboard_utils.py:90 | There is one row per hour present, in strictly ascending hour order. Each value is that hour's summed rentals over its positive row count, and lies between the hour's smallest and largest count. |
| `Grouping.MeanBetween` | bikeshare-app/streamlit/utils/dashboard_utils.py:90 | A mean lies between the smallest and the largest value averaged. |
| `Grouping.GroupBy` | bikeshare-app/streamlit/utils/dashboard_utils.py:41 | Grouping gives buckets in strictly ascending key order, one per key present. Each bucket holds the sum and the count of its key's values, and the buckets add up to the sum of all values. |
| `Grouping.GroupByAt` | bikeshare-app/streamlit/utils/dashboard_utils.py:41 | Each bucket's key is carried by some input entry, and the bucket holds that key's sum and positive count. |
| `DashboardUtils.RentalsPerDay` | bikeshare-app/streamlit/utils/dashboard_utils.py:99-103 | Returns exactly the rows whose day, month and year match, unchanged and in their original order: a subsequence of the input with as many rows as match. |
| `Seqs.Filter` | bikeshare-app/streamlit/utils/dashboard_utils.py:101 | A boolean-mask selection keeps exactly the matching elements, in order, as a subsequence of the input. |
| `Dashboard.ViewsConserveTotal` | bikeshare-app/streamlit/dashboard.py:54 | The total rentals equal the sums of the daily series, the monthly totals, the weekly totals and the hourly sums. |
| `Dashboard.TotalRentalsAppend` | bikeshare-app/streamlit/dashboard.py:54 | The total of two tables read one after the other is the sum of their totals. |
| `Dashboard.MonthlyMean` | bikeshare-app/streamlit/dashboard.py:57-58 | The mean of the monthly sums is the total divided by the number of distinct months. It is missing (NaN) exactly for an empty table. |
| `Dashboard.MonthlyMeanOfView` | bikeshare-app/streamlit/dashboard.py:57-58 | The monthly mean is also the mean of the labelled monthly-totals view. |
| `Dashboard.FirstMaxIndex` | bikeshare-app/streamlit/dashboard.py:61 | The chosen position holds a largest total, and every earlier position holds a strictly smaller one. This is `idxmax`'s first-label rule. |
| `Dashboard.FirstMinIndex` | bikeshare-app/streamlit/dashboard.py:62 | The chosen position holds a smallest total, and every earlier position holds a strictly larger one. This is `idxmin`'s first-label rule. |
| `Dashboard.PeakHour` | bikeshare-app/streamlit/dashboard.py:61 | The peak hour occurs in the data, and no hour has more summed rentals. On ties it is the smallest such hour. There is none exactly when the table is empty. |
| `Dashboard.MinHour` | bikeshare-app/streamlit/dashboard.py:62 | The quietest hour occurs in the data, and no hour has fewer summed rentals. On ties it is the smallest such hour. There is none exactly when the table is empty. |
| `Dashboard.PeakHourUnique` | bikeshare-app/streamlit/dashboard.py:61 | The peak-hour predicate `IsPeakHour` singles out one hour. |
| `Dashboard.MinHourUnique` | bikeshare-app/streamlit/dashboard.py:62 | The quietest-hour predicate `IsMinHour` singles out one hour. |
| `Dashboard.MonthNumberOf` | bikeshare-app/streamlit/dashboard.py:110-115 | A name gets a number in 1..12 exactly when it is offered, and the number's place in the list holds that name. |
| `Dashboard.MonthSelectorBijective` | bikeshare-app/streamlit/dashboard.py:110-115 | The month in place `m` maps back to `m`, so the names map bijectively onto 1..12. |
| `Dashboard.MonthNamesDistinct` | bikeshare-app/streamlit/dashboard.py:110-113 | The selector offers twelve distinct names. |
| `Seqs.IndexOf` | bikeshare-app/streamlit/dashboard.py:115 | `list.index` finds the first position holding the value, and fails exactly when the value is absent. |
| `HeartCodes.CodeTableDomains` | heart-attack-streamlit/app/main.py:10-17 | The codes each table covers: sex, fbs and exang {0,1}; cp {1..4}; restecg and slope {0..2}; ca {0..3}; thal {1..3}. |
| `HeartCodes.Decode` | heart-attack-streamlit/app/main.py:10-17 | A cell gets a label exactly when it holds a code of its table, and the label is one of that table's labels. Otherwise it becomes missing. |
| `HeartCodes.EncodeDecode` | heart-attack-streamlit/app/main.py:10-17 | A known code, or an empty cell, is recovered from its decoded value, because no table repeats a label. |
| `HeartCodes.DecodeEncode` | heart-attack-streamlit/app/main.py:10-17 | Every label of a table is the decoding of some code. |
| `HeartCodes.CodeTableInjective` | heart-attack-streamlit/app/main.py:10-17 | No table gives two codes the same label. |
| `HeartCodes.DecodeRecord` | heart-attack-streamlit/model/main.py:20-27 | Decoding a row leaves its six numeric columns unchanged and maps each coded column through its table. |
| `HeartCodes.DecodeRecordInverse` | heart-attack-streamlit/model/main.py:20-27 | On a row whose codes are all known or empty, decoding loses nothing: encoding back restores the row. |
| `HeartCodes.CompleteIff` | heart-attack-streamlit/app/main.py:10-19 | A decoded row survives `dropna` exactly when every numeric cell is present and every code is in its table. |
| `HeartApp.GetCleanData` | heart-attack-streamlit/app/main.py:7-21 | Every surviving row is complete and is the decoding of some input row. Every input row whose decoding is complete survives. |
| `HeartApp.GetCleanDataIsDropna` | heart-attack-streamlit/app/main.py:19 | Read from the same raw table, the app's table is the training-side decoded table with its incomplete rows removed, in original order, as a subsequence. |
| `HeartApp.UnknownCodeDropped` | heart-attack-streamlit/app/main.py:10-19 | A row holding a code missing from its table never reaches the app's table. |
| `HeartApp.ChestPainZeroDropped` | heart-attack-streamlit/app/main.py:11 | A row with `cp = 0` is dropped, because the cp table covers only 1..4. |
| `HeartApp.KnownRowKept` | heart-attack-streamlit/app/main.py:10-19 | A row with every numeric cell present and only known codes is kept. |
| `HeartApp.ScaledColumn` | heart-attack-streamlit/app/main.py:69 | Exactly the five keys age, trestbps, chol, thalach and oldpeak name a scaled column, and never `target`. |
| `HeartApp.ColumnMin` | heart-attack-streamlit/app/main.py:78 | The column minimum is a present value no present value undercuts. It is missing exactly when the column has no value. |
| `HeartApp.ColumnMax` | heart-attack-streamlit/app/main.py:77 | The column maximum is a present value no present value exceeds. It is missing exactly when the column has no value. |
| `HeartApp.ScaleOne` | heart-attack-streamlit/app/main.py:79 | The result is a finite ratio exactly when both bounds exist and differ, and the ratio times the range gives back the value's offset from the minimum. |
| `HeartApp.GetScaledValues` | heart-attack-streamlit/app/main.py:66-82 | Fails exactly when a numeric key holds a label. Otherwise the result has exactly the input's keys, and every key outside the five numeric ones maps to `None`. Each numeric key maps to its value scaled by the minimum and maximum of its column in the cleaned table, as `ScaleOne` defines: a ratio for a non-empty range, and the infinite/NaN marker for an empty column or a zero-width range. |
| `HeartApp.RatioBounds` | heart-attack-streamlit/app/main.py:79 | A value within a non-empty range scales into [0, 1]. |
| `HeartApp.ScaleOneInRange` | heart-attack-streamlit/app/main.py:79 | A value within a non-empty range scales to a ratio in [0, 1], and `min + ratio * (max - min)` gives the value back. |
| `HeartApp.ScaledValueInRange` | heart-attack-streamlit/app/main.py:77-80 | A numeric input between its column's minimum and maximum, as the sliders allow, is scaled into [0, 1] by that column's bounds. |
| `HeartApp.TableValueWithinBounds` | heart-attack-streamlit/app/main.py:57-62 | Every value of the cleaned table lies between its column's minimum and maximum, which are the slider bounds. |
| `HeartModel.GetCleanData` | heart-attack-streamlit/model/main.py:15-29 | The training decode drops no row: the row count is kept and each row is the decoding of the input row at the same place. |
| `HeartModel.GetCleanDataKeepsRows` | heart-attack-streamlit/model/main.py:20-29 | Numeric columns pass through unchanged. An unknown code only empties its own cell, and a known code becomes its label. |
| `HeartModel.GetCleanDataInverse` | heart-attack-streamlit/model/main.py:20-27 | On a table with known codes, encoding every decoded row back restores the input. |
| `HeartModel.DropColumn` | heart-attack-streamlit/model/main.py:32 | Dropping a column keeps exactly the other column names. |
| `HeartModel.FeatureColumnNames` | heart-attack-streamlit/model/main.py:32 | `X` keeps the thirteen columns other than `target`, in the file's order. |
| `HeartModel.SplitTarget` | heart-attack-streamlit/model/main.py:32-33 | `X` and `y` have one entry per row, and `y` is exactly the `target` column. |
| `HeartModel.SplitTargetJoin` | heart-attack-streamlit/model/main.py:32-33 | Nothing is lost by the split: each `X` row with its `y` value gives back the original row. |
| `HeartModel.FeaturesIgnoreTarget` | heart-attack-streamlit/model/main.py:32 | `X` does not depend on `target`: two rows that differ only in their label give the same features. |

## Left out

- Rendering is not modelled: Streamlit widgets and layout, and the Plotly, Matplotlib and Seaborn charts in `dashboard.py` and the heart app. They are UI.
- The seasonal pie chart of `dashboard.py` is not modelled. It is the same group-and-sum pattern as the monthly totals.
- File input is left out. `get_bikeshare_data` and the `read_csv` of both `get_clean_data` are I/O, so the raw table is a parameter.
- The two heart-disease programs read different files: the app reads `./data/heart-disease.csv` and training reads `./data/heart.csv`. The model gives both the same raw table as a parameter, so `HeartApp.GetCleanDataIsDropna` relates the two decodings of one table only, not the two files' contents.
- `get_avg_temp_humidity` is left out. It averages floating-point weather columns, and those columns are carried as an opaque `Covariates` payload that no view aggregates.
- Date parsing covers only the exact `DD/MM/YYYY` form. pandas' general date inference (other separators, one-digit fields, text months, times of day) is not modelled.
- `DashboardUtils.ToDatetimeColumn` does not model missing dates. A date cell is always a string, so a missing CSV cell cannot be represented. An empty or `NaT`/`nan` text is reported as `MalformedDate`, where pandas turns it into `NaT` without raising. So `DashboardUtils.PreprocessData` fails on such a table where the code succeeds. Its "fails only at the first row whose date does not convert" and `ToDatetimeColumn`'s "succeeds exactly when" hold only for tables without missing dates. In pandas a `NaT` row drops out of the daily, month/year, monthly and weekly views, because `resample` skips `NaT` and `groupby` drops NaN keys. It still counts in `total_rentals`, so `Dashboard.ViewsConserveTotal` is stated only for tables in which every date is present.
- Floating point is not modelled. `float64` rounding is left out: the monthly, weekday and hourly means and the scaled ratios are exact `real`s. Only the `inf`/NaN that `HeartApp.ScaleOne` gives for an empty or zero-width column is represented, by the `NotFinite` marker.
- Counts and their sums are unbounded `nat`. pandas holds `rented_bike_count` as `int64`, so the sums of `dashboard_utils.py` lines 31, 41, 56 and 77 and the total of `dashboard.py` line 54 wrap silently past 2^63 - 1. The model never wraps. `DashboardUtils.TotalCount`, `DashboardUtils.SumOnDay`, `Grouping.GroupBy` and `Dashboard.TotalRentals`, and with them the positive day totals of `DashboardUtils.DailySeriesSpec` and the `!= 0` filter, agree with pandas only while every sum stays below 2^63.
- `preprocess_data` writes the `date`, `day`, `month`, `year` and `datetime` columns into the caller's frame, and a failure at line 26 leaves the first four already written. The model returns a new table instead and leaves the input unchanged. No modelled output depends on this: after a failure the page stops, and `dashboard.py` line 166 reads the caller's frame again only for its `seasons` and `rented_bike_count` columns, which the writes do not touch.
- Sub-hour precision at the ends of pandas' timestamp range is not modelled: 1677-09-21 00:12:43 and 2262-04-11 23:47:16 are treated at whole-hour resolution.
- The resample step of the daily series is modelled as grouping by day. `resample('D')` also creates the empty days between the first and the last one. Their sum is 0, and the `!= 0` filter removes them again, so the result is the same.
- `DashboardUtils.MonthlyRentals`: rows appear in date order, which is the left-key order the code's `merge` keeps in the pandas versions current at the time of writing. Older pandas versions grouped the merged rows by weekday.
- `Dashboard.PeakHour`: when the table is empty the result is `None`, where `idxmax` raises `ValueError`.
- `Dashboard.MinHour`: when the table is empty the result is `None`, where `idxmin` raises `ValueError`.
- `HeartApp.ScaledValueInRange` states the inverse `min + ratio * (max - min) == value` through `HeartApp.ScaleOneInRange` and `HeartApp.ScaleOne`, which it is defined by, rather than in its own contract.
- `HeartApp.GetScaledValues`: a failure does not name the offending key. Python raises `TypeError` at the first such key in dictionary order, and a Dafny `map` has no order.
- Coded cells are integers or empty. A non-integer value in a coded column maps to missing in pandas too, but the model's raw cell type cannot hold one.
- `add_sidebar` is not modelled. Its slider bounds are the column minimum and maximum of the cleaned table, which `HeartApp.TableValueWithinBounds` covers.
- The training pipeline is not modelled: `train_test_split`, the scikit-learn transformers and logistic regression, pickling, and the XGBoost inferrer. They are foreign ML libraries.
- `bikeshare-app/scripts/main.py` is not modelled. It is driver code.
- The alzheimers app is not part of this model: data loading, database utilities, configuration loading and logging are database, YAML, environment and logging I/O.
- The bikeshare configuration classes are not modelled. They are static constants and a JSON round trip through library calls.
- The year selector (`range(2017, 2019)`) is not modelled. The month/year view takes any year.
