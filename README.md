# Mining-cost chart: a Dafny model of its core

This project models the two parts of the mining-charts repository that hold
real logic.

1. **The daily mining-cost pipeline** (`utils.py`).
   - The block-subsidy halving schedule.
   - The monthly USD/RUB table, which is a (year, month) group mean.
   - The hardware ("Asics") lookups by year.
   - The per-day cost formulas.
   - `get_final_df`, which builds the frame one column at a time and then
     overwrites both cost columns in place with their trailing 7-day mean.
2. **The interval detector and band selection** (`chart.py`).
   - `find_continuous_ranges`, a single-pass loop that extracts maximal runs
     where one column is strictly below another.
   - The index filters that pick the rows for the "negative" and "positive"
     fills.
   - The two swapped-operand detector calls in `create_chart`.

Files:

- `wrappers.dfy` defines `Option` and `Result`. In the frame, `None` stands for
  pandas' NaN.
- `averages.dfy` (module `Averages`) defines sum, mean and pandas'
  `rolling(window).mean()`, with lemmas on bounds and on division by a
  constant.
- `utils.dfy` (module `Utils`) models everything from `utils.py`. The
  column-filling steps of `get_final_df` are methods with loops. The smoothing
  step is a method that updates an `array<DailyRecord>` in place. Each method
  is proved against a specification function (`RawFrame`, `Smoothed`,
  `FinalFrame`).
- `chart.dfy` (module `Chart`) models everything from `chart.py`.
  `FindContinuousRanges` is the source's loop. It is proved against
  `IsRunList`: each range is a maximal run, the ranges are separated and
  ascending, and every true mask position is covered. `RunListUnique` shows
  that this contract determines the result.

Arithmetic uses Dafny's mathematical `real`, not IEEE floats. Dates are
`(year, month, day)` values ordered lexicographically. Reference tables are
given values:

- the hardware table is a `seq<AsicsRow>`, because the code reads the first
  row of the year;
- the monthly rate table is a `map<MonthKey, real>`.

Where the code and its docstring disagree, the model follows the code:

- The docstring of `find_continuous_ranges` gives `[(0, 1), (4, 5)]` for its
  example. The code returns `[(0, 2), (4, 5)]`, because position 2 has
  `1 < 2`. `DocstringExampleRanges` proves the code's answer.

Two further points about the code:

- The positive band needs no clamp. The code filters the frame's default
  index `0..n-1` with `df.index >= start-1` and `df.index <= end+1`, so
  out-of-range bounds select nothing. `PositiveBand` and
  `PositiveBandWidensNegative` prove this.
- A zero hash rate is not an error in the code: pandas divides and yields
  infinity. The model makes the divisors non-zero a precondition (see
  "Left out").

## Model

| member | source | states |
|---|---|---|
| `Utils.BlockReward` | utils.py:56-66 | The reward is 12.5 exactly for dates before 2020-05-11, 6.25 exactly for dates in [2020-05-11, 2024-04-19), and 3.125 exactly from 2024-04-19 on. Each is an if-and-only-if. |
| `Utils.BlockRewardNonIncreasing` | utils.py:61-66 | For any two dates, the later one never has a larger reward. |
| `Utils.HalvingDatesHalveTheReward` | utils.py:57-66 | Boundary values: 12.5 on 2020-05-10, 6.25 on 2020-05-11 and on 2024-04-18, and 3.125 on 2024-04-19. Each halving date has half the reward of the day before it. |
| `Utils.FirstRowIndex` | utils.py:11 | Returns the index of the first table row (from `from` on) whose year matches. Returns None exactly when no such row exists. |
| `Utils.RowOfYear` | utils.py:10-11 | Returns the first row of the year, or None exactly when no row has that year. None is where `.values[0]` raises. |
| `Utils.GetName` | utils.py:9-11 | Returns the `name` of the first row whose year is the date's year. Returns None exactly when there is no such row. |
| `Utils.GetThS` | utils.py:13-15 | Returns the `th_s` of the first row of the date's year. Returns None exactly when there is no such row. |
| `Utils.GetKwtH` | utils.py:17-19 | Returns the `kwt_h` of the first row of the date's year. Returns None exactly when there is no such row. |
| `Utils.GetRubKwt` | utils.py:21-23 | Returns the `rub_kwt` of the first row of the date's year. Returns None exactly when there is no such row. |
| `Utils.Bucket` | utils.py:29-32 | A month's group is non-empty exactly when some sample falls in that month. Every value in it is a sample of that month. |
| `Utils.BucketAppend` | utils.py:32 | The group of a concatenation of two series is the first series' group followed by the second's. |
| `Utils.BucketSingle` | utils.py:32 | A single sample lands in the group of its own (year, month) and in no other group. |
| `Utils.BucketMultiplicity` | utils.py:29-32 | Each rate v occurs in a month's group exactly as many times as the series quotes v on a day of that month. No sample is dropped and none is added. |
| `Utils.MonthlyRates` | utils.py:28-32 | The table has exactly the (year, month) keys that occur in the samples. |
| `Utils.MonthlyRateOf` | utils.py:32 | A month in the table stays in it after a new quote. Its value is the mean of that month's whole group, which `BucketMultiplicity` pins to every sample of the month. |
| `Utils.MonthlyRateAppend` | utils.py:32 | A new quote leaves every other month's average unchanged. Its own month's average becomes (old average * n + quote) / (n + 1), where n is the number of earlier quotes in that month. |
| `Utils.MonthlyRateBounds` | utils.py:32 | Each month's average lies between the lowest and the highest rate of that month. So a month quoted at one constant rate averages to that rate. |
| `Utils.BtcPerTh` | utils.py:82 | `btc_per_th * hashrate == reward * 144`, for a non-zero hash rate. |
| `Utils.MiningCost` | utils.py:83 | `cost * (th_s * btc_per_th) == kwt_h * 0.05 * 24`, for a non-zero divisor. |
| `Utils.TotalMiningCost` | utils.py:84 | `total * 0.6 == mining cost`. |
| `Utils.HalvingDoublesMiningCost` | utils.py:82-83 | Halving the reward halves `btc_per_th` and doubles the mining cost, all else equal. |
| `Utils.RawRecord` | utils.py:72-84 | A row before smoothing keeps its day's date, price and hash rate. Its reward comes from the schedule, its rate from its month, and its hardware fields from the year's row. `btc_per_th`, the cost and the total satisfy the three formulas. |
| `Utils.FirstLackingRate` | utils.py:76 | Returns the first day (from `from` on) whose month has no rate. Returns None exactly when every day's month has one. |
| `Utils.FirstLackingAsics` | utils.py:78-81 | Returns the first day (from `from` on) whose year has no hardware row. Returns None exactly when every day's year has one. |
| `Utils.RawFrame` | utils.py:68-84 | The frame fails exactly when some day lacks a monthly rate or a hardware row. If any day lacks a rate, the error is `MissingMonthlyRate` at the first such day. Otherwise it is `MissingAsics` at the first day without a hardware row. On success there is one record per day, in order. Each record is `RawRecord` of its day, its month's rate and the first hardware row of its year. |
| `Utils.CostColumn` | utils.py:85 | Returns the `mining_cost_in_usd` column, one value per row. |
| `Utils.TotalColumn` | utils.py:86 | Returns the `total_mining_cost_in_usd` column, one value per row. |
| `Utils.Smoothed` | utils.py:85-86 | Keeps the length and every non-cost column. Both cost columns are undefined exactly at rows 0..5. |
| `Utils.SmoothedTotalTracksCost` | utils.py:84-86 | After smoothing, a total is defined exactly where the mining cost is, and each defined total equals the smoothed mining cost divided by 0.6. |
| `Utils.FinalFrame` | utils.py:68-88 | `get_final_df` fails exactly when `RawFrame` does, with the same error. Otherwise it returns `Smoothed` of the raw frame. |
| `Utils.SmoothedFromColumns` | utils.py:85-86 | A frame in which each raw row has both cost columns replaced by their 7-row rolling means is the smoothed frame. |
| `Utils.FinalFrameCosts` | utils.py:68-88 | In a successful `get_final_df` result, rows 0..5 have no costs. Every later row has both costs, with total = mining cost / 0.6. |
| `Utils.SmoothCosts` | utils.py:85-86 | Overwrites the cost column, then the total column, in place. The array ends equal to `Smoothed` of its old contents. |
| `Utils.SetMiningCosts` | utils.py:85 | The assignment to `mining_cost_in_usd` replaces that field of every row in place and keeps every other field. |
| `Utils.SetTotalCosts` | utils.py:86 | The assignment to `total_mining_cost_in_usd` replaces that field of every row in place and keeps every other field. |
| `Utils.RateColumn` | utils.py:34-36 | Fills the `usd_rub_rate` column with each day's monthly rate. It fails exactly when some month is missing, reporting the first such day. |
| `Utils.ProfileColumn` | utils.py:77-81 | Fills the hardware row of each day's year. It fails exactly when some year is missing, reporting the first such day. |
| `Utils.RawRows` | utils.py:82-84 | Allocates a new frame whose row j is `RawRecord` of day j, its rate and its hardware row. |
| `Utils.RawFrameFromColumns` | utils.py:76-84 | When the rate column and the hardware column resolve every day, the records built from them are exactly the successful `RawFrame`. |
| `Utils.GetFinalDf` | utils.py:68-88 | The column-by-column construction followed by the in-place smoothing returns exactly `FinalFrame`. |
| `Averages.RollingMean` | utils.py:85-86 | `rolling(window).mean()` keeps the length. Position i is defined exactly when i >= window-1, and then it is the mean of inputs i-w+1..i. |
| `Averages.RollingMeanBounds` | utils.py:85-86 | Every defined smoothed value lies within the range of the inputs. |
| `Averages.RollingMeanDivideAll` | utils.py:84-86 | Smoothing `xs / c` gives the smoothed `xs` divided by c, with the same undefined positions. |
| `Averages.SumAppend` | utils.py:32 | Appending a sample adds it to the sum. |
| `Averages.RunningUpdate` | utils.py:32 | The updated mean `next` satisfies next * (n + 1) == m * n + v. |
| `Averages.RunningMean` | utils.py:32 | The mean of a group with one more sample is the running update of the old mean. |
| `Averages.MeanBounds` | utils.py:32 | A mean lies between any lower and upper bound of its samples. |
| `Averages.SumBounds` | utils.py:32 | A sum of n samples in [lo, hi] lies in [n*lo, n*hi]. |
| `Averages.SumDivideAll` | utils.py:84-86 | Dividing every sample by c divides the sum by c. |
| `Averages.MeanDivideAll` | utils.py:84-86 | Dividing every sample by c divides the mean by c. |
| `Chart.Mask` | chart.py:35 | Position i of the mask is true exactly when `col1[i] < col2[i]`. A NaN on either side gives false. |
| `Chart.FindContinuousRanges` | chart.py:7-57 | Every returned range is in bounds, true throughout, and maximal on both sides. Ranges ascend, with at least one false position between them. Every true position is covered. The result is empty exactly when the mask is all false, including for empty input. |
| `Chart.ScanOpen` | chart.py:45-47 | A true position while no run is open opens a run there, and the loop state still holds. |
| `Chart.ScanClose` | chart.py:48-51 | A false position while a run is open closes the run at the position before. The loop state still holds. |
| `Chart.ScanKeep` | chart.py:44-51 | A position that neither opens nor closes a run leaves the ranges and the open run as they are, and the loop state still holds. |
| `Chart.ScanFinish` | chart.py:53-55 | After the last position, closing the open run, if there is one, at n-1 gives a valid run list. |
| `Chart.AppendRun` | chart.py:48-55 | Closing a maximal run that lies after all earlier ranges keeps the list separated. Everything covered before stays covered. |
| `Chart.RunListMembers` | chart.py:44-55 | A valid run list contains exactly the maximal runs of the mask. |
| `Chart.AscendingSameMembers` | chart.py:44-51 | Two lists in ascending start order with the same members are equal. |
| `Chart.RunListUnique` | chart.py:7-57 | Any two lists that meet the contract of `find_continuous_ranges` for the same mask are equal. |
| `Chart.TrailingRunClosesAtEnd` | chart.py:53-55 | When the last position is true, the last range ends at n-1. |
| `Chart.DocstringExampleRanges` | chart.py:27-32 | For A = [1,2,1,4,1,1,7] and B = [3,3,2,3,2,2,6] the result is [(0,2),(4,5)], not the [(0,1),(4,5)] the docstring shows. |
| `Chart.NoRunsWithoutTruePositions` | chart.py:37-38 | The run list is empty exactly when the mask has no true position. |
| `Chart.SelectPositions` | chart.py:61 | Filtering the index 0..n-1 by `lo <= i <= hi` selects exactly the contiguous positions max(0, lo)..min(n-1, hi), in order. |
| `Chart.NegativeBand` | chart.py:59-61 | Selects exactly positions s..e for an in-bounds range (s, e). It never selects anything outside the range or the frame. |
| `Chart.PositiveBand` | chart.py:89-91 | Selects exactly max(0, s-1)..min(n-1, e+1). It never selects an out-of-range position. |
| `Chart.PositiveBandWidensNegative` | chart.py:61-91 | The positive band is the negative band plus position s-1 when it exists and position e+1 when it exists. |
| `Chart.PriceColumn` | chart.py:192 | Returns the `btc_price` column of the frame. |
| `Chart.TotalCostColumn` | chart.py:192-195 | Returns the `total_mining_cost_in_usd` column of the frame, with NaN as None. |
| `Chart.CreateChart` | chart.py:153-196 | Runs the detector on (price, total cost) and on (total cost, price). Both results are valid run lists and never share a position. Each range gets its negative or positive band. |
| `Chart.SwappedRangesDisjoint` | chart.py:192-195 | Run lists for `(A, B)` and `(B, A)` never cover the same position, because both comparisons are strict. |
| `Chart.WarmupRowsNeverFilled` | chart.py:192-195 | On a smoothed frame neither detector run touches rows 0..5, because the total cost there is NaN. |

## Left out

- `data.py` is not part of this model. It covers the HTTP download of the series, the pacing sleeps and the JSON file writes.
- File loading is not modelled: the CSV of quotes (`get_usd_rub_df`), the Excel hardware table with its column renaming (`get_asics_df`), and `get_df_from_json` with its epoch-seconds-to-date conversion. The model starts from already parsed dates and values.
- `get_usd_rub_rate_at_month` re-reads and re-averages the CSV for every row. The model does one lookup per day into a table computed once (`MonthlyRates`). The table is the same on every call, so the result is the same.
- `MonthlyRates` averages only the quoted rate column. The other CSV columns that `groupby(...).mean()` also averages are dropped by the source right away.
- The frame reads each day's hardware row once (`RowOfYear`) rather than through four getter calls. The four getters read the same first row of the year, so the values are identical.
- Everything Plotly does is left out: traces, colours, `add_asics_name` with its vertical lines, shapes and annotations, `fig.show` and `write_html`. The model keeps only which rows each fill covers (`NegativeBand`, `PositiveBand`).
- IEEE floating point is not modelled: rounding, infinities and NaN arithmetic. Values are mathematical reals, and NaN appears only as None in the smoothed cost columns.
- `GetFinalDf`, `FinalFrame`, `RawFrame`: require a non-zero hash rate and a non-zero `th_s` for each day's hardware row. Where a divisor is zero, pandas produces infinity or NaN, and the model does not cover that case.
- `RollingMean` does not model NaN inputs inside a window. The cost columns it smooths are always defined under the preconditions above.
- Positional alignment of the price series onto the hash-rate frame is not modelled. pandas would NaN-pad or truncate it. The model takes one aligned input per day (`DayInput`).
- `usd_rub_rate` and `rub_kwt` are carried as record fields but, as in the source, play no part in the cost formula. The formula uses the fixed 0.05 USD/kWh.
