# Rainfall risk pipeline (anomaly-detector), modelled in Dafny

The application reads daily rainfall per administrative unit (PCODE). It flags days whose rainfall
is far from the unit's recent rolling mean and sums the rainfall of the last 3 and 7 rows of each
unit. A fixed rule set turns these values into a risk level: 0 (low), 1 (medium) or 2 (high).
For one unit it then shows the most recent complete rows.

The model covers the four computational functions of `app.py`:

- `label_risk_v3`: the classifier. Module `Risk`, file `risk.dfy`.
- `add_rain_anomalies_all`: sorts by (PCODE, date), then computes a per-unit rolling mean, a
  rolling standard deviation with `min_periods = window // 2`, and the anomaly flag. Module
  `Anomaly`, file `anomaly.dfy`.
- `build_features`: adds the per-unit rolling sums `rain_3d` and `rain_7d` (`min_periods = 1`)
  and the risk label of every row. Module `Features`, file `features.dfy`.
- `get_recent_risk_for_pcode`: filters by key, sorts by date, drops incomplete rows and keeps the
  last `n_last`. Module `Recent`, file `recent.dfy`.

Three support modules hold shared pieces:

- `Sorting`: `sort_values` as a stable sort under a total preorder. The output is sorted, is a
  permutation of the input, and keeps tied elements in their input order. The two-column sort by
  (PCODE, date) at app.py:25 and app.py:69 is stable in pandas too.
- `Rows`: observations and the (PCODE, date) order.
- `Windows`: the per-unit trailing windows of `groupby("PCODE").rolling(w)`.

## How the values are represented

- A missing rainfall value (NaN in the loaded table) is `None`.
  - A comparison with a missing value is false.
  - Rolling statistics count only present values against `min_periods`.
  - A rolling sum with `min_periods = 1` is missing exactly when its window holds no value.
- The trailing window of row `i` is specified the way `groupby` computes it:
  `TrailingWindow = Last(KeyHistory(rows, key, i + 1), w)`. That is the last `w` rainfall values
  among the rows up to `i` that share `i`'s key, picked out of the whole table.
- `Windows.RollingCountsAndSums` computes these windows in one pass over rows that are sorted by
  key. It uses a queue of at most `w` values and keeps a running count and sum. It is proved to
  agree with the specification on every row.

## Model

| member | source | states |
|---|---|---|
| `Risk.LabelRiskV3` | app.py:47-63 | The level is always 0, 1 or 2. A 3-day sum >= 130 or a 7-day sum >= 200 forces level 2. |
| `Risk.LabelLevels` | app.py:54-63 | Exact conditions: level 2 iff (anomaly and rain >= 50) or 3-day >= 130 or 7-day >= 200. Level 0 iff no anomaly, rain < 30, 3-day < 80 and 7-day < 120, with a missing value passing no threshold. An anomaly gives at least level 1. |
| `Risk.LabelIsWorstSignal` | app.py:54-63 | Independent reading of the first-match rules: the level is the maximum of three separate signal levels. The signals are day rain with the anomaly flag, the 3-day sum and the 7-day sum. |
| `Risk.LabelMonotone` | app.py:54-63 | More rain in any column, or the anomaly flag switched on, never lowers the level. |
| `Sorting.Insert` | app.py:25 | Inserting into a sorted sequence gives a sorted sequence with exactly one more occurrence of the inserted element. |
| `Sorting.Sort` | app.py:25 | The result is sorted under the given total order and is a permutation of the input. |
| `Sorting.SortedPairwise` | app.py:25 | Under a transitive order, a sequence whose neighbours are in order has every pair in order. |
| `Sorting.InsertTies` | app.py:25 | Among the elements that tie with a given element, an inserted element comes before all ties already present. |
| `Sorting.SortStable` | app.py:25 | The sort is stable: for every element, the elements that tie with it appear in the output in the same order as in the input. |
| `Sorting.SortIdempotent` | app.py:69 | Sorting an already sorted sequence returns it unchanged. So the second sort by (PCODE, date) in `build_features` keeps the computed columns aligned. |
| `Rows.KeyLeTotal` | app.py:25 | Any two keys are comparable in Python's string order. |
| `Rows.KeyLeAntisymmetric` | app.py:25 | Two keys each at most the other are equal. |
| `Rows.KeyLeTransitive` | app.py:25 | The string order is transitive. |
| `Rows.RowLeIsTotal` | app.py:25 | The (PCODE, date) order is total. |
| `Rows.RowLeIsTransitive` | app.py:25 | The (PCODE, date) order is transitive. |
| `Rows.RowTiesAreSameDay` | app.py:25 | Two rows tie in the (PCODE, date) order exactly when they have the same PCODE and the same date. |
| `Rows.GroupStart` | app.py:29 | Finds the first row of the run of equal keys that ends at row i. Every row from there to i has i's key, and the row before it has another key. |
| `Rows.SortedKeyStart` | app.py:25-29 | In rows sorted by (PCODE, date), a row whose key differs from its predecessor's has no earlier row of that key. |
| `Windows.SortedKeysNeverReturn` | app.py:25-29 | After sorting by (PCODE, date), each key occupies one contiguous block: a key that ends never comes back. |
| `Windows.HistoryIsBlock` | app.py:29-30 | On such rows, the per-key history that groupby sees at row i is exactly the rainfall of the key's block up to i. No other key contributes. |
| `Windows.WindowIsBlockSuffix` | app.py:29-30 | The trailing window of row i is the rainfall of its block from max(block start, i - w + 1) to i. The row's position within its key is i minus the block start. |
| `Windows.WindowCoversKeyPositions` | app.py:71-81 | With p the row's position in its key, the rows p back are all of its key, and the row before them is not. The window is the rainfall of rows i - min(p, w - 1) .. i. |
| `Windows.FirstRowWindow` | app.py:71-81 | At a key's first row, the window is that row alone. Its rolling sum is that row's rainfall, missing if it is missing. |
| `Windows.WindowStep` | app.py:29-30 | Row i's window is the previous row's window with row i appended, trimmed to w values. It starts empty at a new key. |
| `Windows.KeyHistory` | app.py:29-30 | The per-key history groupby sees: the rainfall of the rows among the first n that carry key k, in row order, so at most n values. |
| `Windows.TrailingWindow` | app.py:29-30 | `rolling(window=w)` on row i's group: the last w values of its key's history up to and including row i. It holds at most w values and, for w >= 1, ends with row i's own rainfall. |
| `Windows.RollingSum` | app.py:71-81 | `rolling(..., min_periods=1).sum()` on one window: the sum of the present values, missing exactly when every value of the window is missing. |
| `Windows.CountSumAppend` | app.py:73 | Appending a value changes the present count by one if the value is present, and the sum by that value. A missing value changes neither. |
| `Windows.Push` | app.py:30 | One queue step: the new window is the last w of old window plus value. The running count and sum equal the count and sum of the new window's present values. |
| `Windows.Slide` | app.py:29-30 | One row of the pass: given the previous row's window, returns row i's trailing window with its count and sum. |
| `Windows.RollingCountsAndSums` | app.py:71-81 | For every row, the count and sum of present rainfall in the trailing w-row window of its own key. |
| `Windows.ShorterWindowIsSuffix` | app.py:71-81 | The 3-row window of a row is a suffix of its 7-row window. |
| `Windows.SuffixCountSum` | app.py:71-81 | With non-negative values, a suffix has no more present values and no larger sum. |
| `Windows.LongerWindowSumsMore` | app.py:71-81 | With non-negative rainfall, the longer trailing sum exists whenever the shorter one does, and is at least as large. |
| `Anomaly.RollingStats` | app.py:28-43 | On rows grouped by key, each row gets the rolling mean of its own key's trailing window and its anomaly flag. The mean uses min_periods = window // 2. The flag needs a present rainfall, a defined standard deviation and a passing z-test. |
| `Anomaly.RollingMean` | app.py:28-33 | `rolling(window, min_periods).mean()` on one window: the sum of present values divided by their count, when the count is at least min_periods and at least 1, otherwise missing. A present mean times the count is the sum. |
| `Anomaly.StdDefined` | app.py:34-39 | The rolling standard deviation (ddof 1) exists when the count of present values is at least min_periods and at least 2. Then the window has at least two present values. |
| `Anomaly.IsAnomaly` | app.py:41-43 | The `is_anomaly` column: the day's rainfall is present, the standard deviation exists and the z-test passes; false otherwise, as a missing z-score compares false. A flagged row always has rainfall and is never the first row of its key. |
| `Anomaly.AddRainAnomalies` | app.py:23-44 | The output rows are sorted by (PCODE, date) and are a permutation of the input. Rows with the same PCODE and date keep their input order. Every row carries its own rolling mean and anomaly flag. |
| `Anomaly.EarlyRowsNeverAnomalous` | app.py:30-43 | The first window // 2 - 1 rows of every key have no mean and are never anomalous, whatever the z-test. With the default window of 14 that is the first 6 rows. |
| `Anomaly.StatsDefinedFromRow` | app.py:30-37 | With no missing rainfall, the mean exists iff the row is at least the (window // 2)-th of its key. The standard deviation exists iff, in addition, the window has at least two rows and the row is not the key's first. |
| `Anomaly.AllPresentCount` | app.py:30 | With no missing values, the count of present values is the window length. |
| `Anomaly.HistoryPresent` | app.py:29 | With no missing rainfall in the table, no value of a key history is missing. |
| `Anomaly.SumBetween` | app.py:31 | If every present value lies in [lo, hi], their sum lies between count * lo and count * hi. |
| `Anomaly.MeanWithinWindow` | app.py:28-33 | The rolling mean lies between the smallest and the largest rainfall of its window. |
| `Features.FeatureRowAt` | app.py:66-84 | A feature row keeps its observation, and its risk level is in 0..2. |
| `Features.Rain3d` | app.py:71-75 | The `rain_3d` column of row i: the rolling sum of its key's trailing 3-row window. It exists whenever the day's own rainfall does. |
| `Features.Rain7d` | app.py:77-81 | The `rain_7d` column of row i: the rolling sum of its key's trailing 7-row window. It exists whenever the day's own rainfall does. |
| `Features.BuildFeatures` | app.py:66-84 | The table's rows are sorted by (PCODE, date) and are a permutation of the input. Rows with the same PCODE and date keep their input order. Every row carries the defined mean, flag, 3-day sum, 7-day sum and label of its position. |
| `Features.Rain3dCoversOwnKey` | app.py:71-75 | rain_3d of a row at key position p sums the rows at positions max(0, p - 2) .. p of its key. All the summed rows carry the key, so no other key contributes. |
| `Features.Rain7dCoversOwnKey` | app.py:77-81 | rain_7d of a row at key position p sums the rows at positions max(0, p - 6) .. p of its key. All the summed rows carry the key. |
| `Features.FirstRowOfKey` | app.py:71-81 | On a key's first row, rain_3d and rain_7d equal that day's rainfall. |
| `Features.Rain3dAtMost7d` | app.py:71-81 | With non-negative rainfall, rain_3d <= rain_7d, and rain_7d is present wherever rain_3d is. |
| `Sorting.Filter` | app.py:88 | The filtered rows are the input rows that satisfy the predicate, each as often as in the input, and no others. |
| `Sorting.FilterKeepsOrder` | app.py:88-89 | Filtering a sorted sequence leaves it sorted. |
| `Recent.TailLength` | app.py:90 | `tail(n)` keeps min(n, len) rows for n >= 0. For negative n it keeps all but the first -n rows. |
| `Recent.Tail` | app.py:90 | The result is the suffix of that length. |
| `Recent.Prepared` | app.py:88-89 | After filtering, sorting and dropna: the rows are in date order and are exactly the rows of the key with rain_mm, rain_3d and rain_7d present, with their multiplicities. |
| `Recent.Complete` | app.py:89 | `dropna(subset=["rain_mm", "rain_3d", "rain_7d"])` keeps a row exactly when all three columns are present. |
| `Recent.PreparedRows` | app.py:88-89 | Every prepared row has the key and is complete. |
| `Recent.SuffixKeepsOrder` | app.py:90 | A suffix of a sorted sequence is sorted. |
| `Recent.TailOfPrepared` | app.py:90 | The tail of prepared rows is sorted, keyed and complete, and draws only on those rows. |
| `Recent.GetRecentRiskForPcode` | app.py:87-90 | The view is the suffix of the prepared rows of the length `tail` keeps, so at most n_last rows. Its rows all have the key and are complete. It is in date order and holds nothing absent from the table. |
| `Recent.RecentAreLatest` | app.py:89-90 | Every prepared row the view leaves out is dated no later than every row it returns. |
| `Recent.AbsentKeyGivesEmpty` | app.py:87-90 | A key with no rows gives an empty view, not an error. |

## Left out

- Loading the CSV from a fixed path and its error messages (app.py:6-19) are I/O. They are not modelled; the model starts from a sequence of observations.
- The one build of the table at start-up (app.py:95) and the Streamlit page (app.py:97-117) are UI and are not modelled: selection widget, slider, charts, the extra `tail(60)` of the displayed table.
- `Anomaly.IsAnomaly`: the standard deviation, the `1e-3` offset and the comparison with `z_thresh = 3` are floating-point computations. They enter as a caller-supplied test `ZTest` on the day's rainfall and the present values of its window. The model keeps exactly when the test is consulted and when the flag is forced false.
- `rain_std` and `z_score` as columns are not modelled; they live only inside that test. The rolling mean is kept as an exact rational quotient, not a float.
- `Anomaly.IsAnomaly`: the model follows the code, where a missing z-score compares false. So `is_anomaly` is a plain `false` on early or missing rows, not a missing value.
- `Recent.Prepared`: the date sort at app.py:89 sorts on one column with pandas' default quicksort, which is not stable. The model promises only a sorted permutation there, so rows of one PCODE with equal dates have no promised order.
- pandas index alignment (`reset_index`, `.copy()`, `apply`) is not modelled. Each computed column is a sequence aligned position by position with the sorted rows.
- Every observation is assumed to carry a PCODE and a date. pandas' groupby drops rows whose PCODE is missing, leaving their rolling columns missing, and its sort puts missing dates last; neither case is modelled.
- Dates are whole day numbers. Keys are compared as strings code point by code point, as Python orders `str`.
- The `col` and `z_thresh` parameters of `add_rain_anomalies_all` are fixed to `rfh` and the caller's test. `window` is a parameter, with 14 as the default that `build_features` uses.
- Floating-point rounding of the rolling sums is not modelled: sums are exact reals.
