/** `add_rain_anomalies_all`: rows sorted by (PCODE, date), then per key a rolling mean and
    standard deviation of rainfall over the trailing `window` rows with `min_periods = window // 2`,
    a z-score and the anomaly flag. The mean is kept exactly; the standard deviation and the
    z-score comparison are floating-point computations and enter as a caller-supplied test. */
module Anomaly {
  import opened Sorting
  import opened Rows
  import opened Windows

  /** Default rolling window, in rows. */
  const RollingWindow: nat := 14

  /** pandas' minimum number of non-missing values before a rolling statistic exists. */
  function MinPeriods(window: nat): nat
  {
    window / 2
  }

  /** `rolling(window, min_periods).mean()` on one window: None until enough values are present. */
  function RollingMean(win: seq<Option<real>>, minPeriods: nat): (m: Option<real>)
    ensures m.Some? ==> m.value * CountPresent(win) as real == SumPresent(win)
  {
    var c := CountPresent(win);
    if c >= minPeriods && c >= 1 then Some(SumPresent(win) / c as real) else None
  }

  /** The sample standard deviation needs `min_periods` values and at least two. */
  predicate StdDefined(win: seq<Option<real>>, minPeriods: nat)
    ensures StdDefined(win, minPeriods) ==> |PresentValues(win)| >= 2 && |win| >= 2
  {
    CountPresent(win) >= minPeriods && CountPresent(win) >= 2
  }

  /** `abs((x - mean) / (std + 1e-3)) > z_thresh` for the day's rainfall x and the present values
      of its window, evaluated in floating point by the caller. */
  type ZTest = (real, seq<real>) -> bool

  /** The `is_anomaly` column: a NaN z-score (missing rainfall, or no mean/std yet) compares
      false, so the flag is a plain boolean that is false there. */
  function IsAnomaly(rows: seq<Observation>, i: nat, window: nat, zExceeds: ZTest): (flag: bool)
    requires i < |rows|
    ensures flag ==> rows[i].rfh.Some? && KeyIndex(rows, i) >= 1
  {
    var win := TrailingWindow(rows, i, window);
    rows[i].rfh.Some? && StdDefined(win, MinPeriods(window)) && zExceeds(rows[i].rfh.value, PresentValues(win))
  }

  /** mean and flag are row i's rolling mean and anomaly flag. */
  ghost predicate StatsAt(rows: seq<Observation>, i: nat, window: nat, zExceeds: ZTest, mean: Option<real>, flag: bool)
    requires i < |rows|
  {
    mean == RollingMean(TrailingWindow(rows, i, window), MinPeriods(window)) && flag == IsAnomaly(rows, i, window, zExceeds)
  }

  /** The rolling part of `add_rain_anomalies_all`, on rows already sorted by key: each row's
      rolling mean and anomaly flag over its own key's trailing window. The count and the sum come
      from the one-pass `RollingCountsAndSums`; the values handed to the z-test are read from the
      specified window `TrailingWindow` rather than from that pass's queue. */
  method RollingStats(rows: seq<Observation>, window: nat, zExceeds: ZTest)
    returns (means: seq<Option<real>>, anomalies: seq<bool>)
    requires KeysNeverReturn(rows)
    ensures |means| == |rows| && |anomalies| == |rows|
    ensures forall i :: 0 <= i < |rows| ==> StatsAt(rows, i, window, zExceeds, means[i], anomalies[i])
  {
    var counts, sums := RollingCountsAndSums(rows, window);
    var minPeriods := MinPeriods(window);
    means := seq(|rows|, i requires 0 <= i < |rows| =>
               if counts[i] >= minPeriods && counts[i] >= 1 then Some(sums[i] / counts[i] as real) else None);
    anomalies := seq(|rows|, i requires 0 <= i < |rows| =>
                   rows[i].rfh.Some? && counts[i] >= minPeriods && counts[i] >= 2 &&
                   zExceeds(rows[i].rfh.value, PresentValues(TrailingWindow(rows, i, window))));
  }

  /** Sorts the observations by (PCODE, date), then adds the rolling mean and the anomaly flag.
      The two-column sort is stable: rows with the same PCODE and date keep their input order. */
  method AddRainAnomalies(obs: seq<Observation>, window: nat, zExceeds: ZTest)
    returns (rows: seq<Observation>, means: seq<Option<real>>, anomalies: seq<bool>)
    ensures SortedBy(rows, RowLe) && multiset(rows) == multiset(obs)
    ensures forall e :: Ties(rows, RowLe, e) == Ties(obs, RowLe, e)
    ensures |means| == |rows| && |anomalies| == |rows|
    ensures forall i :: 0 <= i < |rows| ==> StatsAt(rows, i, window, zExceeds, means[i], anomalies[i])
  {
    RowLeIsTotal();
    rows := Sort(obs, RowLe);
    RowLeIsTransitive();
    forall e {
      SortStable(obs, RowLe, e);
    }
    SortedKeysNeverReturn(rows);
    means, anomalies := RollingStats(rows, window, zExceeds);
  }

  /** Before a key has `window // 2` rows neither the mean nor the anomaly flag exists: the first
      `window // 2 - 1` rows of every key are never anomalous, whatever the z-test says. */
  lemma EarlyRowsNeverAnomalous(rows: seq<Observation>, i: nat, window: nat, zExceeds: ZTest)
    requires i < |rows| && KeyIndex(rows, i) + 1 < MinPeriods(window)
    ensures RollingMean(TrailingWindow(rows, i, window), MinPeriods(window)).None?
    ensures !IsAnomaly(rows, i, window, zExceeds)
  {
  }

  lemma {:induction false} AllPresentCount(s: seq<Option<real>>)
    requires forall j :: 0 <= j < |s| ==> s[j].Some?
    ensures CountPresent(s) == |s|
  {
    if s != [] {
      AllPresentCount(s[1..]);
    }
  }

  /** With no missing rainfall, the mean exists exactly from a key's `window // 2`-th row on,
      and the standard deviation from the row where it has also two values. */
  lemma StatsDefinedFromRow(rows: seq<Observation>, i: nat, window: nat)
    requires i < |rows| && window >= 1
    requires forall j :: 0 <= j < |rows| ==> rows[j].rfh.Some?
    ensures RollingMean(TrailingWindow(rows, i, window), MinPeriods(window)).Some? <==>
              KeyIndex(rows, i) + 1 >= MinPeriods(window)
    ensures StdDefined(TrailingWindow(rows, i, window), MinPeriods(window)) <==>
              KeyIndex(rows, i) + 1 >= MinPeriods(window) && window >= 2 && KeyIndex(rows, i) >= 1
  {
    var h := KeyHistory(rows, rows[i].key, i + 1);
    HistoryPresent(rows, rows[i].key, i + 1);
    AllPresentCount(Last(h, window));
  }

  lemma {:induction false} HistoryPresent(rows: seq<Observation>, k: string, n: nat)
    requires n <= |rows|
    requires forall j :: 0 <= j < |rows| ==> rows[j].rfh.Some?
    ensures forall j :: 0 <= j < |KeyHistory(rows, k, n)| ==> KeyHistory(rows, k, n)[j].Some?
  {
    if n > 0 {
      HistoryPresent(rows, k, n - 1);
    }
  }

  lemma {:induction false} SumBetween(s: seq<Option<real>>, lo: real, hi: real)
    requires forall j :: 0 <= j < |s| && s[j].Some? ==> lo <= s[j].value <= hi
    ensures CountPresent(s) as real * lo <= SumPresent(s) <= CountPresent(s) as real * hi
  {
    if s != [] {
      SumBetween(s[1..], lo, hi);
      var c := CountPresent(s[1..]) as real;
      if s[0].Some? {
        assert (c + 1.0) * lo == c * lo + lo && (c + 1.0) * hi == c * hi + hi;
      }
    }
  }

  /** The rolling mean lies between the smallest and the largest rainfall of its window; a flat
      window (constant rainfall) has that constant as its mean. */
  lemma MeanWithinWindow(win: seq<Option<real>>, minPeriods: nat, lo: real, hi: real)
    requires forall j :: 0 <= j < |win| && win[j].Some? ==> lo <= win[j].value <= hi
    ensures RollingMean(win, minPeriods).Some? ==> lo <= RollingMean(win, minPeriods).value <= hi
  {
    SumBetween(win, lo, hi);
    var c := CountPresent(win) as real;
    if c > 0.0 {
      QuotientAtLeast(SumPresent(win), c, lo);
      QuotientAtMost(SumPresent(win), c, hi);
    }
  }

  lemma QuotientAtLeast(sum: real, c: real, lo: real)
    requires c > 0.0 && c * lo <= sum
    ensures lo <= sum / c
  {
    var m := sum / c;
    assert m * c == sum;
    if m < lo {
      assert (lo - m) * c > 0.0;
    }
  }

  lemma QuotientAtMost(sum: real, c: real, hi: real)
    requires c > 0.0 && sum <= c * hi
    ensures sum / c <= hi
  {
    var m := sum / c;
    assert m * c == sum;
    if m > hi {
      assert (m - hi) * c > 0.0;
    }
  }
}
