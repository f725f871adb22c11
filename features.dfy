/** `build_features`: the anomaly columns, then per key the trailing 3-day and 7-day rainfall sums
    (`min_periods = 1`, so a sum exists as soon as its window holds one value), then the risk label
    of every row. */
module Features {
  import opened Sorting
  import opened Rows
  import opened Windows
  import opened Anomaly
  import opened Risk

  const Rain3dWindow: nat := 3
  const Rain7dWindow: nat := 7

  /** One row of the feature table. */
  datatype FeatureRow = FeatureRow(
    obs: Observation,
    rainMean: Option<real>,
    isAnomaly: bool,
    rain3d: Option<real>,
    rain7d: Option<real>,
    riskLevel: int)

  /** The input columns of a feature table. */
  function Observations(feat: seq<FeatureRow>): seq<Observation>
  {
    seq(|feat|, i requires 0 <= i < |feat| => feat[i].obs)
  }

  /** The `rain_3d` column: the sum over the trailing 3 rows of the row's own key. */
  function Rain3d(rows: seq<Observation>, i: nat): (r: Option<real>)
    requires i < |rows|
    ensures rows[i].rfh.Some? ==> r.Some?
  {
    RollingSum(TrailingWindow(rows, i, Rain3dWindow))
  }

  /** The `rain_7d` column: the sum over the trailing 7 rows of the row's own key. */
  function Rain7d(rows: seq<Observation>, i: nat): (r: Option<real>)
    requires i < |rows|
    ensures rows[i].rfh.Some? ==> r.Some?
  {
    RollingSum(TrailingWindow(rows, i, Rain7dWindow))
  }

  /** What every column of row i of the feature table is, given the rows in table order. */
  function FeatureRowAt(rows: seq<Observation>, i: nat, zExceeds: ZTest): (f: FeatureRow)
    requires i < |rows|
    ensures f.obs == rows[i] && Low <= f.riskLevel <= High
  {
    var anomaly := IsAnomaly(rows, i, RollingWindow, zExceeds);
    var rain3d := Rain3d(rows, i);
    var rain7d := Rain7d(rows, i);
    FeatureRow(rows[i], RollingMean(TrailingWindow(rows, i, RollingWindow), MinPeriods(RollingWindow)),
               anomaly, rain3d, rain7d, LabelRiskV3(rows[i].rfh, rain3d, rain7d, anomaly))
  }

  /** A rolling sum with `min_periods = 1`, from the count and the sum of its window. */
  function SumFromTotals(count: nat, total: real): Option<real>
  {
    if count == 0 then None else Some(total)
  }

  /** The feature table: the rows sorted by (PCODE, date), each carrying its own columns. */
  method BuildFeatures(obs: seq<Observation>, zExceeds: ZTest) returns (feat: seq<FeatureRow>)
    ensures SortedBy(Observations(feat), RowLe)
    ensures multiset(Observations(feat)) == multiset(obs)
    ensures forall e :: Ties(Observations(feat), RowLe, e) == Ties(obs, RowLe, e)
    ensures forall i :: 0 <= i < |feat| ==> feat[i] == FeatureRowAt(Observations(feat), i, zExceeds)
  {
    var rows, means, anomalies := AddRainAnomalies(obs, RollingWindow, zExceeds);
    // The table is sorted by (PCODE, date) a second time; on sorted rows that is the identity,
    // so the columns computed so far stay aligned with their rows.
    RowLeIsTotal();
    SortIdempotent(rows, RowLe);
    rows := Sort(rows, RowLe);
    SortedKeysNeverReturn(rows);
    var counts3, sums3 := RollingCountsAndSums(rows, Rain3dWindow);
    var counts7, sums7 := RollingCountsAndSums(rows, Rain7dWindow);
    feat := seq(|rows|, i requires 0 <= i < |rows| =>
              var rain3d := SumFromTotals(counts3[i], sums3[i]);
              var rain7d := SumFromTotals(counts7[i], sums7[i]);
              FeatureRow(rows[i], means[i], anomalies[i], rain3d, rain7d,
                         LabelRiskV3(rows[i].rfh, rain3d, rain7d, anomalies[i])));
    assert Observations(feat) == rows;
  }

  /** The 3-day sum of row i is a sum over its own key only: the rows at positions
      max(0, p - 2) .. p of its key, where p is the row's position in its key, all of which carry
      the key. */
  lemma Rain3dCoversOwnKey(rows: seq<Observation>, i: nat)
    requires SortedBy(rows, RowLe) && i < |rows|
    ensures KeyIndex(rows, i) <= i
    ensures forall j :: i - Min(KeyIndex(rows, i), 2) <= j <= i ==> rows[j].key == rows[i].key
    ensures Rain3d(rows, i) == RollingSum(Rains(rows[i - Min(KeyIndex(rows, i), 2)..i + 1]))
  {
    SortedKeysNeverReturn(rows);
    WindowCoversKeyPositions(rows, i, Rain3dWindow);
  }

  /** The same for the 7-day sum, over key positions max(0, p - 6) .. p. */
  lemma Rain7dCoversOwnKey(rows: seq<Observation>, i: nat)
    requires SortedBy(rows, RowLe) && i < |rows|
    ensures KeyIndex(rows, i) <= i
    ensures forall j :: i - Min(KeyIndex(rows, i), 6) <= j <= i ==> rows[j].key == rows[i].key
    ensures Rain7d(rows, i) == RollingSum(Rains(rows[i - Min(KeyIndex(rows, i), 6)..i + 1]))
  {
    SortedKeysNeverReturn(rows);
    WindowCoversKeyPositions(rows, i, Rain7dWindow);
  }

  /** On the first row of a key both sums are that day's rainfall alone (missing if it is missing). */
  lemma FirstRowOfKey(rows: seq<Observation>, i: nat)
    requires SortedBy(rows, RowLe) && i < |rows|
    requires i == 0 || rows[i - 1].key != rows[i].key
    ensures Rain3d(rows, i) == rows[i].rfh
    ensures Rain7d(rows, i) == rows[i].rfh
  {
    SortedKeysNeverReturn(rows);
    FirstRowWindow(rows, i, Rain3dWindow);
    FirstRowWindow(rows, i, Rain7dWindow);
  }

  /** With non-negative rainfall the 3-day sum never exceeds the 7-day sum, and the 7-day sum
      exists wherever the 3-day sum does. */
  lemma Rain3dAtMost7d(rows: seq<Observation>, i: nat)
    requires i < |rows|
    requires forall j :: 0 <= j < |rows| ==> ValueOrZero(rows[j].rfh) >= 0.0
    ensures Rain3d(rows, i).Some? ==> Rain7d(rows, i).Some? && Rain3d(rows, i).value <= Rain7d(rows, i).value
  {
    LongerWindowSumsMore(rows, i, Rain3dWindow, Rain7dWindow);
  }
}
