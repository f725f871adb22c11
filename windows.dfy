/** Per-key trailing windows: `df.groupby("PCODE")["rain_mm"].rolling(window=w, ...)`.
    The specification filters each row's key history out of the rows before it, exactly as
    groupby does; the method computes the same windows with one pass over rows sorted by key. */
module Windows {
  import opened Sorting
  import opened Rows

  /** Rainfall of the rows among rows[..n] whose key is k, in row order. */
  function KeyHistory(rows: seq<Observation>, k: string, n: nat): (h: seq<Option<real>>)
    requires n <= |rows|
    ensures |h| <= n
  {
    if n == 0 then []
    else KeyHistory(rows, k, n - 1) + (if rows[n - 1].key == k then [rows[n - 1].rfh] else [])
  }

  /** The last n elements of s, or all of s when it is shorter. */
  function Last<T>(s: seq<T>, n: nat): (r: seq<T>)
    ensures |r| <= n && |r| <= |s|
    ensures |r| == n || |r| == |s|
  {
    if n < |s| then s[|s| - n..] else s
  }

  /** The window row i sees: at most the last w rows of its own key, itself included. */
  function TrailingWindow(rows: seq<Observation>, i: nat, w: nat): (win: seq<Option<real>>)
    requires i < |rows|
    ensures |win| <= w
    ensures w >= 1 ==> |win| >= 1 && win[|win| - 1] == rows[i].rfh
  {
    Last(KeyHistory(rows, rows[i].key, i + 1), w)
  }

  /** Position of row i among the rows of its key (0 for a key's first row). */
  function KeyIndex(rows: seq<Observation>, i: nat): nat
    requires i < |rows|
  {
    |KeyHistory(rows, rows[i].key, i + 1)| - 1
  }

  function ValueOrZero(v: Option<real>): real
  {
    if v.Some? then v.value else 0.0
  }

  /** Number of non-missing values: what pandas compares with `min_periods`. */
  function CountPresent(s: seq<Option<real>>): (c: nat)
    ensures c <= |s|
  {
    if s == [] then 0 else (if s[0].Some? then 1 else 0) + CountPresent(s[1..])
  }

  /** Sum of the non-missing values: pandas skips NaN inside a rolling sum. */
  function SumPresent(s: seq<Option<real>>): real
  {
    if s == [] then 0.0 else ValueOrZero(s[0]) + SumPresent(s[1..])
  }

  /** The non-missing values themselves, in order. */
  function PresentValues(s: seq<Option<real>>): (r: seq<real>)
    ensures |r| == CountPresent(s)
  {
    if s == [] then []
    else (if s[0].Some? then [s[0].value] else []) + PresentValues(s[1..])
  }

  /** `rolling(window=w, min_periods=1).sum()` on one window: missing when the window holds no value. */
  function RollingSum(win: seq<Option<real>>): (r: Option<real>)
    ensures r.None? <==> forall j :: 0 <= j < |win| ==> win[j].None?
  {
    NoneIffCountZero(win);
    if CountPresent(win) == 0 then None else Some(SumPresent(win))
  }

  /** No value is present exactly when every value is missing. */
  lemma {:induction false} NoneIffCountZero(s: seq<Option<real>>)
    ensures CountPresent(s) == 0 <==> forall j :: 0 <= j < |s| ==> s[j].None?
  {
    if s != [] {
      NoneIffCountZero(s[1..]);
      assert forall j :: 1 <= j < |s| ==> s[j] == s[1..][j - 1];
    }
  }

  lemma {:induction false} CountSumAppend(s: seq<Option<real>>, v: Option<real>)
    ensures CountPresent(s + [v]) == CountPresent(s) + (if v.Some? then 1 else 0)
    ensures SumPresent(s + [v]) == SumPresent(s) + ValueOrZero(v)
  {
    if s != [] {
      assert (s + [v])[1..] == s[1..] + [v];
      CountSumAppend(s[1..], v);
    }
  }

  lemma CountSumPrepend(v: Option<real>, s: seq<Option<real>>)
    ensures CountPresent([v] + s) == (if v.Some? then 1 else 0) + CountPresent(s)
    ensures SumPresent([v] + s) == ValueOrZero(v) + SumPresent(s)
  {
    assert ([v] + s)[1..] == s;
  }

  lemma RainsSplit(rows: seq<Observation>, a: nat, b: nat)
    requires a < b <= |rows|
    ensures Rains(rows[a..b]) == Rains(rows[a..b - 1]) + [rows[b - 1].rfh]
    ensures Rains(rows[a..b]) == [rows[a].rfh] + Rains(rows[a + 1..b])
  {
  }

  /** No row before n has key k, so the history of k up to n is empty. */
  lemma {:induction false} NoHistory(rows: seq<Observation>, k: string, n: nat)
    requires n <= |rows|
    requires forall j :: 0 <= j < n ==> rows[j].key != k
    ensures KeyHistory(rows, k, n) == []
  {
    if n > 0 {
      NoHistory(rows, k, n - 1);
    }
  }

  /** Row i starts a new run of keys. */
  predicate StartsKey(rows: seq<Observation>, i: nat)
  {
    0 < i < |rows| && rows[i - 1].key != rows[i].key
  }

  /** Once the run of a key ends, that key never comes back: a row that starts a new key has no
      earlier row of its key. Sorting by key first guarantees it. */
  ghost predicate KeysNeverReturn(rows: seq<Observation>)
  {
    forall i: nat {:trigger StartsKey(rows, i)} :: StartsKey(rows, i) ==> KeyHistory(rows, rows[i].key, i) == []
  }

  lemma SortedKeysNeverReturn(rows: seq<Observation>)
    requires SortedBy(rows, RowLe)
    ensures KeysNeverReturn(rows)
  {
    RowLeIsTransitive();
    SortedPairwise(rows, RowLe);
    forall i: nat | StartsKey(rows, i)
      ensures KeyHistory(rows, rows[i].key, i) == []
    {
      SortedKeyStart(rows, i);
      NoHistory(rows, rows[i].key, i);
    }
  }

  /** When keys never return, the key history of row i is exactly the rainfall of its block up to i:
      rows of other keys never contribute. */
  lemma {:induction false} HistoryIsBlock(rows: seq<Observation>, i: nat)
    requires KeysNeverReturn(rows) && i < |rows|
    ensures KeyHistory(rows, rows[i].key, i + 1) == Rains(rows[GroupStart(rows, i)..i + 1])
  {
    var s := GroupStart(rows, i);
    if s == i {
      assert i > 0 ==> StartsKey(rows, i);
    } else {
      HistoryIsBlock(rows, i - 1);
      RainsSplit(rows, s, i + 1);
    }
  }

  /** So the window of row i is the rainfall at block positions max(0, p - w + 1) .. p,
      where p is the row's position within its key. */
  lemma WindowIsBlockSuffix(rows: seq<Observation>, i: nat, w: nat)
    requires KeysNeverReturn(rows) && i < |rows|
    ensures KeyIndex(rows, i) == i - GroupStart(rows, i)
    ensures var s := GroupStart(rows, i);
            var lo := if i + 1 - s > w then i + 1 - w else s;
            TrailingWindow(rows, i, w) == Rains(rows[lo..i + 1])
  {
    HistoryIsBlock(rows, i);
    var s := GroupStart(rows, i);
    var lo := if i + 1 - s > w then i + 1 - w else s;
    var h := Rains(rows[s..i + 1]);
    assert Last(h, w) == h[lo - s..];
    assert h[lo - s..] == Rains(rows[lo..i + 1]);
  }

  function Min(a: nat, b: nat): nat
  {
    if a < b then a else b
  }

  /** The same in terms of the row's position p within its key: the window is the rainfall of the
      rows at key positions max(0, p - w + 1) .. p, and the key's block starts p rows back. */
  lemma WindowCoversKeyPositions(rows: seq<Observation>, i: nat, w: nat)
    requires KeysNeverReturn(rows) && i < |rows| && w >= 1
    ensures var p := KeyIndex(rows, i);
            && p <= i
            && (p == i || rows[i - p - 1].key != rows[i].key)
            && (forall j :: i - p <= j <= i ==> rows[j].key == rows[i].key)
            && TrailingWindow(rows, i, w) == Rains(rows[i - Min(p, w - 1)..i + 1])
  {
    WindowIsBlockSuffix(rows, i, w);
  }

  /** At the first row of a key the window is that row alone. */
  lemma FirstRowWindow(rows: seq<Observation>, i: nat, w: nat)
    requires KeysNeverReturn(rows) && i < |rows| && w >= 1
    requires i == 0 || rows[i - 1].key != rows[i].key
    ensures KeyIndex(rows, i) == 0
    ensures TrailingWindow(rows, i, w) == [rows[i].rfh]
    ensures RollingSum(TrailingWindow(rows, i, w)) == rows[i].rfh
  {
    assert TrailingWindow(rows, i, w) == [rows[i].rfh] && KeyIndex(rows, i) == 0 by {
      assert GroupStart(rows, i) == i;
      WindowIsBlockSuffix(rows, i, w);
      assert Rains(rows[i..i + 1]) == [rows[i].rfh];
    }
    assert RollingSum([rows[i].rfh]) == rows[i].rfh by {
      CountSumAppend([], rows[i].rfh);
      assert [] + [rows[i].rfh] == [rows[i].rfh];
    }
  }

  /** Appending a value and keeping the last w commutes with keeping the last w first. */
  lemma LastAppend<T>(h: seq<T>, x: T, w: nat)
    ensures Last(Last(h, w) + [x], w) == Last(h + [x], w)
  {
    if w < |h| {
      assert Last(h, w) + [x] == (h + [x])[|h| - w..];
    }
  }

  /** The window of row i is the previous window of its key with row i appended and trimmed back
      to w values; a key's first row starts from an empty window. */
  lemma WindowStep(rows: seq<Observation>, i: nat, w: nat, previous: seq<Option<real>>)
    requires KeysNeverReturn(rows) && i < |rows|
    requires (i == 0 || rows[i - 1].key != rows[i].key) ==> previous == []
    requires 0 < i && rows[i - 1].key == rows[i].key ==> previous == TrailingWindow(rows, i - 1, w)
    ensures TrailingWindow(rows, i, w) == Last(previous + [rows[i].rfh], w)
  {
    LastAppend(KeyHistory(rows, rows[i].key, i), rows[i].rfh, w);
    assert i > 0 && rows[i - 1].key != rows[i].key ==> StartsKey(rows, i);
  }

  /** c and t are the count and the sum of the non-missing values in row i's trailing window. */
  ghost predicate WindowTotals(rows: seq<Observation>, i: nat, w: nat, c: nat, t: real)
    requires i < |rows|
  {
    c == CountPresent(TrailingWindow(rows, i, w)) && t == SumPresent(TrailingWindow(rows, i, w))
  }

  /** The queue operation: v enters at the back and, once more than w values are held, the oldest
      leaves at the front; the running count and sum of present values follow without a rescan. */
  method Push(window: seq<Option<real>>, count: nat, total: real, v: Option<real>, w: nat)
    returns (window': seq<Option<real>>, count': nat, total': real)
    requires |window| <= w && count == CountPresent(window) && total == SumPresent(window)
    ensures window' == Last(window + [v], w) && |window'| <= w
    ensures count' == CountPresent(window') && total' == SumPresent(window')
  {
    CountSumAppend(window, v);
    window', count', total' := window + [v], count + (if v.Some? then 1 else 0), total + ValueOrZero(v);
    if |window'| > w {
      CountSumPrepend(window'[0], window'[1..]);
      assert window' == [window'[0]] + window'[1..];
      count' := count' - (if window'[0].Some? then 1 else 0);
      total' := total' - ValueOrZero(window'[0]);
      window' := window'[1..];
    }
  }

  /** One step over row i: a row that starts a key empties the queue, then row i's rainfall is
      pushed; the queue then holds row i's trailing window. */
  method Slide(rows: seq<Observation>, i: nat, w: nat, window: seq<Option<real>>, count: nat, total: real)
    returns (window': seq<Option<real>>, count': nat, total': real)
    requires KeysNeverReturn(rows) && i < |rows|
    requires 0 < i ==> window == TrailingWindow(rows, i - 1, w)
    requires |window| <= w && count == CountPresent(window) && total == SumPresent(window)
    ensures window' == TrailingWindow(rows, i, w) && |window'| <= w
    ensures count' == CountPresent(window') && total' == SumPresent(window')
  {
    window', count', total' := window, count, total;
    if i == 0 || rows[i - 1].key != rows[i].key {
      window', count', total' := [], 0, 0.0;
    }
    WindowStep(rows, i, w, window');
    window', count', total' := Push(window', count', total', rows[i].rfh, w);
  }

  /** Stores row i's count and sum in the two columns, keeping what the rows before it hold. */
  method Record(rows: seq<Observation>, w: nat, countCol: array<nat>, sumCol: array<real>, i: nat, count: nat, total: real)
    requires countCol.Length == |rows| && sumCol.Length == |rows| && i < |rows|
    requires forall j :: 0 <= j < i ==> WindowTotals(rows, j, w, countCol[j], sumCol[j])
    requires WindowTotals(rows, i, w, count, total)
    modifies countCol, sumCol
    ensures forall j :: 0 <= j <= i ==> WindowTotals(rows, j, w, countCol[j], sumCol[j])
  {
    countCol[i] := count;
    sumCol[i] := total;
  }

  /** For rows sorted by key: the count and the sum of non-missing rainfall in every row's trailing
      window of w rows of its own key. The window is kept as a queue of the last w raw values with
      a running count and sum; each row enters it once and leaves it at most once. */
  method RollingCountsAndSums(rows: seq<Observation>, w: nat) returns (counts: seq<nat>, sums: seq<real>)
    requires KeysNeverReturn(rows)
    ensures |counts| == |rows| && |sums| == |rows|
    ensures forall i :: 0 <= i < |rows| ==> WindowTotals(rows, i, w, counts[i], sums[i])
  {
    var countCol := new nat[|rows|];
    var sumCol := new real[|rows|];
    var window: seq<Option<real>> := [];
    var count, total := 0, 0.0;
    for i := 0 to |rows|
      invariant 0 < i ==> window == TrailingWindow(rows, i - 1, w)
      invariant |window| <= w
      invariant count == CountPresent(window) && total == SumPresent(window)
      invariant forall j :: 0 <= j < i ==> WindowTotals(rows, j, w, countCol[j], sumCol[j])
    {
      window, count, total := Slide(rows, i, w, window, count, total);
      Record(rows, w, countCol, sumCol, i, count, total);
    }
    counts := countCol[..];
    sums := sumCol[..];
  }

  /** Trailing windows of two sizes end at the same row: the shorter is a suffix of the longer. */
  lemma ShorterWindowIsSuffix(h: seq<Option<real>>, a: nat, b: nat)
    requires a <= b
    ensures Last(h, a) == Last(h, b)[|Last(h, b)| - |Last(h, a)|..]
  {
  }

  lemma {:induction false} SuffixCountSum(s: seq<Option<real>>, k: nat)
    requires k <= |s|
    requires forall j :: 0 <= j < |s| ==> ValueOrZero(s[j]) >= 0.0
    ensures CountPresent(s[k..]) <= CountPresent(s)
    ensures SumPresent(s[k..]) <= SumPresent(s)
  {
    if k > 0 {
      SuffixCountSum(s[1..], k - 1);
      assert s[1..][k - 1..] == s[k..];
    }
  }

  /** With non-negative rainfall a longer trailing sum is never smaller, and is present whenever
      the shorter one is: in particular rain_3d <= rain_7d on every row. */
  lemma LongerWindowSumsMore(rows: seq<Observation>, i: nat, a: nat, b: nat)
    requires i < |rows| && a <= b
    requires forall j :: 0 <= j < |rows| ==> ValueOrZero(rows[j].rfh) >= 0.0
    ensures RollingSum(TrailingWindow(rows, i, a)).Some? ==> RollingSum(TrailingWindow(rows, i, b)).Some?
    ensures RollingSum(TrailingWindow(rows, i, a)).Some? ==>
              RollingSum(TrailingWindow(rows, i, a)).value <= RollingSum(TrailingWindow(rows, i, b)).value
  {
    var h := KeyHistory(rows, rows[i].key, i + 1);
    HistoryNonNegative(rows, rows[i].key, i + 1);
    var long := Last(h, b);
    ShorterWindowIsSuffix(h, a, b);
    SuffixCountSum(long, |long| - |Last(h, a)|);
  }

  lemma {:induction false} HistoryNonNegative(rows: seq<Observation>, k: string, n: nat)
    requires n <= |rows|
    requires forall j :: 0 <= j < |rows| ==> ValueOrZero(rows[j].rfh) >= 0.0
    ensures forall j :: 0 <= j < |KeyHistory(rows, k, n)| ==> ValueOrZero(KeyHistory(rows, k, n)[j]) >= 0.0
  {
    if n > 0 {
      HistoryNonNegative(rows, k, n - 1);
    }
  }
}
