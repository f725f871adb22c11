/** `get_recent_risk_for_pcode`: the rows of one PCODE, sorted by date, without the rows whose
    rainfall or rolling sums are missing, and of those the last `n_last`. */
module Recent {
  import opened Sorting
  import opened Rows
  import opened Windows
  import opened Features

  predicate HasKey(pcode: string, f: FeatureRow)
  {
    f.obs.key == pcode
  }

  /** `dropna(subset=["rain_mm", "rain_3d", "rain_7d"])` keeps a row when all three are present. */
  predicate Complete(f: FeatureRow)
  {
    f.obs.rfh.Some? && f.rain3d.Some? && f.rain7d.Some?
  }

  predicate DateLe(a: FeatureRow, b: FeatureRow)
  {
    a.obs.date <= b.obs.date
  }

  lemma DateLeIsTotal()
    ensures Total(DateLe)
  {
  }

  lemma DateLeIsTransitive()
    ensures Transitive(DateLe)
  {
  }

  /** How many of len rows `tail(n)` keeps: at most n for n >= 0, all but the first -n otherwise. */
  function TailLength(len: nat, n: int): (k: nat)
    ensures k <= len
    ensures n >= 0 ==> k <= n && (k == n || k == len)
    ensures n < 0 ==> k == len + n || (k == 0 && len <= -n)
  {
    if n >= 0 then (if n < len then n else len)
    else (if -n < len then len + n else 0)
  }

  /** `tail(n)`: the last n rows, all of them when there are fewer; for a negative n pandas
      instead drops the first -n rows. */
  function Tail<T>(s: seq<T>, n: int): (r: seq<T>)
    ensures |r| == TailLength(|s|, n)
    ensures r == s[|s| - |r|..]
  {
    if n >= 0 then Last(s, n)
    else (if -n < |s| then s[-n..] else [])
  }

  /** The rows of pcode, sorted by date, with the incomplete rows dropped. */
  function Prepared(feat: seq<FeatureRow>, pcode: string): (p: seq<FeatureRow>)
    ensures SortedBy(p, DateLe)
    ensures forall x :: multiset(p)[x] == if HasKey(pcode, x) && Complete(x) then multiset(feat)[x] else 0
  {
    DateLeIsTotal();
    DateLeIsTransitive();
    var sorted := Sort(Filter(feat, x => HasKey(pcode, x)), DateLe);
    FilterKeepsOrder(sorted, Complete, DateLe);
    Filter(sorted, Complete)
  }

  lemma SuffixKeepsOrder<T>(s: seq<T>, k: nat, le: (T, T) -> bool)
    requires k <= |s| && SortedBy(s, le)
    ensures SortedBy(s[k..], le)
  {
  }

  /** Every row that survives preparation has the key and is complete. */
  lemma PreparedRows(feat: seq<FeatureRow>, pcode: string)
    ensures forall j :: 0 <= j < |Prepared(feat, pcode)| ==>
              HasKey(pcode, Prepared(feat, pcode)[j]) && Complete(Prepared(feat, pcode)[j])
  {
    var p := Prepared(feat, pcode);
    forall j | 0 <= j < |p|
      ensures HasKey(pcode, p[j]) && Complete(p[j])
    {
      assert p[j] in multiset(p);
    }
  }

  /** What `tail` keeps of rows that are sorted, keyed and complete, it keeps sorted, keyed and
      complete, and it keeps nothing new. */
  lemma TailOfPrepared(p: seq<FeatureRow>, pcode: string, n: int)
    requires SortedBy(p, DateLe)
    requires forall j :: 0 <= j < |p| ==> HasKey(pcode, p[j]) && Complete(p[j])
    ensures SortedBy(Tail(p, n), DateLe)
    ensures forall j :: 0 <= j < |Tail(p, n)| ==> HasKey(pcode, Tail(p, n)[j]) && Complete(Tail(p, n)[j])
    ensures multiset(Tail(p, n)) <= multiset(p)
  {
    var r := Tail(p, n);
    SuffixKeepsOrder(p, |p| - |r|, DateLe);
    assert p == p[..|p| - |r|] + r;
  }

  /** The recent view of one PCODE. */
  function GetRecentRiskForPcode(feat: seq<FeatureRow>, pcode: string, nLast: int): (recent: seq<FeatureRow>)
    ensures |recent| <= |Prepared(feat, pcode)|
    ensures recent == Prepared(feat, pcode)[|Prepared(feat, pcode)| - |recent|..]
    ensures |recent| == TailLength(|Prepared(feat, pcode)|, nLast)
    ensures forall j :: 0 <= j < |recent| ==> recent[j].obs.key == pcode && Complete(recent[j])
    ensures SortedBy(recent, DateLe)
    ensures multiset(recent) <= multiset(feat)
  {
    var p := Prepared(feat, pcode);
    PreparedRows(feat, pcode);
    TailOfPrepared(p, pcode, nLast);
    assert multiset(p) <= multiset(feat);
    Tail(p, nLast)
  }

  /** The rows the view leaves out for want of room are never later than the rows it returns. */
  lemma RecentAreLatest(feat: seq<FeatureRow>, pcode: string, nLast: int)
    ensures var p := Prepared(feat, pcode);
            var recent := GetRecentRiskForPcode(feat, pcode, nLast);
            forall a, b :: 0 <= a < |p| - |recent| <= b < |p| ==> p[a].obs.date <= p[b].obs.date
  {
    DateLeIsTransitive();
    SortedPairwise(Prepared(feat, pcode), DateLe);
  }

  /** A PCODE with no rows gives an empty view, not an error. */
  lemma AbsentKeyGivesEmpty(feat: seq<FeatureRow>, pcode: string, nLast: int)
    requires forall j :: 0 <= j < |feat| ==> feat[j].obs.key != pcode
    ensures GetRecentRiskForPcode(feat, pcode, nLast) == []
  {
  }
}
