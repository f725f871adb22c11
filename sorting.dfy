/** The `sort_values` calls of the pipeline: a stable sort under a total preorder. The definition
    is an insertion sort; its contract says the result is a sorted permutation of the input, and
    `SortStable` proves that elements that tie keep their input order. */
module Sorting {

  ghost predicate Total<T(!new)>(le: (T, T) -> bool)
  {
    forall a, b :: le(a, b) || le(b, a)
  }

  ghost predicate Transitive<T(!new)>(le: (T, T) -> bool)
  {
    forall a, b, c :: le(a, b) && le(b, c) ==> le(a, c)
  }

  /** Every pair of neighbours is in order. */
  ghost predicate SortedBy<T>(s: seq<T>, le: (T, T) -> bool)
  {
    forall i :: 0 < i < |s| ==> le(s[i - 1], s[i])
  }

  /** Under a transitive order, neighbours in order means every pair in order. */
  lemma {:induction false} SortedPairwise<T(!new)>(s: seq<T>, le: (T, T) -> bool)
    requires Transitive(le) && SortedBy(s, le)
    ensures forall i, j :: 0 <= i < j < |s| ==> le(s[i], s[j])
  {
    if s != [] {
      SortedPairwise(s[..|s| - 1], le);
      forall i | 0 <= i < |s| - 1
        ensures le(s[i], s[|s| - 1])
      {
        if i < |s| - 2 {
          assert le(s[i], s[|s| - 2]);
        }
      }
    }
  }

  /** Insertion of x into a sorted sequence: x goes in front of the first element it is not
      above. Only totality is needed, because sortedness is a property of neighbours. */
  function Insert<T(!new)>(x: T, s: seq<T>, le: (T, T) -> bool): (r: seq<T>)
    requires Total(le) && SortedBy(s, le)
    ensures SortedBy(r, le)
    ensures multiset(r) == multiset(s) + multiset{x}
    ensures |r| == |s| + 1 && (r[0] == x || (s != [] && r[0] == s[0]))
  {
    if s == [] || le(x, s[0]) then
      [x] + s
    else
      assert s == [s[0]] + s[1..];
      [s[0]] + Insert(x, s[1..], le)
  }

  function Sort<T(!new)>(s: seq<T>, le: (T, T) -> bool): (r: seq<T>)
    requires Total(le)
    ensures SortedBy(r, le)
    ensures multiset(r) == multiset(s) && |r| == |s|
  {
    if s == [] then []
    else
      assert s == [s[0]] + s[1..];
      Insert(s[0], Sort(s[1..], le), le)
  }

  /** Sorting rows that are already sorted changes nothing. */
  lemma {:induction false} SortIdempotent<T(!new)>(s: seq<T>, le: (T, T) -> bool)
    requires Total(le) && SortedBy(s, le)
    ensures Sort(s, le) == s
  {
    if s != [] {
      SortIdempotent(s[1..], le);
      assert s == [s[0]] + s[1..];
    }
  }

  /** The elements of s that satisfy keep, in their order. */
  function Filter<T(!new)>(s: seq<T>, keep: T -> bool): (r: seq<T>)
    ensures |r| <= |s|
    ensures forall x :: multiset(r)[x] == if keep(x) then multiset(s)[x] else 0
  {
    if s == [] then []
    else
      assert s == [s[0]] + s[1..];
      (if keep(s[0]) then [s[0]] else []) + Filter(s[1..], keep)
  }

  /** Filtering keeps every pair of kept elements in the order they had. */
  lemma {:induction false} FilterKeepsOrder<T(!new)>(s: seq<T>, keep: T -> bool, le: (T, T) -> bool)
    requires Transitive(le) && SortedBy(s, le)
    ensures SortedBy(Filter(s, keep), le)
  {
    if s != [] {
      assert SortedBy(s[1..], le);
      FilterKeepsOrder(s[1..], keep, le);
      var rest := Filter(s[1..], keep);
      if keep(s[0]) && rest != [] {
        SortedPairwise(s, le);
        assert rest[0] in multiset(s[1..]);
        var k :| 0 <= k < |s[1..]| && s[1..][k] == rest[0];
        assert le(s[0], s[k + 1]);
      }
    }
  }

  /** The elements of s that tie with e under le (each is at most the other), in their order. */
  function Ties<T(!new)>(s: seq<T>, le: (T, T) -> bool, e: T): seq<T>
  {
    Filter(s, x => le(x, e) && le(e, x))
  }

  lemma TiesCons<T(!new)>(x: T, s: seq<T>, le: (T, T) -> bool, e: T)
    ensures Ties([x] + s, le, e) == (if le(x, e) && le(e, x) then [x] else []) + Ties(s, le, e)
  {
    assert ([x] + s)[1..] == s;
  }

  lemma HeadTail<T>(s: seq<T>)
    requires s != []
    ensures [s[0]] + s[1..] == s
  {
  }

  lemma SwapEmpty<T>(a: seq<T>, b: seq<T>, c: seq<T>)
    requires a == [] || b == []
    ensures a + (b + c) == b + (a + c)
  {
  }

  /** Chains of le that pass through e compose. Every transitive order has this property for every e. */
  ghost predicate TransitiveThrough<T(!new)>(le: (T, T) -> bool, e: T)
  {
    forall a, b :: le(a, e) && le(e, b) ==> le(a, b)
  }

  /** Insertion goes in front of the first element x is not above, so every element ahead of x is
      strictly below it and none of them ties with x: among its ties, x comes first. */
  lemma {:induction false} InsertTies<T(!new)>(x: T, s: seq<T>, le: (T, T) -> bool, e: T)
    requires Total(le) && TransitiveThrough(le, e) && SortedBy(s, le)
    ensures Ties(Insert(x, s, le), le, e) == (if le(x, e) && le(e, x) then [x] else []) + Ties(s, le, e)
  {
    var tx := if le(x, e) && le(e, x) then [x] else [];
    if s == [] || le(x, s[0]) {
      assert Insert(x, s, le) == [x] + s;
      TiesCons(x, s, le, e);
    } else {
      var r := Insert(x, s[1..], le);
      var t0 := if le(s[0], e) && le(e, s[0]) then [s[0]] else [];
      assert Insert(x, s, le) == [s[0]] + r;
      assert SortedBy(s[1..], le);
      InsertTies(x, s[1..], le, e);
      assert Ties(r, le, e) == tx + Ties(s[1..], le, e);
      TiesCons(s[0], r, le, e);
      assert Ties([s[0]] + r, le, e) == t0 + (tx + Ties(s[1..], le, e));
      TiesCons(s[0], s[1..], le, e);
      HeadTail(s);
      assert Ties(s, le, e) == t0 + Ties(s[1..], le, e);
      assert !(le(x, e) && le(e, s[0]));
      SwapEmpty(t0, tx, Ties(s[1..], le, e));
    }
  }

  /** The sort is stable: elements that tie keep the order they had in the input. */
  lemma {:induction false} SortStable<T(!new)>(s: seq<T>, le: (T, T) -> bool, e: T)
    requires Total(le) && Transitive(le)
    ensures Ties(Sort(s, le), le, e) == Ties(s, le, e)
  {
    assert TransitiveThrough(le, e);
    SortStableThrough(s, le, e);
  }

  lemma {:induction false} SortStableThrough<T(!new)>(s: seq<T>, le: (T, T) -> bool, e: T)
    requires Total(le) && TransitiveThrough(le, e)
    ensures Ties(Sort(s, le), le, e) == Ties(s, le, e)
  {
    if s != [] {
      SortStableThrough(s[1..], le, e);
      InsertTies(s[0], Sort(s[1..], le), le, e);
      TiesCons(s[0], s[1..], le, e);
      HeadTail(s);
    }
  }
}
