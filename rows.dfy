/** Input observations of the rainfall pipeline and the (PCODE, date) order they are sorted by. */
module Rows {
  import opened Sorting

  datatype Option<+T> = None | Some(value: T)

  /** One input row: the administrative unit code (PCODE), the day (a day number), and the
      rainfall column `rfh`, which is None where the loaded file holds a missing value (NaN). */
  datatype Observation = Observation(key: string, date: int, rfh: Option<real>)

  /** The rainfall column of a run of rows. */
  function Rains(rows: seq<Observation>): seq<Option<real>>
  {
    seq(|rows|, j requires 0 <= j < |rows| => rows[j].rfh)
  }

  /** Python's ordering of `str`: lexicographic by code point, a proper prefix first. */
  predicate KeyLe(a: string, b: string)
  {
    if a == [] then true
    else if b == [] then false
    else if a[0] != b[0] then a[0] < b[0]
    else KeyLe(a[1..], b[1..])
  }

  lemma {:induction false} KeyLeTotal(a: string, b: string)
    ensures KeyLe(a, b) || KeyLe(b, a)
  {
    if a != [] && b != [] && a[0] == b[0] {
      KeyLeTotal(a[1..], b[1..]);
    }
  }

  lemma {:induction false} KeyLeAntisymmetric(a: string, b: string)
    requires KeyLe(a, b) && KeyLe(b, a)
    ensures a == b
  {
    if a != [] && b != [] {
      KeyLeAntisymmetric(a[1..], b[1..]);
      assert a == [a[0]] + a[1..] && b == [b[0]] + b[1..];
    }
  }

  lemma {:induction false} KeyLeTransitive(a: string, b: string, c: string)
    requires KeyLe(a, b) && KeyLe(b, c)
    ensures KeyLe(a, c)
  {
    if a != [] && b != [] && c != [] && a[0] == b[0] && b[0] == c[0] {
      KeyLeTransitive(a[1..], b[1..], c[1..]);
    }
  }

  /** The order of `sort_values(["PCODE", "date"])`: by key, then by date. */
  predicate RowLe(x: Observation, y: Observation)
  {
    if x.key == y.key then x.date <= y.date else KeyLe(x.key, y.key)
  }

  lemma RowLeTotal(x: Observation, y: Observation)
    ensures RowLe(x, y) || RowLe(y, x)
  {
    KeyLeTotal(x.key, y.key);
  }

  lemma RowLeTransitive(x: Observation, y: Observation, z: Observation)
    requires RowLe(x, y) && RowLe(y, z)
    ensures RowLe(x, z)
  {
    if x.key != y.key && y.key != z.key {
      KeyLeTransitive(x.key, y.key, z.key);
      if x.key == z.key {
        KeyLeAntisymmetric(y.key, z.key);
      }
    }
  }

  lemma RowLeIsTotal()
    ensures Total(RowLe)
  {
    forall x, y ensures RowLe(x, y) || RowLe(y, x) {
      RowLeTotal(x, y);
    }
  }

  lemma RowLeIsTransitive()
    ensures Transitive(RowLe)
  {
    forall x, y, z | RowLe(x, y) && RowLe(y, z) ensures RowLe(x, z) {
      RowLeTransitive(x, y, z);
    }
  }

  /** Two rows tie in the (PCODE, date) order exactly when they have the same PCODE and date. */
  lemma RowTiesAreSameDay(x: Observation, y: Observation)
    ensures RowLe(x, y) && RowLe(y, x) <==> x.key == y.key && x.date == y.date
  {
    if x.key != y.key && KeyLe(x.key, y.key) && KeyLe(y.key, x.key) {
      KeyLeAntisymmetric(x.key, y.key);
    }
  }

  /** Index of the first row of the run of equal keys that ends at row i. */
  function GroupStart(rows: seq<Observation>, i: nat): (s: nat)
    requires i < |rows|
    ensures s <= i
    ensures forall j :: s <= j <= i ==> rows[j].key == rows[i].key
    ensures s == 0 || rows[s - 1].key != rows[i].key
  {
    if i == 0 || rows[i - 1].key != rows[i].key then i else GroupStart(rows, i - 1)
  }

  /** In rows sorted by (key, date), a row that starts a new key has no earlier row of that key. */
  lemma SortedKeyStart(rows: seq<Observation>, i: nat)
    requires forall a, b :: 0 <= a < b < |rows| ==> RowLe(rows[a], rows[b])
    requires 0 < i < |rows| && rows[i - 1].key != rows[i].key
    ensures forall j :: 0 <= j < i ==> rows[j].key != rows[i].key
  {
    forall j | 0 <= j < i ensures rows[j].key != rows[i].key {
      assert RowLe(rows[i - 1], rows[i]);
      if j < i - 1 {
        assert RowLe(rows[j], rows[i - 1]);
        if rows[j].key == rows[i].key {
          KeyLeAntisymmetric(rows[i - 1].key, rows[i].key);
        }
      }
    }
  }
}
