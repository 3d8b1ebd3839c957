/**
 * The parts of the relational database's query semantics that the handlers
 * rely on: `LIKE '%x%'` (substring containment), `WHERE` (filtering in table
 * order) and `ORDER BY` (a stable sort on a column key).
 */
module Relational {

  /** `haystack LIKE '%needle%'`: `needle` occurs as a contiguous run of `haystack`. */
  predicate Contains(haystack: string, needle: string) {
    exists i | 0 <= i <= |haystack| - |needle| :: OccursAt(haystack, needle, i)
  }

  /** `needle` is the run of `haystack` that starts at index `i`. */
  predicate OccursAt(haystack: string, needle: string, i: nat) {
    i + |needle| <= |haystack| && haystack[i..i + |needle|] == needle
  }

  /** `WHERE keep(row)`: the rows that satisfy `keep`, in table order. */
  function Filter<T(==,!new)>(rows: seq<T>, keep: T -> bool): (r: seq<T>)
    ensures |r| <= |rows|
    ensures forall x :: multiset(r)[x] == if keep(x) then multiset(rows)[x] else 0
    ensures forall x :: x in r <==> x in rows && keep(x)
  {
    if rows == [] then []
    else
      var rest := Filter(rows[1..], keep);
      assert rows == [rows[0]] + rows[1..];
      if keep(rows[0]) then [rows[0]] + rest else rest
  }

  /** Two filters that agree on every row select the same rows. */
  lemma {:induction false} FilterCongruent<T(!new)>(rows: seq<T>, f: T -> bool, g: T -> bool)
    requires forall x | x in rows :: f(x) == g(x)
    ensures Filter(rows, f) == Filter(rows, g)
  {
    if rows != [] {
      FilterCongruent(rows[1..], f, g);
    }
  }

  /** Code-point lexicographic order on strings: a prefix comes first. */
  predicate LexLe(a: string, b: string) {
    if a == [] then true
    else if b == [] then false
    else if a[0] != b[0] then a[0] < b[0]
    else LexLe(a[1..], b[1..])
  }

  lemma {:induction false} LexLeTotal(a: string, b: string)
    ensures LexLe(a, b) || LexLe(b, a)
  {
    if a != [] && b != [] && a[0] == b[0] {
      LexLeTotal(a[1..], b[1..]);
    }
  }

  lemma {:induction false} LexLeTransitive(a: string, b: string, c: string)
    requires LexLe(a, b) && LexLe(b, c)
    ensures LexLe(a, c)
  {
    if a != [] && b != [] && c != [] && a[0] == b[0] && b[0] == c[0] {
      LexLeTransitive(a[1..], b[1..], c[1..]);
    }
  }

  /** The value of the column an `ORDER BY` names: a text column or a timestamp. */
  datatype SortKey = Text(text: string) | Time(instant: int)

  /** The column order `ASC` uses: text lexicographically, timestamps numerically. */
  predicate KeyLe(x: SortKey, y: SortKey) {
    match (x, y)
    case (Text(a), Text(b)) => LexLe(a, b)
    case (Time(a), Time(b)) => a <= b
    case (Text(_), Time(_)) => true
    case (Time(_), Text(_)) => false
  }

  /** `x` may precede `y` in a result ordered `ASC` (`desc` false) or `DESC` (`desc` true). */
  predicate InOrder(x: SortKey, y: SortKey, desc: bool) {
    if desc then KeyLe(y, x) else KeyLe(x, y)
  }

  lemma InOrderTotal(x: SortKey, y: SortKey, desc: bool)
    ensures InOrder(x, y, desc) || InOrder(y, x, desc)
  {
    match (x, y)
    case (Text(a), Text(b)) => LexLeTotal(a, b);
    case _ =>
  }

  lemma InOrderTransitive(x: SortKey, y: SortKey, z: SortKey, desc: bool)
    requires InOrder(x, y, desc) && InOrder(y, z, desc)
    ensures InOrder(x, z, desc)
  {
    if x.Text? && y.Text? && z.Text? {
      if desc { LexLeTransitive(z.text, y.text, x.text); }
      else { LexLeTransitive(x.text, y.text, z.text); }
    }
  }

  /** Every earlier row may precede every later one under the requested order. */
  predicate SortedBy<T>(rows: seq<T>, key: T -> SortKey, desc: bool) {
    forall i, j | 0 <= i < j < |rows| :: InOrder(key(rows[i]), key(rows[j]), desc)
  }

  /** Places `x` after every row that may precede it (ties keep their table order). */
  function Insert<T(==)>(x: T, rows: seq<T>, key: T -> SortKey, desc: bool): (r: seq<T>)
    ensures multiset(r) == multiset(rows) + multiset{x}
  {
    if rows == [] then [x]
    else if InOrder(key(x), key(rows[0]), desc) then [x] + rows
    else
      assert rows == [rows[0]] + rows[1..];
      [rows[0]] + Insert(x, rows[1..], key, desc)
  }

  lemma {:induction false} InsertKeepsSorted<T>(x: T, rows: seq<T>, key: T -> SortKey, desc: bool)
    requires SortedBy(rows, key, desc)
    ensures SortedBy(Insert(x, rows, key, desc), key, desc)
  {
    if rows == [] {
    } else if InOrder(key(x), key(rows[0]), desc) {
      forall j | 0 <= j < |rows| ensures InOrder(key(x), key(rows[j]), desc) {
        if j > 0 { InOrderTransitive(key(x), key(rows[0]), key(rows[j]), desc); }
      }
    } else {
      var rest := Insert(x, rows[1..], key, desc);
      InsertKeepsSorted(x, rows[1..], key, desc);
      InOrderTotal(key(x), key(rows[0]), desc);
      forall k | 0 <= k < |rest| ensures InOrder(key(rows[0]), key(rest[k]), desc) {
        assert rest[k] in multiset(rest);
        if rest[k] != x {
          assert rest[k] in multiset(rows[1..]);
          var j :| 0 <= j < |rows[1..]| && rows[1..][j] == rest[k];
          assert rows[j + 1] == rest[k];
        }
      }
      var r := [rows[0]] + rest;
      forall i, j | 0 <= i < j < |r| ensures InOrder(key(r[i]), key(r[j]), desc) {
        if i > 0 { assert r[i] == rest[i - 1] && r[j] == rest[j - 1]; }
      }
    }
  }

  /** `ORDER BY key ASC|DESC`: a permutation of `rows` that is sorted by `key`. */
  function SortBy<T(==)>(rows: seq<T>, key: T -> SortKey, desc: bool): (r: seq<T>)
    ensures multiset(r) == multiset(rows)
    ensures SortedBy(r, key, desc)
  {
    if rows == [] then []
    else
      var rest := SortBy(rows[1..], key, desc);
      InsertKeepsSorted(rows[0], rest, key, desc);
      assert rows == [rows[0]] + rows[1..];
      Insert(rows[0], rest, key, desc)
  }

  /**
   * `SELECT ... WHERE keep ORDER BY key`: each row that satisfies `keep` appears
   * as often as in the table, no other row appears, and the result is sorted.
   */
  function Select<T(==,!new)>(rows: seq<T>, keep: T -> bool, key: T -> SortKey, desc: bool): (r: seq<T>)
    ensures forall x :: multiset(r)[x] == if keep(x) then multiset(rows)[x] else 0
    ensures SortedBy(r, key, desc)
  {
    SortBy(Filter(rows, keep), key, desc)
  }
}
