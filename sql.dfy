/** The relational semantics the canned queries rely on: nullable values,
    WHERE-filtered sums, GROUP BY with SUM or COUNT, ORDER BY ... DESC,
    LIMIT, SQL's NULL-skipping SUM and COALESCE, and UPDATE / DELETE ... WHERE.
    Everything here is generic in the row type; the tables live in Schema. */
module Sql {

  /** A nullable column value (SQL NULL is None). */
  datatype Option<+T> = None | Some(value: T) {
    function GetOr(default: T): T {
      if Some? then value else default
    }
  }

  /** One output row of a grouped aggregate: the group key and its aggregate. */
  datatype Row<K> = Row(key: K, value: int)

  function RowKey<K>(r: Row<K>): K { r.key }
  function RowValue<K>(r: Row<K>): int { r.value }

  /** The aggregated value of COUNT(*): every row counts 1. */
  function One<T>(x: T): int { 1 }

  /** A nullable integer read as 0 when NULL. */
  function OrZero(x: Option<int>): int { x.GetOr(0) }

  /** The values of one column, row by row. */
  function Column<T, K>(rows: seq<T>, col: T -> K): seq<K> {
    seq(|rows|, i requires 0 <= i < |rows| => col(rows[i]))
  }

  lemma ColumnCons<T, K>(rows: seq<T>, col: T -> K)
    requires rows != []
    ensures Column(rows, col) == [col(rows[0])] + Column(rows[1..], col)
  {
    assert forall i :: 1 <= i < |rows| ==> rows[1..][i - 1] == rows[i];
  }

  lemma ColumnAppend<T, K>(xs: seq<T>, ys: seq<T>, col: T -> K)
    ensures Column(xs + ys, col) == Column(xs, col) + Column(ys, col)
  {
    assert forall i :: 0 <= i < |xs| ==> (xs + ys)[i] == xs[i];
    assert forall i :: |xs| <= i < |xs| + |ys| ==> (xs + ys)[i] == ys[i - |xs|];
  }

  predicate Distinct<K(==,!new)>(s: seq<K>) {
    forall i, j :: 0 <= i < j < |s| ==> s[i] != s[j]
  }

  lemma DistinctCons<K(!new)>(h: K, s: seq<K>)
    requires Distinct(s) && h !in s
    ensures Distinct([h] + s)
  {
    var r := [h] + s;
    forall i, j | 0 <= i < j < |r| ensures r[i] != r[j] {
      assert r[j] == s[j - 1];
      if i > 0 {
        assert r[i] == s[i - 1];
      }
    }
  }

  lemma DistinctTail<K(!new)>(s: seq<K>)
    requires s != [] && Distinct(s)
    ensures s[0] !in s[1..] && Distinct(s[1..])
  {
    assert forall i :: 0 <= i < |s| - 1 ==> s[1..][i] == s[i + 1];
  }

  /** In a column without duplicates, no other row shares the key of row j. */
  lemma DistinctColumnUnique<T, K(!new)>(rows: seq<T>, col: T -> K, j: int)
    requires Distinct(Column(rows, col)) && 0 <= j < |rows|
    ensures forall i :: 0 <= i < |rows| && i != j ==> col(rows[i]) != col(rows[j])
  {
    forall i | 0 <= i < |rows| && i != j ensures col(rows[i]) != col(rows[j]) {
      assert Column(rows, col)[i] == col(rows[i]);
      assert Column(rows, col)[j] == col(rows[j]);
    }
  }

  /** A key missing from a column is the key of no row. */
  lemma ColumnAbsent<T, K>(rows: seq<T>, col: T -> K, k: K)
    requires k !in Column(rows, col)
    ensures forall i :: 0 <= i < |rows| ==> col(rows[i]) != k
  {
    forall i | 0 <= i < |rows| ensures col(rows[i]) != k {
      assert Column(rows, col)[i] == col(rows[i]);
    }
  }

  /** Every key of rows that all occur in other rows occurs among the other rows' keys. */
  lemma ColumnSubset<T, K>(sub: seq<T>, rows: seq<T>, col: T -> K)
    requires forall x :: x in sub ==> x in rows
    ensures forall k :: k in Column(sub, col) ==> k in Column(rows, col)
  {
    forall k | k in Column(sub, col) ensures k in Column(rows, col) {
      var i :| 0 <= i < |sub| && Column(sub, col)[i] == k;
      assert sub[i] in rows;
      var j :| 0 <= j < |rows| && rows[j] == sub[i];
      assert Column(rows, col)[j] == k;
    }
  }

  // ---------------------------------------------------------------------------
  // Sums

  /** SUM(val) over the rows whose key equals k, and 0 when there are none. */
  function SumWhere<T, K(==,!new)>(rows: seq<T>, key: T -> K, k: K, val: T -> int): int
    decreases |rows|
  {
    if rows == [] then 0
    else SumWhere(rows[..|rows| - 1], key, k, val)
         + (if key(rows[|rows| - 1]) == k then val(rows[|rows| - 1]) else 0)
  }

  /** COUNT(*) over the rows whose key equals k. */
  function CountWhere<T, K(==,!new)>(rows: seq<T>, key: T -> K, k: K): int {
    SumWhere(rows, key, k, One)
  }

  /** The sum of val over all rows. */
  function SumAll<T>(rows: seq<T>, val: T -> int): int {
    if rows == [] then 0 else val(rows[0]) + SumAll(rows[1..], val)
  }

  lemma {:induction false} SumAllAppend<T>(a: seq<T>, b: seq<T>, val: T -> int)
    ensures SumAll(a + b, val) == SumAll(a, val) + SumAll(b, val)
  {
    if a == [] {
      assert a + b == b;
    } else {
      assert (a + b)[1..] == a[1..] + b;
      SumAllAppend(a[1..], b, val);
    }
  }

  lemma {:induction false} SumWhereAppend<T, K(!new)>(a: seq<T>, b: seq<T>, key: T -> K, k: K, val: T -> int)
    ensures SumWhere(a + b, key, k, val) == SumWhere(a, key, k, val) + SumWhere(b, key, k, val)
    decreases |b|
  {
    if b == [] {
      assert a + b == a;
    } else {
      var b' := b[..|b| - 1];
      assert (a + b)[..|a + b| - 1] == a + b';
      SumWhereAppend(a, b', key, k, val);
    }
  }

  /** A key that occurs in no row aggregates to 0. */
  lemma {:induction false} SumWhereAbsent<T, K(!new)>(rows: seq<T>, key: T -> K, k: K, val: T -> int)
    requires k !in Column(rows, key)
    ensures SumWhere(rows, key, k, val) == 0
    decreases |rows|
  {
    if rows != [] {
      var front := rows[..|rows| - 1];
      assert key(rows[|rows| - 1]) == Column(rows, key)[|rows| - 1];
      assert Column(front, key) == Column(rows, key)[..|rows| - 1];
      SumWhereAbsent(front, key, k, val);
    }
  }

  /** The aggregate over a single row. */
  lemma SumWhereOne<T, K(!new)>(x: T, key: T -> K, k: K, val: T -> int)
    ensures SumWhere([x], key, k, val) == if key(x) == k then val(x) else 0
  {
    assert [x][..0] == [];
  }

  /** Two tables that agree row by row on the key and the summed value aggregate
      alike, whatever their other columns hold. */
  lemma {:induction false} SumWhereSameColumns<T, K(!new)>(a: seq<T>, b: seq<T>, key: T -> K, k: K, val: T -> int)
    requires |a| == |b|
    requires forall i :: 0 <= i < |a| ==> key(a[i]) == key(b[i]) && val(a[i]) == val(b[i])
    ensures SumWhere(a, key, k, val) == SumWhere(b, key, k, val)
    decreases |a|
  {
    if a != [] {
      SumWhereSameColumns(a[..|a| - 1], b[..|b| - 1], key, k, val);
    }
  }

  /** COUNT(*) over a table equals its number of rows. */
  lemma {:induction false} SumAllOne<T>(rows: seq<T>)
    ensures SumAll(rows, One) == |rows|
  {
    if rows != [] {
      SumAllOne(rows[1..]);
    }
  }

  /** When every row with key k carries the value v, their sum is v times their count. */
  lemma {:induction false} SumWhereUniform<K(!new)>(g: seq<Row<K>>, k: K, v: int)
    requires forall r :: r in g && r.key == k ==> r.value == v
    ensures SumWhere(g, RowKey, k, RowValue) == v * CountWhere(g, RowKey, k)
    decreases |g|
  {
    if g != [] {
      var front := g[..|g| - 1];
      assert forall r :: r in front ==> r in g;
      SumWhereUniform(front, k, v);
      assert SumWhere(g, RowKey, k, One) == SumWhere(front, RowKey, k, One) + (if g[|g| - 1].key == k then 1 else 0);
    }
  }

  // ---------------------------------------------------------------------------
  // GROUP BY

  /** The distinct values of the key column, in order of first appearance. */
  function DistinctKeys<T, K(==,!new)>(rows: seq<T>, key: T -> K): (ks: seq<K>)
    ensures Distinct(ks)
    ensures forall k :: k in ks <==> k in Column(rows, key)
    decreases |rows|
  {
    if rows == [] then []
    else
      var front := rows[..|rows| - 1];
      var k := key(rows[|rows| - 1]);
      var ks' := DistinctKeys(front, key);
      assert Column(rows, key) == Column(front, key) + [k];
      if k in ks' then ks' else ks' + [k]
  }

  /** One row per key of ks, aggregating val over the rows with that key. */
  function Groups<T, K(==,!new)>(ks: seq<K>, rows: seq<T>, key: T -> K, val: T -> int): seq<Row<K>> {
    seq(|ks|, i requires 0 <= i < |ks| => Row(ks[i], SumWhere(rows, key, ks[i], val)))
  }

  /** What a GROUP BY key with aggregate SUM(val) returns, in any order: one row for
      each key that occurs in the table (NULL being one key like any other), none
      for any other key, and each row's value is the aggregate over its group. */
  ghost predicate IsGrouping<T, K(!new)>(g: seq<Row<K>>, rows: seq<T>, key: T -> K, val: T -> int) {
    && (forall r :: r in g ==> r.key in Column(rows, key) && r.value == SumWhere(rows, key, r.key, val))
    && (forall k :: CountWhere(g, RowKey, k) == if k in Column(rows, key) then 1 else 0)
  }

  /** SELECT key, SUM(val) ... GROUP BY key. */
  function GroupBy<T, K(==,!new)>(rows: seq<T>, key: T -> K, val: T -> int): (g: seq<Row<K>>)
    ensures IsGrouping(g, rows, key, val)
  {
    var ks := DistinctKeys(rows, key);
    var g := Groups(ks, rows, key, val);
    assert Column(g, RowKey) == ks;
    forall k ensures CountWhere(g, RowKey, k) == if k in Column(rows, key) then 1 else 0 {
      CountKeyed(g, RowKey, k);
    }
    g
  }

  lemma {:induction false} GroupsTotalStep<T, K(!new)>(ks: seq<K>, rows: seq<T>, x: T, key: T -> K, val: T -> int)
    requires Distinct(ks)
    ensures SumAll(Groups(ks, rows + [x], key, val), RowValue)
         == SumAll(Groups(ks, rows, key, val), RowValue) + (if key(x) in ks then val(x) else 0)
    decreases |ks|
  {
    if ks != [] {
      var front := ks[..|ks| - 1];
      var last := ks[|ks| - 1];
      var g := Groups(ks, rows, key, val);
      var g' := Groups(ks, rows + [x], key, val);
      assert g == Groups(front, rows, key, val) + [g[|g| - 1]];
      assert g' == Groups(front, rows + [x], key, val) + [g'[|g'| - 1]];
      SumAllAppend(Groups(front, rows, key, val), [g[|g| - 1]], RowValue);
      SumAllAppend(Groups(front, rows + [x], key, val), [g'[|g'| - 1]], RowValue);
      assert (rows + [x])[..|rows + [x]| - 1] == rows;
      assert last !in front;
      GroupsTotalStep(front, rows, x, key, val);
    }
  }

  lemma {:induction false} GroupsAppendKey<T, K(!new)>(ks: seq<K>, k: K, rows: seq<T>, key: T -> K, val: T -> int)
    ensures SumAll(Groups(ks + [k], rows, key, val), RowValue)
         == SumAll(Groups(ks, rows, key, val), RowValue) + SumWhere(rows, key, k, val)
  {
    assert Groups(ks + [k], rows, key, val) == Groups(ks, rows, key, val) + [Row(k, SumWhere(rows, key, k, val))];
    SumAllAppend(Groups(ks, rows, key, val), [Row(k, SumWhere(rows, key, k, val))], RowValue);
  }

  lemma {:induction false} GroupsEmptyTable<T, K(!new)>(ks: seq<K>, key: T -> K, val: T -> int)
    ensures SumAll(Groups(ks, [], key, val), RowValue) == 0
    decreases |ks|
  {
    if ks != [] {
      GroupsAppendKey(ks[..|ks| - 1], ks[|ks| - 1], [], key, val);
      assert ks[..|ks| - 1] + [ks[|ks| - 1]] == ks;
      GroupsEmptyTable(ks[..|ks| - 1], key, val);
    }
  }

  /** Grouping neither loses nor double counts: the aggregates of all groups add up
      to the aggregate over the whole table. */
  lemma {:induction false} GroupByTotal<T, K(!new)>(rows: seq<T>, key: T -> K, val: T -> int)
    ensures SumAll(GroupBy(rows, key, val), RowValue) == SumAll(rows, val)
    decreases |rows|
  {
    if rows == [] {
      GroupsEmptyTable(DistinctKeys(rows, key), key, val);
    } else {
      var front := rows[..|rows| - 1];
      var x := rows[|rows| - 1];
      assert rows == front + [x];
      var ks' := DistinctKeys(front, key);
      GroupByTotal(front, key, val);
      SumAllAppend(front, [x], val);
      GroupsTotalStep(ks', front, x, key, val);
      if key(x) !in ks' {
        GroupsAppendKey(ks', key(x), rows, key, val);
        SumWhereAbsent(front, key, key(x), val);
        GroupsTotalStep(ks', front, x, key, val);
      }
    }
  }

  /** Over the rows of a grouping, summing the aggregates of one key gives that key's
      aggregate over the original table (0 for a key the table lacks). */
  lemma GroupingRegroup<T, K(!new)>(g: seq<Row<K>>, rows: seq<T>, key: T -> K, val: T -> int, k: K)
    requires IsGrouping(g, rows, key, val)
    ensures SumWhere(g, RowKey, k, RowValue) == SumWhere(rows, key, k, val)
  {
    SumWhereUniform(g, k, SumWhere(rows, key, k, val));
    if k !in Column(rows, key) {
      SumWhereAbsent(rows, key, k, val);
    }
  }

  lemma {:induction false} CountNonNegative<T, K(!new)>(rows: seq<T>, key: T -> K, k: K)
    ensures CountWhere(rows, key, k) >= 0
    decreases |rows|
  {
    if rows != [] {
      CountNonNegative(rows[..|rows| - 1], key, k);
    }
  }

  /** A key that occurs in the table is counted at least once. */
  lemma {:induction false} CountPositive<T, K(!new)>(rows: seq<T>, key: T -> K, k: K)
    requires k in Column(rows, key)
    ensures CountWhere(rows, key, k) >= 1
    decreases |rows|
  {
    var front := rows[..|rows| - 1];
    CountNonNegative(front, key, k);
    if key(rows[|rows| - 1]) != k {
      var i :| 0 <= i < |rows| && Column(rows, key)[i] == k;
      assert i < |rows| - 1 && Column(front, key)[i] == k;
      CountPositive(front, key, k);
    }
  }

  /** A table whose key column has no duplicates counts each of its keys once. */
  lemma {:induction false} CountKeyed<T, K(!new)>(g: seq<T>, key: T -> K, k: K)
    requires Distinct(Column(g, key))
    ensures CountWhere(g, key, k) == if k in Column(g, key) then 1 else 0
    decreases |g|
  {
    if g != [] {
      var front := g[..|g| - 1];
      var ks := Column(g, key);
      assert Column(front, key) == ks[..|ks| - 1];
      assert ks[|ks| - 1] !in ks[..|ks| - 1];
      assert ks == ks[..|ks| - 1] + [ks[|ks| - 1]];
      assert k in ks <==> k in ks[..|ks| - 1] || k == ks[|ks| - 1];
      CountKeyed(front, key, k);
    }
  }

  /** The distinct ids of the rows with key k; COUNT(DISTINCT id) is its size. */
  function IdsWhere<T(==), K(==)>(rows: seq<T>, id: T -> int, key: T -> K, k: K): set<int> {
    set x | x in rows && key(x) == k :: id(x)
  }

  /** With unique ids, the number of distinct ids among the rows with key k is the
      number of those rows. */
  lemma {:induction false} DistinctIdCount<T, K(!new)>(rows: seq<T>, id: T -> int, key: T -> K, k: K)
    requires Distinct(Column(rows, id))
    ensures |IdsWhere(rows, id, key, k)| == CountWhere(rows, key, k)
    decreases |rows|
  {
    if rows != [] {
      var front := rows[..|rows| - 1];
      var last := rows[|rows| - 1];
      assert Column(front, id) == Column(rows, id)[..|rows| - 1];
      DistinctIdCount(front, id, key, k);
      var a := set x | x in front && key(x) == k :: id(x);
      var b := set x | x in rows && key(x) == k :: id(x);
      assert rows == front + [last];
      forall x | x in front ensures id(x) != id(last) {
        var i :| 0 <= i < |front| && front[i] == x;
        assert Column(rows, id)[i] == id(x);
        assert Column(rows, id)[|rows| - 1] == id(last);
      }
      if key(last) == k {
        assert b == a + {id(last)};
      } else {
        assert b == a;
      }
    }
  }

  /** A key counted in a table occurs in its key column. */
  lemma CountedKeyOccurs<T, K(!new)>(rows: seq<T>, key: T -> K, k: K)
    requires CountWhere(rows, key, k) != 0
    ensures exists i :: 0 <= i < |rows| && key(rows[i]) == k
  {
    if k !in Column(rows, key) {
      SumWhereAbsent(rows, key, k, One);
    }
    var i :| 0 <= i < |rows| && Column(rows, key)[i] == k;
  }

  /** The aggregate a grouped report shows for key k: the value of k's row, or 0
      when the report has no row for k. */
  function ValueFor<K(==,!new)>(g: seq<Row<K>>, k: K): int {
    SumWhere(g, RowKey, k, RowValue)
  }

  /** A grouping has a row for exactly the keys that occur in the table. */
  lemma GroupKeys<T, K(!new)>(g: seq<Row<K>>, rows: seq<T>, key: T -> K, val: T -> int)
    requires IsGrouping(g, rows, key, val)
    ensures forall k :: k in Column(g, RowKey) <==> k in Column(rows, key)
  {
    forall k ensures k in Column(g, RowKey) <==> k in Column(rows, key) {
      if k in Column(g, RowKey) {
        var i :| 0 <= i < |g| && Column(g, RowKey)[i] == k;
        assert RowKey(g[i]) == k;
        assert g[i] in g;
        assert g[i].key in Column(rows, key);
      }
      if k in Column(rows, key) {
        assert CountWhere(g, RowKey, k) == 1;
        CountedKeyOccurs(g, RowKey, k);
        var i :| 0 <= i < |g| && RowKey(g[i]) == k;
        assert Column(g, RowKey)[i] == k;
      }
    }
  }

  // ---------------------------------------------------------------------------
  // ORDER BY score DESC and LIMIT

  /** Descending order; rows with equal scores may come in any order. */
  ghost predicate NonIncreasing<T>(s: seq<T>, score: T -> int) {
    forall i, j :: 0 <= i < j < |s| ==> score(s[i]) >= score(s[j])
  }

  lemma HeadBoundsTail<T>(s: seq<T>, score: T -> int)
    requires s != [] && NonIncreasing(s, score)
    ensures forall y :: y in s[1..] ==> score(y) <= score(s[0])
  {
    forall y | y in s[1..] ensures score(y) <= score(s[0]) {
      var k :| 0 <= k < |s[1..]| && s[1..][k] == y;
      assert s[k + 1] == y;
    }
  }

  lemma ConsNonIncreasing<T>(h: T, rest: seq<T>, score: T -> int)
    requires NonIncreasing(rest, score)
    requires forall y :: y in rest ==> score(y) <= score(h)
    ensures NonIncreasing([h] + rest, score)
  {
    var r := [h] + rest;
    forall i, j | 0 <= i < j < |r| ensures score(r[i]) >= score(r[j]) {
      assert r[j] == rest[j - 1];
      if i == 0 {
        assert rest[j - 1] in rest;
      } else {
        assert r[i] == rest[i - 1];
      }
    }
  }

  /** Puts x before the first element whose score does not exceed its own. */
  function InsertDesc<T>(x: T, s: seq<T>, score: T -> int): seq<T> {
    if s == [] || score(s[0]) <= score(x) then [x] + s
    else [s[0]] + InsertDesc(x, s[1..], score)
  }

  lemma {:induction false} InsertDescFacts<T>(x: T, s: seq<T>, score: T -> int)
    requires NonIncreasing(s, score)
    ensures NonIncreasing(InsertDesc(x, s, score), score)
    ensures multiset(InsertDesc(x, s, score)) == multiset(s) + multiset{x}
  {
    if s == [] || score(s[0]) <= score(x) {
      if s != [] {
        HeadBoundsTail(s, score);
        assert s == [s[0]] + s[1..];
      }
      ConsNonIncreasing(x, s, score);
    } else {
      assert s == [s[0]] + s[1..];
      assert NonIncreasing(s[1..], score) by {
        forall i, j | 0 <= i < j < |s[1..]| ensures score(s[1..][i]) >= score(s[1..][j]) {
          assert s[1..][i] == s[i + 1] && s[1..][j] == s[j + 1];
        }
      }
      var rest := InsertDesc(x, s[1..], score);
      InsertDescFacts(x, s[1..], score);
      HeadBoundsTail(s, score);
      forall y | y in rest ensures score(y) <= score(s[0]) {
        assert y in multiset(rest);
      }
      ConsNonIncreasing(s[0], rest, score);
    }
  }

  /** ORDER BY score DESC: an ordering of the same rows, with non-increasing scores. */
  function SortDesc<T>(s: seq<T>, score: T -> int): (r: seq<T>)
    ensures NonIncreasing(r, score)
    ensures multiset(r) == multiset(s)
  {
    if s == [] then []
    else
      assert s == [s[0]] + s[1..];
      InsertDescFacts(s[0], SortDesc(s[1..], score), score);
      InsertDesc(s[0], SortDesc(s[1..], score), score)
  }

  lemma {:induction false} InsertDescSumAll<T>(x: T, s: seq<T>, score: T -> int, val: T -> int)
    ensures SumAll(InsertDesc(x, s, score), val) == val(x) + SumAll(s, val)
  {
    if s != [] && score(s[0]) > score(x) {
      InsertDescSumAll(x, s[1..], score, val);
    }
  }

  lemma {:induction false} InsertDescSumWhere<T, K(!new)>(x: T, s: seq<T>, score: T -> int, key: T -> K, k: K, val: T -> int)
    ensures SumWhere(InsertDesc(x, s, score), key, k, val) == SumWhere([x], key, k, val) + SumWhere(s, key, k, val)
  {
    if s == [] || score(s[0]) <= score(x) {
      SumWhereAppend([x], s, key, k, val);
    } else {
      var rest := InsertDesc(x, s[1..], score);
      InsertDescSumWhere(x, s[1..], score, key, k, val);
      SumWhereAppend([s[0]], rest, key, k, val);
      assert s == [s[0]] + s[1..];
      SumWhereAppend([s[0]], s[1..], key, k, val);
    }
  }

  /** Sorting keeps the sum of the rows. */
  lemma {:induction false} SortDescSumAll<T>(s: seq<T>, score: T -> int, val: T -> int)
    ensures SumAll(SortDesc(s, score), val) == SumAll(s, val)
  {
    if s != [] {
      SortDescSumAll(s[1..], score, val);
      InsertDescSumAll(s[0], SortDesc(s[1..], score), score, val);
    }
  }

  /** Sorting keeps the per-key sums of the rows. */
  lemma {:induction false} SortDescSumWhere<T, K(!new)>(s: seq<T>, score: T -> int, key: T -> K, k: K, val: T -> int)
    ensures SumWhere(SortDesc(s, score), key, k, val) == SumWhere(s, key, k, val)
  {
    if s != [] {
      SortDescSumWhere(s[1..], score, key, k, val);
      InsertDescSumWhere(s[0], SortDesc(s[1..], score), score, key, k, val);
      assert s == [s[0]] + s[1..];
      SumWhereAppend([s[0]], s[1..], key, k, val);
    }
  }

  /** SELECT key, SUM(val) ... GROUP BY key ORDER BY 2 DESC. */
  function GroupByDesc<T, K(==,!new)>(rows: seq<T>, key: T -> K, val: T -> int): (g: seq<Row<K>>)
    ensures IsGrouping(g, rows, key, val)
    ensures NonIncreasing(g, RowValue)
  {
    var g0 := GroupBy(rows, key, val);
    var g := SortDesc(g0, RowValue);
    assert forall r :: r in g ==> r in g0 by {
      forall r | r in g ensures r in g0 {
        assert r in multiset(g);
      }
    }
    assert forall k :: CountWhere(g, RowKey, k) == CountWhere(g0, RowKey, k) by {
      forall k ensures CountWhere(g, RowKey, k) == CountWhere(g0, RowKey, k) {
        SortDescSumWhere(g0, RowValue, RowKey, k, One);
      }
    }
    g
  }

  lemma GroupByDescTotal<T, K(!new)>(rows: seq<T>, key: T -> K, val: T -> int)
    ensures SumAll(GroupByDesc(rows, key, val), RowValue) == SumAll(rows, val)
  {
    SortDescSumAll(GroupBy(rows, key, val), RowValue, RowValue);
    GroupByTotal(rows, key, val);
  }

  /** LIMIT n. */
  function Limit<T>(s: seq<T>, n: nat): seq<T> {
    if |s| <= n then s else s[..n]
  }

  /** What ... ORDER BY aggregate DESC LIMIT 1 returns: at most one group, present
      exactly when the table has rows, a real group of the table whose aggregate is
      at least that of every group. */
  ghost predicate IsTopGroup<T, K(!new)>(top: seq<Row<K>>, rows: seq<T>, key: T -> K, val: T -> int) {
    && |top| <= 1
    && (|top| == 1 <==> |rows| > 0)
    && (forall r :: r in top ==> r.key in Column(rows, key) && r.value == SumWhere(rows, key, r.key, val))
    && (forall r, k :: r in top && k in Column(rows, key) ==> r.value >= SumWhere(rows, key, k, val))
  }

  lemma TopGroup<T, K(!new)>(rows: seq<T>, key: T -> K, val: T -> int)
    ensures IsTopGroup(Limit(GroupByDesc(rows, key, val), 1), rows, key, val)
  {
    var g := GroupByDesc(rows, key, val);
    if |rows| > 0 {
      assert Column(rows, key)[0] in Column(rows, key);
      assert CountWhere(g, RowKey, Column(rows, key)[0]) == 1;
    } else {
      assert g == [];
    }
    forall k | k in Column(rows, key) && g != []
      ensures g[0].value >= SumWhere(rows, key, k, val)
    {
      CountedKeyOccurs(g, RowKey, k);
      var i :| 0 <= i < |g| && RowKey(g[i]) == k;
      assert g[i] in g;
    }
  }

  /** SELECT key, COUNT(*) AS n ... GROUP BY key ORDER BY n DESC: one row per key
      with its number of rows, every count at least 1, the counts adding up to
      the number of rows, largest first. */
  function CountByDesc<T, K(==,!new)>(rows: seq<T>, key: T -> K): (g: seq<Row<K>>)
    ensures IsGrouping(g, rows, key, One)
    ensures NonIncreasing(g, RowValue)
    ensures forall r :: r in g ==> r.value >= 1
    ensures SumAll(g, RowValue) == |rows|
  {
    var g := GroupByDesc(rows, key, One);
    GroupByDescTotal(rows, key, One);
    SumAllOne(rows);
    forall r | r in g ensures r.value >= 1 {
      CountPositive(rows, key, r.key);
    }
    g
  }

  // ---------------------------------------------------------------------------
  // SUM over a nullable column, and COALESCE

  /** SQL SUM: NULLs are skipped, and the result is NULL when no value is non-NULL. */
  function SqlSum(xs: seq<Option<int>>): Option<int> {
    if xs == [] then None
    else
      var rest := SqlSum(xs[1..]);
      match xs[0]
      case None => rest
      case Some(v) => Some(v + rest.GetOr(0))
  }

  function Coalesce<T>(x: Option<T>, default: T): T {
    x.GetOr(default)
  }

  /** SUM is NULL exactly when every value is NULL (in particular over no rows), and
      COALESCE(SUM(x), 0) is the sum with NULLs read as 0. */
  lemma {:induction false} SqlSumFacts(xs: seq<Option<int>>)
    ensures SqlSum(xs).None? <==> forall i :: 0 <= i < |xs| ==> xs[i].None?
    ensures Coalesce(SqlSum(xs), 0) == SumAll(xs, OrZero)
  {
    if xs != [] {
      SqlSumFacts(xs[1..]);
      assert forall i :: 1 <= i < |xs| ==> xs[i] == xs[1..][i - 1];
    }
  }

  // ---------------------------------------------------------------------------
  // UPDATE ... WHERE and DELETE ... WHERE

  /** UPDATE table SET ... WHERE hit: every row that hit selects is rewritten,
      every other row stays as it is, and no row is added or lost. */
  function UpdateWhere<T>(rows: seq<T>, hit: T -> bool, rewrite: T -> T): (r: seq<T>)
    ensures |r| == |rows|
    ensures forall i :: 0 <= i < |rows| ==> r[i] == if hit(rows[i]) then rewrite(rows[i]) else rows[i]
  {
    if rows == [] then []
    else [if hit(rows[0]) then rewrite(rows[0]) else rows[0]] + UpdateWhere(rows[1..], hit, rewrite)
  }

  /** WHERE keep: the rows keep accepts, in their order, each as often as before. */
  function Where<T(!new)>(rows: seq<T>, keep: T -> bool): (r: seq<T>)
    ensures forall x :: multiset(r)[x] == if keep(x) then multiset(rows)[x] else 0
  {
    if rows == [] then []
    else
      assert rows == [rows[0]] + rows[1..];
      (if keep(rows[0]) then [rows[0]] else []) + Where(rows[1..], keep)
  }

  function Not<T>(p: T -> bool): T -> bool {
    x => !p(x)
  }

  /** DELETE FROM table WHERE hit: every row that hit selects is gone and every other
      row keeps its multiplicity. */
  function DeleteWhere<T(!new)>(rows: seq<T>, hit: T -> bool): (r: seq<T>)
    ensures forall x :: multiset(r)[x] == if hit(x) then 0 else multiset(rows)[x]
  {
    Where(rows, Not(hit))
  }

  /** A row is in the filter exactly when it is in the input and accepted. */
  lemma WhereMembers<T(!new)>(rows: seq<T>, keep: T -> bool)
    ensures forall x :: x in Where(rows, keep) <==> x in rows && keep(x)
  {
    forall x ensures x in Where(rows, keep) <==> x in rows && keep(x) {
      assert x in Where(rows, keep) <==> x in multiset(Where(rows, keep));
      assert x in rows <==> x in multiset(rows);
    }
  }

  /** When every row is accepted, filtering changes nothing. */
  lemma {:induction false} WhereAll<T(!new)>(rows: seq<T>, keep: T -> bool)
    requires forall i :: 0 <= i < |rows| ==> keep(rows[i])
    ensures Where(rows, keep) == rows
  {
    if rows != [] {
      assert forall i :: 0 <= i < |rows[1..]| ==> rows[1..][i] == rows[i + 1];
      WhereAll(rows[1..], keep);
      assert rows == [rows[0]] + rows[1..];
    }
  }

  /** Filtering keeps a key column free of duplicates. */
  lemma {:induction false} WhereKeepsDistinct<T(!new), K(!new)>(rows: seq<T>, keep: T -> bool, key: T -> K)
    requires Distinct(Column(rows, key))
    ensures Distinct(Column(Where(rows, keep), key))
  {
    if rows != [] {
      var rest := rows[1..];
      var r := Where(rows, keep);
      var kept := Where(rest, keep);
      ColumnCons(rows, key);
      DistinctTail(Column(rows, key));
      assert Column(rows, key)[1..] == Column(rest, key);
      WhereKeepsDistinct(rest, keep, key);
      if keep(rows[0]) {
        assert r == [rows[0]] + kept;
        WhereMembers(rest, keep);
        ColumnSubset(kept, rest, key);
        ColumnCons(r, key);
        assert r[1..] == kept;
        DistinctCons(key(rows[0]), Column(kept, key));
      } else {
        assert r == kept;
      }
    }
  }

  /** Filtering distributes over concatenation. */
  lemma {:induction false} WhereAppend<T(!new)>(a: seq<T>, b: seq<T>, keep: T -> bool)
    ensures Where(a + b, keep) == Where(a, keep) + Where(b, keep)
  {
    if a == [] {
      assert a + b == b;
    } else {
      assert (a + b)[0] == a[0];
      assert (a + b)[1..] == a[1..] + b;
      WhereAppend(a[1..], b, keep);
    }
  }

  /** When no row is accepted, the filter is empty. */
  lemma {:induction false} WhereNone<T(!new)>(rows: seq<T>, keep: T -> bool)
    requires forall x :: x in rows ==> !keep(x)
    ensures Where(rows, keep) == []
  {
    if rows != [] {
      assert rows[0] in rows;
      assert forall x :: x in rows[1..] ==> x in rows;
      WhereNone(rows[1..], keep);
    }
  }
}
