/** Grouping of a table's rows by a key column, as `DataFrame.groupby(key)`
    and `Series.unique()` do. A table is a set of equally long columns; the
    key column holds one group name per row. */
module Grouping {

  /** Number of rows whose key is `d`. */
  function Count(keys: seq<string>, d: string): (n: nat)
    ensures n <= |keys|
    ensures n > 0 <==> d in keys
  {
    if keys == [] then 0 else (if keys[0] == d then 1 else 0) + Count(keys[1..], d)
  }

  /** The row numbers of group `d` in a table whose first row is numbered
      `base`, in increasing order; each is a row whose key is `d`. */
  function RowsFrom(keys: seq<string>, d: string, base: nat): (r: seq<nat>)
    ensures |r| == Count(keys, d)
    ensures forall j :: 0 <= j < |r| ==> base <= r[j] < base + |keys| && keys[r[j] - base] == d
  {
    if keys == [] then []
    else if keys[0] == d then [base] + RowsFrom(keys[1..], d, base + 1)
    else RowsFrom(keys[1..], d, base + 1)
  }

  /** The row numbers of a group increase. */
  lemma {:induction false} RowsFromIncreasing(keys: seq<string>, d: string, base: nat)
    ensures forall j, k :: 0 <= j < k < |RowsFrom(keys, d, base)| ==> RowsFrom(keys, d, base)[j] < RowsFrom(keys, d, base)[k]
  {
    if keys != [] {
      RowsFromIncreasing(keys[1..], d, base + 1);
    }
  }

  /** Every row whose key is `d` is one of the group's row numbers. */
  lemma {:induction false} RowsFromComplete(keys: seq<string>, d: string, base: nat, i: nat)
    requires i < |keys| && keys[i] == d
    ensures base + i in RowsFrom(keys, d, base)
  {
    if i > 0 {
      RowsFromComplete(keys[1..], d, base + 1, i - 1);
    }
  }

  /** The rows of group `d`, in increasing order: `group_df.index` for a
      table numbered from 0. With RowsComplete, exactly the rows whose key is `d`. */
  function Rows(keys: seq<string>, d: string): (r: seq<nat>)
    ensures |r| == Count(keys, d)
    ensures forall j :: 0 <= j < |r| ==> r[j] < |keys| && keys[r[j]] == d
    ensures forall j, k :: 0 <= j < k < |r| ==> r[j] < r[k]
  {
    RowsFromIncreasing(keys, d, 0);
    RowsFrom(keys, d, 0)
  }

  /** Every row whose key is `d` is one of the group's rows. */
  lemma RowsComplete(keys: seq<string>, d: string, i: nat)
    requires i < |keys| && keys[i] == d
    ensures i in Rows(keys, d)
  {
    RowsFromComplete(keys, d, 0, i);
  }

  /** The entries of column `col` on the rows of group `d`, in row order:
      `group_df[col]` inside `for d, group_df in df.groupby(key)`. Entry j
      is the column's entry on the group's j-th row, so entries of two
      columns at the same position come from the same row. */
  function GroupColumn<T>(keys: seq<string>, col: seq<T>, d: string): (g: seq<T>)
    requires |keys| == |col|
    ensures |g| == Count(keys, d)
    ensures forall j :: 0 <= j < |g| ==> g[j] == col[Rows(keys, d)[j]]
    ensures forall x :: x in g ==> x in col
  {
    var r := Rows(keys, d);
    seq(|r|, j requires 0 <= j < |r| => col[r[j]])
  }

  predicate NoDuplicates(s: seq<string>)
  {
    forall i, j :: 0 <= i < j < |s| ==> s[i] != s[j]
  }

  /** The row where key `x` first occurs. */
  function First(keys: seq<string>, x: string): (i: nat)
    requires x in keys
    ensures i < |keys| && keys[i] == x
    ensures forall j :: 0 <= j < i ==> keys[j] != x
  {
    if keys[0] == x then 0 else 1 + First(keys[1..], x)
  }

  /** Appending rows does not move a key's first occurrence. */
  lemma {:induction false} FirstAppend(a: seq<string>, b: seq<string>, x: string)
    requires x in a
    ensures First(a + b, x) == First(a, x)
  {
    assert (a + b)[First(a, x)] == x;
  }

  /** The keys of `u` occur in `keys`, and in order of their first occurrence there. */
  predicate InFirstOrder(keys: seq<string>, u: seq<string>)
  {
    forall i, j :: 0 <= i < j < |u| ==> u[i] in keys && u[j] in keys && First(keys, u[i]) < First(keys, u[j])
  }

  /** The distinct keys in order of first appearance: `Series.unique()`,
      and the set of groups `groupby` visits. */
  function Distinct(keys: seq<string>): (u: seq<string>)
    ensures NoDuplicates(u)
    ensures forall d :: d in u <==> d in keys
    ensures |u| <= |keys|
    ensures InFirstOrder(keys, u)
  {
    if keys == [] then []
    else
      var front, last := keys[..|keys| - 1], keys[|keys| - 1];
      var prefix := Distinct(front);
      assert keys == front + [last];
      DistinctStep(front, last, prefix);
      DistinctStepOrder(front, last, prefix);
      if last in prefix then prefix else prefix + [last]
  }

  /** Adding a row keeps the distinct keys distinct and complete. */
  lemma DistinctStep(front: seq<string>, last: string, prefix: seq<string>)
    requires NoDuplicates(prefix) && |prefix| <= |front|
    requires forall d :: d in prefix <==> d in front
    ensures var u := if last in prefix then prefix else prefix + [last];
      NoDuplicates(u) && (forall d :: d in u <==> d in front + [last]) && |u| <= |front| + 1
  {
  }

  /** Adding a row keeps the distinct keys in order of first appearance. */
  lemma DistinctStepOrder(front: seq<string>, last: string, prefix: seq<string>)
    requires forall d :: d in prefix <==> d in front
    requires InFirstOrder(front, prefix)
    ensures InFirstOrder(front + [last], if last in prefix then prefix else prefix + [last])
  {
    var keys := front + [last];
    forall x | x in prefix ensures x in keys && First(keys, x) == First(front, x) < |front| {
      FirstAppend(front, [last], x);
    }
    if last !in prefix {
      var u := prefix + [last];
      assert last in keys && First(keys, last) == |front|;
      forall i, j | 0 <= i < j < |u| ensures u[i] in keys && u[j] in keys && First(keys, u[i]) < First(keys, u[j]) {
        assert u[i] == prefix[i] && prefix[i] in prefix;
        if j < |prefix| {
          assert u[j] == prefix[j] && prefix[j] in prefix;
        }
      }
    }
  }

  /** A group depends only on its own rows: changing a row of another group
      leaves it as it was. */
  lemma GroupColumnIgnoresOtherRows<T>(keys: seq<string>, col: seq<T>, d: string, k: nat, x: T)
    requires |keys| == |col| && k < |keys| && keys[k] != d
    ensures GroupColumn(keys, col[k := x], d) == GroupColumn(keys, col, d)
  {
    var g, g' := GroupColumn(keys, col, d), GroupColumn(keys, col[k := x], d);
    forall j | 0 <= j < |g| ensures g'[j] == g[j] {
      assert Rows(keys, d)[j] != k;
    }
  }

  /** Every entry of a group comes from a row of that group. */
  lemma GroupColumnAll<T>(keys: seq<string>, col: seq<T>, d: string, P: T -> bool)
    requires |keys| == |col|
    requires forall i :: 0 <= i < |keys| && keys[i] == d ==> P(col[i])
    ensures forall x :: x in GroupColumn(keys, col, d) ==> P(x)
  {
    var g := GroupColumn(keys, col, d);
    forall x | x in g ensures P(x) {
      var j :| 0 <= j < |g| && g[j] == x;
      assert keys[Rows(keys, d)[j]] == d;
    }
  }
}
