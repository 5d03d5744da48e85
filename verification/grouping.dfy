/** pandas `groupby(key)[column].sum()` over integer keys, and `idxmax`.
    The groups come out in ascending key order, one per distinct key. */
module Grouping {
  import opened Collections

  predicate StrictlyIncreasing(ks: seq<int>)
  {
    forall i, j :: 0 <= i < j < |ks| ==> ks[i] < ks[j]
  }

  /** Adds `k` to an ascending key list, keeping it ascending and duplicate-free. */
  function InsertKey(k: int, ks: seq<int>): (r: seq<int>)
    requires StrictlyIncreasing(ks)
    ensures StrictlyIncreasing(r)
    ensures forall x :: x in r <==> x == k || x in ks
  {
    if ks == [] then [k]
    else if k < ks[0] then [k] + ks
    else if k == ks[0] then ks
    else
      var rest := InsertKey(k, ks[1..]);
      assert forall x :: x in ks[1..] ==> x > ks[0] by {
        forall x | x in ks[1..] ensures x > ks[0] {
          var j :| 0 <= j < |ks[1..]| && ks[1..][j] == x;
          assert ks[j + 1] == x;
        }
      }
      assert forall x :: x in rest ==> x > ks[0];
      var r := [ks[0]] + rest;
      assert StrictlyIncreasing(r) by {
        forall i, j | 0 <= i < j < |r| ensures r[i] < r[j] {
          assert r[j] == rest[j - 1] && r[j] in rest;
          if i > 0 {
            assert r[i] == rest[i - 1];
          }
        }
      }
      r
  }

  /** The distinct keys of the rows, ascending. */
  function Keys<T>(rows: seq<T>, key: T -> int): (ks: seq<int>)
    ensures StrictlyIncreasing(ks)
    ensures forall k :: k in ks <==> exists i :: 0 <= i < |rows| && key(rows[i]) == k
  {
    if rows == [] then []
    else
      var rest := Keys(rows[1..], key);
      assert forall i :: 0 <= i < |rows[1..]| ==> rows[1..][i] == rows[i + 1];
      assert rows == [rows[0]] + rows[1..];
      InsertKey(key(rows[0]), rest)
  }

  /** Sum of `val` over the rows whose key is `k`. */
  function SumWhere<T>(rows: seq<T>, key: T -> int, k: int, val: T -> real): real
  {
    if rows == [] then 0.0
    else (if key(rows[0]) == k then val(rows[0]) else 0.0) + SumWhere(rows[1..], key, k, val)
  }

  /** A key no row carries has an empty sum (pandas `fillna(0)` after a
      lookup that finds no group). */
  lemma {:induction false} SumWhereAbsent<T>(rows: seq<T>, key: T -> int, k: int, val: T -> real)
    requires forall i :: 0 <= i < |rows| ==> key(rows[i]) != k
    ensures SumWhere(rows, key, k, val) == 0.0
  {
    if rows != [] {
      assert forall i :: 0 <= i < |rows[1..]| ==> rows[1..][i] == rows[i + 1];
      SumWhereAbsent(rows[1..], key, k, val);
    }
  }

  /** Number of rows whose key is `k` (the size of that group). */
  function CountWhere<T>(rows: seq<T>, key: T -> int, k: int): nat
  {
    if rows == [] then 0
    else (if key(rows[0]) == k then 1 else 0) + CountWhere(rows[1..], key, k)
  }

  /** A key that occurs in the rows has a non-empty group, and an absent
      key an empty one. */
  lemma {:induction false} CountWherePositive<T>(rows: seq<T>, key: T -> int, k: int)
    ensures CountWhere(rows, key, k) > 0 <==> exists i :: 0 <= i < |rows| && key(rows[i]) == k
    ensures CountWhere(rows, key, k) <= |rows|
  {
    if rows != [] {
      CountWherePositive(rows[1..], key, k);
      if exists i :: 0 <= i < |rows[1..]| && key(rows[1..][i]) == k {
        var i :| 0 <= i < |rows[1..]| && key(rows[1..][i]) == k;
        assert rows[i + 1] == rows[1..][i];
      }
      if exists i :: 0 <= i < |rows| && key(rows[i]) == k {
        var i :| 0 <= i < |rows| && key(rows[i]) == k;
        if i > 0 {
          assert rows[1..][i - 1] == rows[i];
        }
      }
    }
  }

  function One<T>(x: T): real { 1.0 }

  /** A group's size is the sum of 1 over the group. */
  lemma {:induction false} CountIsSumOfOnes<T>(rows: seq<T>, key: T -> int, k: int)
    ensures CountWhere(rows, key, k) as real == SumWhere(rows, key, k, One)
  {
    if rows != [] {
      CountIsSumOfOnes(rows[1..], key, k);
    }
  }

  lemma {:induction false} SumOfOnes<T>(rows: seq<T>)
    ensures Sum(rows, One) == |rows| as real
  {
    if rows != [] {
      SumOfOnes(rows[1..]);
    }
  }

  /** The group sums for each key of `ks`, added up. */
  function SumOver<T>(ks: seq<int>, rows: seq<T>, key: T -> int, val: T -> real): real
  {
    if ks == [] then 0.0 else SumWhere(rows, key, ks[0], val) + SumOver(ks[1..], rows, key, val)
  }

  lemma {:induction false} SumOverNoRows<T>(ks: seq<int>, rows: seq<T>, key: T -> int, val: T -> real)
    requires rows == []
    ensures SumOver(ks, rows, key, val) == 0.0
  {
    if ks != [] {
      SumOverNoRows(ks[1..], rows, key, val);
    }
  }

  /** Splitting off the first row splits every group sum. */
  lemma {:induction false} SumOverSplit<T>(ks: seq<int>, rows: seq<T>, key: T -> int, val: T -> real)
    requires rows != []
    ensures SumOver(ks, rows, key, val) == SumOver(ks, rows[..1], key, val) + SumOver(ks, rows[1..], key, val)
  {
    if ks != [] {
      SumOverSplit(ks[1..], rows, key, val);
      assert rows[..1][1..] == [];
      assert SumWhere(rows[..1][1..], key, ks[0], val) == 0.0;
    }
  }

  /** A single row lands in exactly the group of its own key. */
  lemma {:induction false} SumOverSingle<T>(ks: seq<int>, r: T, key: T -> int, val: T -> real)
    requires forall i, j :: 0 <= i < j < |ks| ==> ks[i] != ks[j]
    ensures SumOver(ks, [r], key, val) == if key(r) in ks then val(r) else 0.0
  {
    if ks != [] {
      SumOverSingle(ks[1..], r, key, val);
      assert [r][1..] == [];
      assert SumWhere([r], key, ks[0], val) == if key(r) == ks[0] then val(r) else 0.0 by {
        assert SumWhere([r][1..], key, ks[0], val) == 0.0;
      }
      assert ks == [ks[0]] + ks[1..];
      if ks[0] == key(r) {
        assert key(r) !in ks[1..];
      }
    }
  }

  /** Grouping conserves the total: when every row's key is listed once in
      `ks`, the group sums add up to the sum over all rows. */
  lemma {:induction false} Conservation<T>(ks: seq<int>, rows: seq<T>, key: T -> int, val: T -> real)
    requires forall i, j :: 0 <= i < j < |ks| ==> ks[i] != ks[j]
    requires forall i :: 0 <= i < |rows| ==> key(rows[i]) in ks
    ensures SumOver(ks, rows, key, val) == Sum(rows, val)
  {
    if rows == [] {
      SumOverNoRows(ks, rows, key, val);
    } else {
      SumOverSplit(ks, rows, key, val);
      assert rows[..1] == [rows[0]];
      SumOverSingle(ks, rows[0], key, val);
      forall i | 0 <= i < |rows[1..]| ensures key(rows[1..][i]) in ks {
        assert rows[1..][i] == rows[i + 1];
      }
      Conservation(ks, rows[1..], key, val);
    }
  }

  /** One `(key, sum)` pair per distinct key, ascending by key. */
  function GroupSums<T>(rows: seq<T>, key: T -> int, val: T -> real): (g: seq<(int, real)>)
    ensures |g| == |Keys(rows, key)|
    ensures forall i :: 0 <= i < |g| ==> g[i].0 == Keys(rows, key)[i]
    ensures forall i :: 0 <= i < |g| ==> g[i].1 == SumWhere(rows, key, g[i].0, val)
  {
    var ks := Keys(rows, key);
    seq(|ks|, i requires 0 <= i < |ks| => (ks[i], SumWhere(rows, key, ks[i], val)))
  }

  /** Sum of the second components. */
  function Values(g: seq<(int, real)>): real
  {
    if g == [] then 0.0 else g[0].1 + Values(g[1..])
  }

  lemma {:induction false} ValuesAreSumOver<T>(ks: seq<int>, g: seq<(int, real)>, rows: seq<T>, key: T -> int, val: T -> real)
    requires |g| == |ks|
    requires forall i :: 0 <= i < |g| ==> g[i] == (ks[i], SumWhere(rows, key, ks[i], val))
    ensures Values(g) == SumOver(ks, rows, key, val)
  {
    if g != [] {
      ValuesAreSumOver(ks[1..], g[1..], rows, key, val);
    }
  }

  /** The group sums add up to the column total. */
  lemma GroupSumsTotal<T>(rows: seq<T>, key: T -> int, val: T -> real)
    ensures Values(GroupSums(rows, key, val)) == Sum(rows, val)
  {
    var ks := Keys(rows, key);
    ValuesAreSumOver(ks, GroupSums(rows, key, val), rows, key, val);
    forall i | 0 <= i < |rows| ensures key(rows[i]) in ks {
    }
    Conservation(ks, rows, key, val);
  }

  /** `idxmax`: the position of the first maximal value. */
  function ArgMax(xs: seq<real>): (i: nat)
    requires |xs| > 0
    ensures i < |xs|
    ensures forall j :: 0 <= j < |xs| ==> xs[j] <= xs[i]
    ensures forall j :: 0 <= j < i ==> xs[j] < xs[i]
  {
    if |xs| == 1 then 0
    else
      var t := ArgMax(xs[1..]);
      if xs[0] >= xs[1..][t] then 0 else t + 1
  }
}
