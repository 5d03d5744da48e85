/** Generic sequence operations shared by the dashboard pages and the
    backend post-processing: optional values, IEEE-style numbers that may
    be NaN, order-preserving filtering, sums, a stable descending sort and
    a floored maximum. */
module Collections {

  /** A value that may be missing (a JSON field that is absent or null). */
  datatype Option<+T> = None | Some(value: T)

  /** The outcome of an operation that may raise an error. */
  datatype Result<+T> = Success(value: T) | Failure(error: string)

  /** A floating-point result that is either a number or NaN (0/0 in
      JavaScript, the mean of an empty group in pandas). */
  datatype Float = Num(v: real) | NaN

  /** `r` is obtained from `s` by deleting elements, keeping the order. */
  predicate IsSubsequence<T(==)>(r: seq<T>, s: seq<T>)
    decreases |s|
  {
    if r == [] then true
    else if s == [] then false
    else if r[0] == s[0] then IsSubsequence(r[1..], s[1..])
    else IsSubsequence(r, s[1..])
  }

  /** Array.prototype.filter / a boolean-mask row selection. */
  function Filter<T(==,!new)>(s: seq<T>, p: T -> bool): (r: seq<T>)
    ensures |r| <= |s|
    ensures forall x {:trigger multiset(r)[x]} :: multiset(r)[x] == if p(x) then multiset(s)[x] else 0
    ensures forall x {:trigger x in r} :: x in r <==> x in s && p(x)
    ensures IsSubsequence(r, s)
  {
    if s == [] then []
    else
      assert s == [s[0]] + s[1..];
      var rest := Filter(s[1..], p);
      if p(s[0]) then [s[0]] + rest
      else
        assert rest != [] ==> rest[0] in rest;
        rest
  }

  /** Filtering distributes over concatenation: the kept elements come out
      in the order they came in. */
  lemma {:induction false} FilterAppend<T(!new)>(a: seq<T>, b: seq<T>, p: T -> bool)
    ensures Filter(a + b, p) == Filter(a, p) + Filter(b, p)
  {
    if a == [] {
      assert a + b == b;
    } else {
      assert (a + b)[0] == a[0];
      assert (a + b)[1..] == a[1..] + b;
      FilterAppend(a[1..], b, p);
    }
  }

  /** A predicate that holds of every element keeps the whole sequence. */
  lemma {:induction false} FilterKeepsAll<T(!new)>(s: seq<T>, p: T -> bool)
    requires forall i :: 0 <= i < |s| ==> p(s[i])
    ensures Filter(s, p) == s
  {
    if s != [] {
      FilterKeepsAll(s[1..], p);
    }
  }

  /** Sum of `f` over `s` (Array.prototype.reduce with + from 0). */
  function Sum<T>(s: seq<T>, f: T -> real): real
  {
    if s == [] then 0.0 else f(s[0]) + Sum(s[1..], f)
  }

  lemma {:induction false} SumAppend<T>(a: seq<T>, b: seq<T>, f: T -> real)
    ensures Sum(a + b, f) == Sum(a, f) + Sum(b, f)
  {
    if a == [] {
      assert a + b == b;
    } else {
      assert (a + b)[0] == a[0];
      assert (a + b)[1..] == a[1..] + b;
      SumAppend(a[1..], b, f);
    }
  }

  /** Reordering never changes a sum. */
  lemma {:induction false} SumPermutation<T>(a: seq<T>, b: seq<T>, f: T -> real)
    requires multiset(a) == multiset(b)
    ensures Sum(a, f) == Sum(b, f)
  {
    if a == [] {
      assert |b| == |multiset(b)| == 0;
    } else {
      var x := a[0];
      assert x in multiset(b);
      var i :| 0 <= i < |b| && b[i] == x;
      var rest := b[..i] + b[i+1..];
      assert b == b[..i] + [x] + b[i+1..];
      SumAppend(b[..i] + [x], b[i+1..], f);
      SumAppend(b[..i], [x], f);
      SumAppend(b[..i], b[i+1..], f);
      assert Sum([x], f) == f(x);
      assert a == [x] + a[1..];
      assert multiset(a[1..]) == multiset(rest) by {
        assert multiset(b) == multiset(b[..i]) + multiset{x} + multiset(b[i+1..]);
        assert multiset(rest) == multiset(b[..i]) + multiset(b[i+1..]);
        assert multiset(a) == multiset{x} + multiset(a[1..]);
        assert multiset(a[1..]) == multiset(a) - multiset{x};
        assert multiset(rest) == multiset(b) - multiset{x};
      }
      SumPermutation(a[1..], rest, f);
    }
  }

  /** Every element of a subsequence comes from the original. */
  lemma {:induction false} SubsequenceMembers<T>(r: seq<T>, s: seq<T>, x: T)
    requires IsSubsequence(r, s)
    requires x in r
    ensures x in s
    decreases |s|
  {
    if r[0] == s[0] {
      if x != r[0] {
        SubsequenceMembers(r[1..], s[1..], x);
      }
    } else {
      SubsequenceMembers(r, s[1..], x);
    }
  }

  /** Non-increasing by `key`. */
  predicate SortedDesc<T>(s: seq<T>, key: T -> real)
  {
    forall i, j :: 0 <= i < j < |s| ==> key(s[i]) >= key(s[j])
  }

  /** Deleting elements from a sorted sequence leaves it sorted. */
  lemma {:induction false} SubsequenceSortedDesc<T>(r: seq<T>, s: seq<T>, key: T -> real)
    requires IsSubsequence(r, s)
    requires SortedDesc(s, key)
    ensures SortedDesc(r, key)
    decreases |s|
  {
    if r != [] {
      assert SortedDesc(s[1..], key) by {
        forall i, j | 0 <= i < j < |s[1..]| ensures key(s[1..][i]) >= key(s[1..][j]) {
          assert s[1..][i] == s[i+1] && s[1..][j] == s[j+1];
        }
      }
      if r[0] == s[0] {
        SubsequenceSortedDesc(r[1..], s[1..], key);
        forall i, j | 0 <= i < j < |r| ensures key(r[i]) >= key(r[j]) {
          SubsequenceMembers(r[1..], s[1..], r[j]);
          var k :| 0 <= k < |s[1..]| && s[1..][k] == r[j];
          assert s[k+1] == r[j];
          if i > 0 {
            assert r[i] == r[1..][i-1] && r[j] == r[1..][j-1];
          }
        }
      } else {
        SubsequenceSortedDesc(r, s[1..], key);
      }
    }
  }

  /** Inserts `x` in front of the first element whose key does not exceed
      `x`'s, so that `x` stays ahead of equal keys that came after it. */
  function Insert<T>(x: T, s: seq<T>, key: T -> real): (r: seq<T>)
    ensures |r| == |s| + 1
    ensures multiset(r) == multiset(s) + multiset{x}
  {
    if s == [] || key(s[0]) <= key(x) then [x] + s
    else
      assert s == [s[0]] + s[1..];
      [s[0]] + Insert(x, s[1..], key)
  }

  /** Inserting into a sorted sequence keeps it sorted. */
  lemma {:induction false} InsertSorted<T>(x: T, s: seq<T>, key: T -> real)
    requires SortedDesc(s, key)
    ensures SortedDesc(Insert(x, s, key), key)
  {
    var r := Insert(x, s, key);
    if s == [] || key(s[0]) <= key(x) {
      forall i, j | 0 <= i < j < |r| ensures key(r[i]) >= key(r[j]) {
        if i == 0 {
          assert r[j] == s[j-1];
          assert key(s[0]) >= key(s[j-1]);
        } else {
          assert r[i] == s[i-1] && r[j] == s[j-1];
        }
      }
    } else {
      var tail := Insert(x, s[1..], key);
      InsertSorted(x, s[1..], key);
      assert r == [s[0]] + tail;
      forall k | 0 <= k < |s[1..]| ensures key(s[1..][k]) <= key(s[0]) {
        assert s[1..][k] == s[k + 1];
      }
      KeysBoundedAfterInsert(tail, s[1..], x, key, key(s[0]));
      forall i, j | 0 <= i < j < |r| ensures key(r[i]) >= key(r[j]) {
        if i == 0 {
          assert r[j] == tail[j-1];
        } else {
          assert r[i] == tail[i-1] && r[j] == tail[j-1];
        }
      }
    }
  }

  /** Adding `x` to a sequence whose keys are at most `b` keeps every key at
      most `b` when `x`'s is too, whatever the order. */
  lemma KeysBoundedAfterInsert<T>(t: seq<T>, u: seq<T>, x: T, key: T -> real, b: real)
    requires multiset(t) == multiset(u) + multiset{x}
    requires forall k :: 0 <= k < |u| ==> key(u[k]) <= b
    requires key(x) <= b
    ensures forall k :: 0 <= k < |t| ==> key(t[k]) <= b
  {
    forall k | 0 <= k < |t| ensures key(t[k]) <= b {
      assert t[k] in multiset(u) + multiset{x};
      if t[k] != x {
        assert t[k] in u;
      }
    }
  }

  /** The elements whose key is `c`, in their order in `s`. A sort is
      stable when it leaves every such subsequence as it was. */
  function WithKey<T>(s: seq<T>, key: T -> real, c: real): seq<T>
  {
    if s == [] then []
    else (if key(s[0]) == c then [s[0]] else []) + WithKey(s[1..], key, c)
  }

  /** Insertion puts `x` ahead of every element with the same key, and
      moves nothing else. */
  lemma {:induction false} InsertStable<T>(x: T, t: seq<T>, key: T -> real, c: real)
    ensures WithKey(Insert(x, t, key), key, c) == (if key(x) == c then [x] else []) + WithKey(t, key, c)
  {
    if t == [] || key(t[0]) <= key(x) {
      assert ([x] + t)[1..] == t;
    } else {
      var r := Insert(x, t, key);
      var tail := Insert(x, t[1..], key);
      var head := if key(t[0]) == c then [t[0]] else [];
      assert r[1..] == tail;
      InsertStable(x, t[1..], key, c);
      assert WithKey(r, key, c) == head + WithKey(tail, key, c);
      assert WithKey(t, key, c) == head + WithKey(t[1..], key, c);
      if key(x) == c {
        assert head == [];
      }
    }
  }

  /** Stable insertion sort, highest key first: the model of
      `[...a].sort((x, y) => key(y) - key(x))`. Elements with equal keys
      keep their relative order. */
  function SortDesc<T>(s: seq<T>, key: T -> real): (r: seq<T>)
    ensures |r| == |s|
    ensures multiset(r) == multiset(s)
    ensures SortedDesc(r, key)
    ensures forall c :: WithKey(r, key, c) == WithKey(s, key, c)
  {
    if s == [] then []
    else
      assert s == [s[0]] + s[1..];
      var sortedTail := SortDesc(s[1..], key);
      InsertSorted(s[0], sortedTail, key);
      forall c ensures WithKey(Insert(s[0], sortedTail, key), key, c) == WithKey(s, key, c) {
        InsertStable(s[0], sortedTail, key, c);
      }
      Insert(s[0], sortedTail, key)
  }

  /** Sorting a sequence that is already in order gives it back unchanged. */
  lemma {:induction false} SortDescIdempotent<T>(s: seq<T>, key: T -> real)
    requires SortedDesc(s, key)
    ensures SortDesc(s, key) == s
  {
    if s != [] {
      SortDescIdempotent(s[1..], key);
      assert s == [s[0]] + s[1..];
    }
  }

  /** The first element of a sorted permutation carries the largest key. */
  lemma HeadIsMaximal<T>(s: seq<T>, key: T -> real)
    requires |s| > 0
    ensures SortDesc(s, key)[0] in s
    ensures forall x :: x in s ==> key(x) <= key(SortDesc(s, key)[0])
  {
    var r := SortDesc(s, key);
    assert r[0] in multiset(s);
    forall x | x in s ensures key(x) <= key(r[0]) {
      assert x in multiset(r);
      var j :| 0 <= j < |r| && r[j] == x;
    }
  }

  /** The first element carrying key `c` is the first element of
      `WithKey(s, key, c)`. */
  lemma {:induction false} FirstWithKey<T>(s: seq<T>, key: T -> real, c: real)
    requires WithKey(s, key, c) != []
    ensures exists j :: 0 <= j < |s| && s[j] == WithKey(s, key, c)[0] && key(s[j]) == c &&
              (forall i :: 0 <= i < j ==> key(s[i]) != c)
  {
    if key(s[0]) != c {
      FirstWithKey(s[1..], key, c);
      var j :| 0 <= j < |s[1..]| && s[1..][j] == WithKey(s[1..], key, c)[0] && key(s[1..][j]) == c &&
        (forall i :: 0 <= i < j ==> key(s[1..][i]) != c);
      assert s[j + 1] == s[1..][j];
      forall i | 0 <= i < j + 1 ensures key(s[i]) != c {
        if i > 0 {
          assert s[i] == s[1..][i - 1];
        }
      }
    }
  }

  /** The head of the stable sort is the first element, in the original
      order, whose key is maximal: everything before it has a strictly
      smaller key. */
  lemma HeadIsFirstMaximal<T>(s: seq<T>, key: T -> real)
    requires |s| > 0
    ensures exists j :: 0 <= j < |s| && s[j] == SortDesc(s, key)[0] &&
              (forall i :: 0 <= i < j ==> key(s[i]) < key(s[j]))
  {
    var r := SortDesc(s, key);
    HeadIsMaximal(s, key);
    FirstMaximal(s, r, key);
  }

  /** A maximal element `r[0]` that also heads the key-`key(r[0])` elements
      of `s` is the first element of `s` with a maximal key. */
  lemma FirstMaximal<T>(s: seq<T>, r: seq<T>, key: T -> real)
    requires |r| > 0
    requires forall x :: x in s ==> key(x) <= key(r[0])
    requires WithKey(r, key, key(r[0])) == WithKey(s, key, key(r[0]))
    ensures exists j :: 0 <= j < |s| && s[j] == r[0] &&
              (forall i :: 0 <= i < j ==> key(s[i]) < key(s[j]))
  {
    var c := key(r[0]);
    var w := WithKey(s, key, c);
    assert WithKey(r, key, c) == [r[0]] + WithKey(r[1..], key, c);
    assert w[0] == r[0];
    FirstWithKey(s, key, c);
    var j :| 0 <= j < |s| && s[j] == w[0] && key(s[j]) == c &&
      (forall i :: 0 <= i < j ==> key(s[i]) != c);
    forall i | 0 <= i < j ensures key(s[i]) < key(s[j]) {
      assert s[i] in s;
    }
  }

  /** `Math.max(...s.map(f), floor)`. */
  function MaxWithFloor<T>(s: seq<T>, f: T -> real, floor: real): (m: real)
    ensures m >= floor
    ensures forall x :: x in s ==> f(x) <= m
    ensures m == floor || exists x :: x in s && f(x) == m
  {
    if s == [] then floor
    else
      var rest := MaxWithFloor(s[1..], f, floor);
      assert forall x :: x in s ==> x == s[0] || x in s[1..];
      if f(s[0]) >= rest then f(s[0]) else rest
  }

  /** `s[..n]` clamped to the available length (pandas `head(n)`). */
  function Take<T>(s: seq<T>, n: int): (r: seq<T>)
    ensures |r| == if n <= 0 then 0 else if n < |s| then n else |s|
    ensures forall i :: 0 <= i < |r| ==> r[i] == s[i]
  {
    if n <= 0 then [] else if n < |s| then s[..n] else s
  }

  /** `s.index(x)` / `s.indexOf(x)`: the first position of `x`, or -1. */
  function IndexOf<T(==)>(s: seq<T>, x: T): (k: int)
    ensures -1 <= k < |s|
    ensures k == -1 <==> x !in s
    ensures k >= 0 ==> s[k] == x && forall j :: 0 <= j < k ==> s[j] != x
  {
    if s == [] then -1
    else if s[0] == x then 0
    else
      var k := IndexOf(s[1..], x);
      if k == -1 then -1 else k + 1
  }

  function Min(a: int, b: int): int { if a <= b then a else b }

  function Max(a: int, b: int): int { if a >= b then a else b }
}
