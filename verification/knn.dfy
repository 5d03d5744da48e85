/** `recommend`: the distinct nearest products of a product, by name.
    The neighbour search is the library's; it is a parameter that, for a
    query row and a count, returns candidate rows nearest first. */
module Knn {
  import opened Collections
  import opened Api

  /** One candidate of the neighbour search: a row of the product list
      and its distance from the query. */
  datatype Neighbour = Neighbour(index: int, distance: real)

  /** Every candidate addresses a row of the product list. */
  predicate ValidCandidates(products: seq<string>, cands: seq<Neighbour>)
  {
    forall i :: 0 <= i < |cands| ==> 0 <= cands[i].index < |products|
  }

  /** Reference definition: in candidate order, each candidate whose name
      is not yet seen, marking it seen. */
  function Distinct(products: seq<string>, cands: seq<Neighbour>, seen: set<string>): (r: seq<Similar>)
    requires ValidCandidates(products, cands)
    ensures |r| <= |cands|
  {
    if cands == [] then []
    else
      var name := products[cands[0].index];
      if name in seen then Distinct(products, cands[1..], seen)
      else [Similar(name, 1.0 - cands[0].distance)] + Distinct(products, cands[1..], seen + {name})
  }

  /** Nothing already seen is recommended, and no name is recommended twice. */
  lemma {:induction false} DistinctFresh(products: seq<string>, cands: seq<Neighbour>, seen: set<string>)
    requires ValidCandidates(products, cands)
    ensures forall i :: 0 <= i < |Distinct(products, cands, seen)| ==> Distinct(products, cands, seen)[i].product !in seen
    ensures forall i, j :: 0 <= i < j < |Distinct(products, cands, seen)| ==>
      Distinct(products, cands, seen)[i].product != Distinct(products, cands, seen)[j].product
  {
    if cands != [] {
      var name := products[cands[0].index];
      if name in seen {
        DistinctFresh(products, cands[1..], seen);
      } else {
        DistinctFresh(products, cands[1..], seen + {name});
      }
    }
  }

  /** Every recommended name is the name of some candidate. */
  lemma {:induction false} DistinctFromCandidates(products: seq<string>, cands: seq<Neighbour>, seen: set<string>)
    requires ValidCandidates(products, cands)
    ensures forall i :: 0 <= i < |Distinct(products, cands, seen)| ==>
      exists k :: 0 <= k < |cands| && products[cands[k].index] == Distinct(products, cands, seen)[i].product
  {
    if cands != [] {
      var name := products[cands[0].index];
      var seen' := if name in seen then seen else seen + {name};
      DistinctFromCandidates(products, cands[1..], seen');
      var r := Distinct(products, cands, seen);
      var tail := Distinct(products, cands[1..], seen');
      forall i | 0 <= i < |r|
        ensures exists k :: 0 <= k < |cands| && products[cands[k].index] == r[i].product
      {
        if name !in seen && i == 0 {
          assert products[cands[0].index] == r[0].product;
        } else {
          var t := if name in seen then i else i - 1;
          assert r[i] == tail[t];
          var k :| 0 <= k < |cands[1..]| && products[cands[1..][k].index] == tail[t].product;
          assert cands[1..][k] == cands[k + 1];
        }
      }
    }
  }

  /** The specified answer: the first `topK` fresh names after the first
      candidate, the query's own name counting as seen. */
  function Expected(name: string, products: seq<string>, cands: seq<Neighbour>, topK: int): seq<Similar>
    requires |cands| > 0 && ValidCandidates(products, cands)
  {
    Take(Distinct(products, cands[1..], {name}), topK)
  }

  /** The number of candidates asked for: `min(top_k * 5, len(products))`. */
  function CandidateCount(topK: int, n: nat): int
  {
    Min(topK * 5, n)
  }

  /** One step of the reference definition at position `i`. */
  lemma DistinctStep(products: seq<string>, cands: seq<Neighbour>, i: int, seen: set<string>)
    requires ValidCandidates(products, cands)
    requires 0 <= i < |cands|
    ensures ValidCandidates(products, cands[i..]) && ValidCandidates(products, cands[i + 1..])
    ensures products[cands[i].index] in seen ==>
      Distinct(products, cands[i..], seen) == Distinct(products, cands[i + 1..], seen)
    ensures products[cands[i].index] !in seen ==>
      Distinct(products, cands[i..], seen) ==
        [Similar(products[cands[i].index], 1.0 - cands[i].distance)] +
        Distinct(products, cands[i + 1..], seen + {products[cands[i].index]})
  {
    assert cands[i..][0] == cands[i];
    assert cands[i..][1..] == cands[i + 1..];
  }

  /** The loop of `recommend` over the candidates the library returned:
      skip position 0, skip names already seen, stop at `top_k`. */
  method Collect(name: string, products: seq<string>, cands: seq<Neighbour>, topK: int) returns (recs: seq<Similar>)
    requires |cands| > 0 && ValidCandidates(products, cands)
    requires topK >= 1
    ensures recs == Expected(name, products, cands, topK)
  {
    recs := [];
    var seen := {name};
    var i := 1;
    ghost var whole := Distinct(products, cands[1..], {name});
    while i < |cands|
      invariant 1 <= i <= |cands|
      invariant ValidCandidates(products, cands[i..])
      invariant recs + Distinct(products, cands[i..], seen) == whole
      invariant |recs| < topK
    {
      var n := products[cands[i].index];
      DistinctStep(products, cands, i, seen);
      if n in seen {
        i := i + 1;
        continue;
      }
      seen := seen + {n};
      recs := recs + [Similar(n, 1.0 - cands[i].distance)];
      if |recs| >= topK {
        assert whole[..|recs|] == recs;
        return;
      }
      i := i + 1;
    }
    assert cands[i..] == [];
  }

  /** The whole function. An unknown name gives []; asking the library for
      fewer than one neighbour (`top_k < 1`) is an error there. */
  method Recommend(name: string, products: seq<string>, kneighbors: (nat, int) -> seq<Neighbour>, topK: int)
    returns (r: Result<seq<Similar>>)
    requires forall q: nat, k :: 1 <= k <= |products| ==> |kneighbors(q, k)| == k && ValidCandidates(products, kneighbors(q, k))
    ensures name !in products ==> r == Success([])
    ensures name in products ==> (r.Failure? <==> topK < 1)
    ensures name in products && topK >= 1 ==>
      r == Success(Expected(name, products, kneighbors(IndexOf(products, name), CandidateCount(topK, |products|)), topK))
  {
    if name !in products {
      return Success([]);
    }
    var idx := IndexOf(products, name);
    var count := CandidateCount(topK, |products|);
    if count < 1 {
      return Failure("Expected n_neighbors > 0");
    }
    var cands := kneighbors(idx, count);
    var recs := Collect(name, products, cands, topK);
    return Success(recs);
  }

  /** The promised properties of a successful answer: at most `top_k`
      names, none of them the query, none twice, each a candidate's name,
      and the first candidate (the query row itself) never consulted. */
  lemma ExpectedProperties(name: string, products: seq<string>, cands: seq<Neighbour>, topK: int, other: Neighbour)
    requires |cands| > 0 && ValidCandidates(products, cands)
    requires 0 <= other.index < |products|
    ensures |Expected(name, products, cands, topK)| <= Max(topK, 0)
    ensures forall i :: 0 <= i < |Expected(name, products, cands, topK)| ==> Expected(name, products, cands, topK)[i].product != name
    ensures forall i, j :: 0 <= i < j < |Expected(name, products, cands, topK)| ==>
      Expected(name, products, cands, topK)[i].product != Expected(name, products, cands, topK)[j].product
    ensures forall i :: 0 <= i < |Expected(name, products, cands, topK)| ==>
      exists k :: 1 <= k < |cands| && products[cands[k].index] == Expected(name, products, cands, topK)[i].product
    ensures Expected(name, products, [other] + cands[1..], topK) == Expected(name, products, cands, topK)
  {
    var rest := cands[1..];
    DistinctFresh(products, rest, {name});
    DistinctFromCandidates(products, rest, {name});
    var d := Distinct(products, rest, {name});
    forall i | 0 <= i < |Expected(name, products, cands, topK)|
      ensures exists k :: 1 <= k < |cands| && products[cands[k].index] == Expected(name, products, cands, topK)[i].product
    {
      var k :| 0 <= k < |rest| && products[rest[k].index] == d[i].product;
      assert rest[k] == cands[k + 1];
    }
    assert ([other] + cands[1..])[1..] == rest;
  }

  /** Scanning stops as soon as `top_k` names are found: later candidates
      do not matter once the first ones supply enough fresh names. */
  lemma StopsAtTopK(name: string, products: seq<string>, cands: seq<Neighbour>, more: seq<Neighbour>, topK: int)
    requires |cands| > 0 && ValidCandidates(products, cands) && ValidCandidates(products, more)
    requires |Distinct(products, cands[1..], {name})| >= topK
    ensures Expected(name, products, cands + more, topK) == Expected(name, products, cands, topK)
  {
    assert (cands + more)[1..] == cands[1..] + more;
    DistinctAppend(products, cands[1..], more, {name});
  }

  /** Concatenating valid candidate lists gives a valid list. */
  lemma ValidAppend(products: seq<string>, a: seq<Neighbour>, b: seq<Neighbour>)
    requires ValidCandidates(products, a) && ValidCandidates(products, b)
    ensures ValidCandidates(products, a + b)
  {
    forall i | 0 <= i < |a + b| ensures 0 <= (a + b)[i].index < |products| {
      if i < |a| {
        assert (a + b)[i] == a[i];
      } else {
        assert (a + b)[i] == b[i - |a|];
      }
    }
  }

  /** The answer over a longer candidate list starts with the answer over
      its prefix. */
  lemma {:induction false} DistinctAppend(products: seq<string>, a: seq<Neighbour>, b: seq<Neighbour>, seen: set<string>)
    requires ValidCandidates(products, a) && ValidCandidates(products, b)
    ensures ValidCandidates(products, a + b)
    ensures |Distinct(products, a + b, seen)| >= |Distinct(products, a, seen)|
    ensures Distinct(products, a + b, seen)[..|Distinct(products, a, seen)|] == Distinct(products, a, seen)
  {
    ValidAppend(products, a, b);
    if a == [] {
      assert a + b == b;
    } else {
      var ab := a + b;
      assert ab[0] == a[0];
      assert ab[1..] == a[1..] + b;
      assert ValidCandidates(products, a[1..]) by {
        forall i | 0 <= i < |a[1..]| ensures 0 <= a[1..][i].index < |products| {
          assert a[1..][i] == a[i + 1];
        }
      }
      var name := products[a[0].index];
      var seen' := if name in seen then seen else seen + {name};
      DistinctAppend(products, a[1..], b, seen');
      var d := Distinct(products, a[1..] + b, seen');
      var e := Distinct(products, a[1..], seen');
      if name !in seen {
        var x := Similar(name, 1.0 - a[0].distance);
        assert Distinct(products, ab, seen) == [x] + d;
        assert Distinct(products, a, seen) == [x] + e;
        assert ([x] + d)[..|e| + 1] == [x] + d[..|e|];
      }
    }
  }
}
