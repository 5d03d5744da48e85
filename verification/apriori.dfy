/** `run_mba`: keep the sold lines that name a product, build the
    invoice-by-product basket, and keep the 300 rules of highest lift.
    Frequent-itemset mining and rule generation are the library's; they
    are parameters. */
module Apriori {
  import opened Collections
  import opened Transactions
  import opened Api

  const MIN_SUPPORT: real := 0.0005
  const MIN_CONFIDENCE: real := 0.05
  const TOP_K_RULES: int := 300

  /** The two columns the basket is built from. */
  datatype Line = Line(invoiceNo: string, description: string)

  predicate Sold(t: Transaction)
  {
    t.description.Some? && t.quantity > 0
  }

  /** `load_uci_retail`: keep rows with a description and a positive
      quantity, then project to invoice and description. */
  function LoadRows(raw: seq<Transaction>): (r: seq<Line>)
    ensures |r| == |Filter(raw, Sold)|
    ensures forall i :: 0 <= i < |r| ==>
      Filter(raw, Sold)[i].invoiceNo == r[i].invoiceNo && Filter(raw, Sold)[i].description == Some(r[i].description)
    ensures forall l :: l in r <==> exists t :: t in raw && Sold(t) && l == Line(t.invoiceNo, t.description.value)
  {
    if raw == [] then []
    else
      var rest := LoadRows(raw[1..]);
      var kept := Filter(raw[1..], Sold);
      if Sold(raw[0]) then
        var r := [Line(raw[0].invoiceNo, raw[0].description.value)] + rest;
        assert Filter(raw, Sold) == [raw[0]] + kept;
        assert forall i :: 0 < i < |r| ==> r[i] == rest[i - 1] && ([raw[0]] + kept)[i] == kept[i - 1];
        LinesOfSold(raw, r);
        r
      else
        assert Filter(raw, Sold) == kept;
        LinesOfSold(raw, rest);
        rest
  }

  /** Lines that match the sold rows position by position are exactly the
      projections of the sold rows. */
  lemma LinesOfSold(raw: seq<Transaction>, r: seq<Line>)
    requires |r| == |Filter(raw, Sold)|
    requires forall i :: 0 <= i < |r| ==>
      Filter(raw, Sold)[i].invoiceNo == r[i].invoiceNo && Filter(raw, Sold)[i].description == Some(r[i].description)
    ensures forall l :: l in r <==> exists t :: t in raw && Sold(t) && l == Line(t.invoiceNo, t.description.value)
  {
    var kept := Filter(raw, Sold);
    forall l | l in r ensures exists t :: t in raw && Sold(t) && l == Line(t.invoiceNo, t.description.value) {
      var i :| 0 <= i < |r| && r[i] == l;
      assert kept[i] in kept;
    }
    forall l | exists t :: t in raw && Sold(t) && l == Line(t.invoiceNo, t.description.value) ensures l in r {
      var t :| t in raw && Sold(t) && l == Line(t.invoiceNo, t.description.value);
      assert t in kept;
      var i :| 0 <= i < |kept| && kept[i] == t;
      assert r[i] == l;
    }
  }

  /** Returns, cancellations and unnamed lines never reach the basket. */
  lemma LoadRowsDropsUnsold(raw: seq<Transaction>, t: Transaction)
    requires !Sold(t)
    ensures LoadRows(raw + [t]) == LoadRows(raw)
  {
    LoadRowsAppend(raw, [t]);
  }

  lemma {:induction false} LoadRowsAppend(a: seq<Transaction>, b: seq<Transaction>)
    ensures LoadRows(a + b) == LoadRows(a) + LoadRows(b)
  {
    if a == [] {
      assert a + b == b;
    } else {
      assert (a + b)[1..] == a[1..] + b;
      LoadRowsAppend(a[1..], b);
    }
  }

  /** The boolean invoice-by-product matrix: its rows, its columns and the
      cells that are true. */
  datatype Basket = Basket(invoices: set<string>, items: set<string>, cells: set<(string, string)>)

  function Cell(b: Basket, invoice: string, item: string): bool
  {
    (invoice, item) in b.cells
  }

  /** `groupby([InvoiceNo, Description]).count().unstack().fillna(0).astype(bool)`. */
  function Preprocess(lines: seq<Line>): (b: Basket)
    ensures forall inv :: inv in b.invoices <==> exists l :: l in lines && l.invoiceNo == inv
    ensures forall it :: it in b.items <==> exists l :: l in lines && l.description == it
    ensures forall inv, it :: Cell(b, inv, it) <==> Line(inv, it) in lines
  {
    if lines == [] then Basket({}, {}, {})
    else
      var rest := Preprocess(lines[1..]);
      assert forall l :: l in lines <==> l == lines[0] || l in lines[1..];
      Basket(rest.invoices + {lines[0].invoiceNo}, rest.items + {lines[0].description},
             rest.cells + {(lines[0].invoiceNo, lines[0].description)})
  }

  /** Every row and every column of the basket holds at least one true
      cell, and every true cell lies on a row and a column. */
  lemma BasketWellFormed(lines: seq<Line>)
    ensures forall inv :: inv in Preprocess(lines).invoices ==> exists it :: Cell(Preprocess(lines), inv, it)
    ensures forall it :: it in Preprocess(lines).items ==> exists inv :: Cell(Preprocess(lines), inv, it)
    ensures forall inv, it :: Cell(Preprocess(lines), inv, it) ==>
      inv in Preprocess(lines).invoices && it in Preprocess(lines).items
  {
    var b := Preprocess(lines);
    forall inv | inv in b.invoices ensures exists it :: Cell(b, inv, it) {
      var l :| l in lines && l.invoiceNo == inv;
      assert Cell(b, inv, l.description);
    }
    forall it | it in b.items ensures exists inv :: Cell(b, inv, it) {
      var l :| l in lines && l.description == it;
      assert Cell(b, l.invoiceNo, it);
    }
  }

  datatype Meta = Meta(minSupport: real, minConfidence: real, topKRules: int, datasetRows: nat)

  datatype MbaResult = MbaResult(frequentItemsets: seq<Itemset>, rules: seq<Rule>, meta: Meta)

  /** `rules.sort_values(by="lift", ascending=False).head(TOP_K_RULES)`. */
  function TopRules(rules: seq<Rule>): (r: seq<Rule>)
    ensures |r| == Min(|rules|, TOP_K_RULES)
    ensures forall i, j :: 0 <= i < j < |r| ==> r[i].lift >= r[j].lift
    ensures multiset(r) <= multiset(rules)
  {
    var sorted := SortDesc(rules, Lift);
    var r := Take(sorted, TOP_K_RULES);
    assert sorted == r + sorted[|r|..];
    assert multiset(sorted) == multiset(r) + multiset(sorted[|r|..]);
    r
  }

  /** The kept rules are the best: every rule left out has a lift no higher
      than any rule kept. */
  lemma TopRulesAreBest(rules: seq<Rule>)
    ensures forall x, y :: x in rules && x !in TopRules(rules) && y in TopRules(rules) ==> x.lift <= y.lift
  {
    var sorted := SortDesc(rules, Lift);
    var r := TopRules(rules);
    forall x, y | x in rules && x !in r && y in r ensures x.lift <= y.lift {
      assert x in multiset(sorted);
      var j :| 0 <= j < |sorted| && sorted[j] == x;
      var i :| 0 <= i < |r| && r[i] == y;
      assert sorted[i] == y;
    }
  }

  /** The whole analysis, with the library's miner and rule generator. */
  function RunMba(raw: seq<Transaction>, mine: Basket -> seq<Itemset>, associate: seq<Itemset> -> seq<Rule>): (r: MbaResult)
    ensures r.meta == Meta(MIN_SUPPORT, MIN_CONFIDENCE, TOP_K_RULES, |Filter(raw, Sold)|)
    ensures r.frequentItemsets == mine(Preprocess(LoadRows(raw)))
    ensures r.rules == TopRules(associate(r.frequentItemsets))
    ensures |r.rules| <= TOP_K_RULES
    ensures forall i, j :: 0 <= i < j < |r.rules| ==> r.rules[i].lift >= r.rules[j].lift
    ensures multiset(r.rules) <= multiset(associate(r.frequentItemsets))
  {
    var lines := LoadRows(raw);
    var freq := mine(Preprocess(lines));
    MbaResult(freq, TopRules(associate(freq)), Meta(MIN_SUPPORT, MIN_CONFIDENCE, TOP_K_RULES, |lines|))
  }

  /** When the library keeps its thresholds, so does the result: every
      itemset has support at least MIN_SUPPORT and every rule confidence at
      least MIN_CONFIDENCE. */
  lemma ThresholdsHold(raw: seq<Transaction>, mine: Basket -> seq<Itemset>, associate: seq<Itemset> -> seq<Rule>)
    requires forall b, i :: 0 <= i < |mine(b)| ==> mine(b)[i].support >= MIN_SUPPORT
    requires forall f, i :: 0 <= i < |associate(f)| ==> associate(f)[i].confidence >= MIN_CONFIDENCE
    ensures forall x :: x in RunMba(raw, mine, associate).frequentItemsets ==> x.support >= MIN_SUPPORT
    ensures forall x :: x in RunMba(raw, mine, associate).rules ==> x.confidence >= MIN_CONFIDENCE
  {
    var r := RunMba(raw, mine, associate);
    var generated := associate(r.frequentItemsets);
    forall x | x in r.rules ensures x.confidence >= MIN_CONFIDENCE {
      assert x in multiset(r.rules);
      assert x in multiset(generated);
      var i :| 0 <= i < |generated| && generated[i] == x;
    }
  }
}
