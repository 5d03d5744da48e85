/** `run_decision_tree`: the per-customer features of the spend model
    (the shared aggregation plus mean line value, last purchase, recency
    and the spend of the last 30 days) and the pairing of each customer
    with its prediction. The regressor is the library's; it is a
    parameter that returns one prediction per feature row. */
module DecisionTree {
  import opened Collections
  import opened Transactions
  import opened Grouping
  import opened Api
  import CustomerFeatures

  datatype Features = Features(base: CustomerFeatures.Customer, avgOrderValue: real,
                               lastPurchase: int, recency: int, nextMonthSpend: real)

  const WINDOW_DAYS: int := 30

  /** Customer `c` has at least one row. */
  predicate Occurs(rows: seq<Transaction>, c: int)
  {
    exists i :: 0 <= i < |rows| && CustomerKey(rows[i]) == c
  }

  /** `df["InvoiceDate"].max()`. */
  function MaxDate(rows: seq<Transaction>): (m: int)
    requires |rows| > 0
    ensures exists i :: 0 <= i < |rows| && rows[i].invoiceDate.instant == m
    ensures forall i :: 0 <= i < |rows| ==> rows[i].invoiceDate.instant <= m
  {
    if |rows| == 1 then rows[0].invoiceDate.instant
    else
      var rest := MaxDate(rows[1..]);
      assert forall i :: 0 < i < |rows| ==> rows[i] == rows[1..][i - 1];
      if rows[0].invoiceDate.instant >= rest then rows[0].invoiceDate.instant
      else
        var j :| 0 <= j < |rows[1..]| && rows[1..][j].invoiceDate.instant == rest;
        assert rows[j + 1] == rows[1..][j];
        rest
  }

  /** `last_purchase = ("InvoiceDate", "max")` for customer `c`. */
  function LastPurchase(rows: seq<Transaction>, c: int): (m: int)
    requires Occurs(rows, c)
    ensures exists i :: 0 <= i < |rows| && CustomerKey(rows[i]) == c && rows[i].invoiceDate.instant == m
    ensures forall i :: 0 <= i < |rows| && CustomerKey(rows[i]) == c ==> rows[i].invoiceDate.instant <= m
  {
    var own := Filter(rows, (t: Transaction) => CustomerKey(t) == c);
    var i :| 0 <= i < |rows| && CustomerKey(rows[i]) == c;
    assert rows[i] in own;
    var m := MaxDate(own);
    forall j | 0 <= j < |rows| && CustomerKey(rows[j]) == c ensures rows[j].invoiceDate.instant <= m {
      assert rows[j] in own;
    }
    var k :| 0 <= k < |own| && own[k].invoiceDate.instant == m;
    assert own[k] in own;
    var j :| 0 <= j < |rows| && rows[j] == own[k];
    m
  }

  /** Rows dated no earlier than 30 days before the latest date. */
  predicate InWindow(t: Transaction, maxDate: int)
  {
    t.invoiceDate.instant >= maxDate - WINDOW_DAYS * SECONDS_PER_DAY
  }

  function Recent(rows: seq<Transaction>, maxDate: int): seq<Transaction>
  {
    Filter(rows, (t: Transaction) => InWindow(t, maxDate))
  }

  /** The extra columns for one aggregated customer. */
  function Extend(rows: seq<Transaction>, maxDate: int, b: CustomerFeatures.Customer): (f: Features)
    requires Occurs(rows, b.customerId)
    requires forall i :: 0 <= i < |rows| ==> rows[i].invoiceDate.instant <= maxDate
    ensures f.base == b
  {
    var c := b.customerId;
    var n := CountWhere(rows, CustomerKey, c);
    CountWherePositive(rows, CustomerKey, c);
    var last := LastPurchase(rows, c);
    Features(b, SumWhere(rows, CustomerKey, c, Amount) / n as real, last,
             WholeDays(maxDate, last), SumWhere(Recent(rows, maxDate), CustomerKey, c, Amount))
  }

  /** A customer id some raw row carries has a kept row. */
  lemma KeptOccurs(raw: seq<Transaction>, c: int)
    requires exists t :: t in raw && t.customerId == Some(c)
    ensures Occurs(CustomerFeatures.Kept(raw), c)
  {
    var rows := CustomerFeatures.Kept(raw);
    var t :| t in raw && t.customerId == Some(c);
    assert t in rows;
    var k :| 0 <= k < |rows| && rows[k] == t;
    assert CustomerKey(rows[k]) == c;
  }

  /** Every aggregated customer has a kept row. */
  lemma PreparedOccur(raw: seq<Transaction>)
    ensures forall i :: 0 <= i < |CustomerFeatures.Prepare(raw)| ==>
      Occurs(CustomerFeatures.Kept(raw), CustomerFeatures.Prepare(raw)[i].customerId)
  {
    var cs := CustomerFeatures.Prepare(raw);
    forall i | 0 <= i < |cs| ensures Occurs(CustomerFeatures.Kept(raw), cs[i].customerId) {
      KeptOccurs(raw, cs[i].customerId);
    }
  }

  /** The extension of each customer in turn. */
  function ExtendAll(rows: seq<Transaction>, m: int, cs: seq<CustomerFeatures.Customer>): (fs: seq<Features>)
    requires forall i :: 0 <= i < |cs| ==> Occurs(rows, cs[i].customerId)
    requires rows != [] && m == MaxDate(rows)
    ensures |fs| == |cs|
    ensures forall i :: 0 <= i < |fs| ==> fs[i] == Extend(rows, m, cs[i])
  {
    seq(|cs|, i requires 0 <= i < |cs| => Extend(rows, m, cs[i]))
  }

  /** `prepare_customer_features` of the spend model. */
  function Prepare(raw: seq<Transaction>): (fs: seq<Features>)
    ensures |fs| == |CustomerFeatures.Prepare(raw)|
    ensures forall i :: 0 <= i < |fs| ==> fs[i].base == CustomerFeatures.Prepare(raw)[i]
  {
    var rows := CustomerFeatures.Kept(raw);
    var cs := CustomerFeatures.Prepare(raw);
    if cs == [] then []
    else
      PreparedOccur(raw);
      assert Occurs(rows, cs[0].customerId);
      ExtendAll(rows, MaxDate(rows), cs)
  }

  function Amounts(rows: seq<Transaction>): seq<real>
  {
    seq(|rows|, i requires 0 <= i < |rows| => Amount(rows[i]))
  }

  /** The base columns are the shared aggregation of the customer's rows,
      and the mean line value is taken per row, not per invoice. */
  predicate AveragesRows(rows: seq<Transaction>, f: Features)
  {
    var c := f.base.customerId;
    var n := CountWhere(rows, CustomerKey, c);
    n > 0 &&
    f.base == CustomerFeatures.CustomerRow(rows, c) &&
    f.avgOrderValue * n as real == f.base.totalSpend
  }

  /** The last purchase is the customer's latest date. */
  predicate LastPurchaseIsLatest(rows: seq<Transaction>, f: Features)
  {
    var c := f.base.customerId;
    (exists j :: 0 <= j < |rows| && CustomerKey(rows[j]) == c && rows[j].invoiceDate.instant == f.lastPurchase) &&
    (forall j :: 0 <= j < |rows| && CustomerKey(rows[j]) == c ==> rows[j].invoiceDate.instant <= f.lastPurchase)
  }

  /** Recency counts whole days back from the latest date `m` of all rows. */
  predicate RecencyInDays(m: int, f: Features)
  {
    f.recency >= 0 &&
    f.recency * SECONDS_PER_DAY <= m - f.lastPurchase < (f.recency + 1) * SECONDS_PER_DAY
  }

  /** What a feature row means for customer `c = f.base.customerId`,
      given the kept rows and the latest date `m` over all of them; the
      last conjunct is the spend of the last 30 days. */
  predicate Describes(rows: seq<Transaction>, m: int, f: Features)
  {
    AveragesRows(rows, f) &&
    LastPurchaseIsLatest(rows, f) &&
    RecencyInDays(m, f) &&
    f.nextMonthSpend == SumWhere(Recent(rows, m), CustomerKey, f.base.customerId, Amount)
  }

  lemma ExtendDescribes(rows: seq<Transaction>, m: int, b: CustomerFeatures.Customer)
    requires Occurs(rows, b.customerId)
    requires forall i :: 0 <= i < |rows| ==> rows[i].invoiceDate.instant <= m
    requires b == CustomerFeatures.CustomerRow(rows, b.customerId)
    ensures Describes(rows, m, Extend(rows, m, b))
  {
    var c := b.customerId;
    CountWherePositive(rows, CustomerKey, c);
    var f := Extend(rows, m, b);
    DivideThenMultiply(b.totalSpend, CountWhere(rows, CustomerKey, c) as real, f.avgOrderValue);
  }

  /** `ExtendDescribes` for row `i` of the extension of all customers. */
  lemma ExtensionDescribes(rows: seq<Transaction>, cs: seq<CustomerFeatures.Customer>, i: int)
    requires forall k :: 0 <= k < |cs| ==> Occurs(rows, cs[k].customerId)
    requires rows != []
    requires 0 <= i < |cs|
    requires cs[i] == CustomerFeatures.CustomerRow(rows, cs[i].customerId)
    ensures Describes(rows, MaxDate(rows), ExtendAll(rows, MaxDate(rows), cs)[i])
  {
    ExtendDescribes(rows, MaxDate(rows), cs[i]);
  }

  lemma DivideThenMultiply(x: real, n: real, q: real)
    requires n != 0.0
    requires q == x / n
    ensures q * n == x
  {
  }

  /** Feature row `i` is the extension of aggregated customer `i`. */
  lemma PrepareAt(raw: seq<Transaction>, i: int)
    requires 0 <= i < |Prepare(raw)|
    ensures CustomerFeatures.Kept(raw) != []
    ensures forall k :: 0 <= k < |CustomerFeatures.Prepare(raw)| ==>
      Occurs(CustomerFeatures.Kept(raw), CustomerFeatures.Prepare(raw)[k].customerId)
    ensures CustomerFeatures.Prepare(raw)[i] ==
      CustomerFeatures.CustomerRow(CustomerFeatures.Kept(raw), CustomerFeatures.Prepare(raw)[i].customerId)
    ensures Prepare(raw)[i] ==
      ExtendAll(CustomerFeatures.Kept(raw), MaxDate(CustomerFeatures.Kept(raw)), CustomerFeatures.Prepare(raw))[i]
  {
    PreparedOccur(raw);
  }

  /** Every feature row describes its customer as above. */
  lemma FeaturesMeaning(raw: seq<Transaction>, i: int)
    requires 0 <= i < |Prepare(raw)|
    ensures CustomerFeatures.Kept(raw) != []
    ensures Describes(CustomerFeatures.Kept(raw), MaxDate(CustomerFeatures.Kept(raw)), Prepare(raw)[i])
  {
    PrepareAt(raw, i);
    var rows := CustomerFeatures.Kept(raw);
    ExtensionDescribes(rows, CustomerFeatures.Prepare(raw), i);
  }

  /** A customer whose last purchase falls before the 30-day window, so
      that none of its rows is in the window, gets a next-month spend of
      exactly 0 (the `fillna(0)` path). */
  lemma QuietCustomerSpendsNothing(raw: seq<Transaction>, i: int)
    requires 0 <= i < |Prepare(raw)|
    ensures CustomerFeatures.Kept(raw) != []
    ensures Prepare(raw)[i].lastPurchase < MaxDate(CustomerFeatures.Kept(raw)) - WINDOW_DAYS * SECONDS_PER_DAY ==>
      Prepare(raw)[i].nextMonthSpend == 0.0
  {
    FeaturesMeaning(raw, i);
    var rows := CustomerFeatures.Kept(raw);
    if Prepare(raw)[i].lastPurchase < MaxDate(rows) - WINDOW_DAYS * SECONDS_PER_DAY {
      QuietDescribed(rows, MaxDate(rows), Prepare(raw)[i]);
    }
  }

  lemma QuietDescribed(rows: seq<Transaction>, m: int, f: Features)
    requires Describes(rows, m, f)
    requires f.lastPurchase < m - WINDOW_DAYS * SECONDS_PER_DAY
    ensures f.nextMonthSpend == 0.0
  {
    var c := f.base.customerId;
    var recent := Recent(rows, m);
    forall k | 0 <= k < |recent| ensures CustomerKey(recent[k]) != c {
      assert recent[k] in recent;
      var j :| 0 <= j < |rows| && rows[j] == recent[k];
    }
    SumWhereAbsent(recent, CustomerKey, c, Amount);
  }

  /** `zip(customer["CustomerID"], predictions)`: pairs up to the shorter list. */
  function Pair(fs: seq<Features>, preds: seq<real>): (r: seq<Prediction>)
    ensures |r| == Min(|fs|, |preds|)
    ensures forall i :: 0 <= i < |r| ==> r[i] == Prediction(fs[i].base.customerId, preds[i])
  {
    if fs == [] || preds == [] then []
    else [Prediction(fs[0].base.customerId, preds[0])] + Pair(fs[1..], preds[1..])
  }

  /** The endpoint. A 20% test split of fewer than two customers leaves no
      training rows, which the library rejects. */
  function RunDecisionTree(raw: seq<Transaction>, fitPredict: seq<Features> -> seq<real>): (r: Result<seq<Prediction>>)
    requires forall fs :: |fitPredict(fs)| == |fs|
    ensures r.Failure? <==> |CustomerFeatures.Prepare(raw)| < 2
  {
    var fs := Prepare(raw);
    if |fs| < 2 then Failure("train_test_split leaves an empty training set")
    else Success(Pair(fs, fitPredict(fs)))
  }

  /** Each aggregated customer appears once, in table order, with its own
      prediction. */
  lemma PredictionsPairCustomers(raw: seq<Transaction>, fitPredict: seq<Features> -> seq<real>)
    requires forall fs :: |fitPredict(fs)| == |fs|
    requires RunDecisionTree(raw, fitPredict).Success?
    ensures |RunDecisionTree(raw, fitPredict).value| == |CustomerFeatures.Prepare(raw)|
    ensures forall i :: 0 <= i < |RunDecisionTree(raw, fitPredict).value| ==>
      RunDecisionTree(raw, fitPredict).value[i] ==
        Prediction(CustomerFeatures.Prepare(raw)[i].customerId, fitPredict(Prepare(raw))[i])
  {
  }
}
