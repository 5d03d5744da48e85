/** `prepare_customer_features` of the clustering and projection models:
    drop rows without a customer, then one row per customer with the
    summed spend, the summed quantity and the number of distinct invoices.
    Both models define the same aggregation, so it is written once here. */
module CustomerFeatures {
  import opened Collections
  import opened Transactions
  import opened Grouping

  datatype Customer = Customer(customerId: int, totalSpend: real, totalItems: real, totalOrders: nat)

  /** The invoice numbers of the rows of customer `c`. */
  function InvoicesOf(rows: seq<Transaction>, c: int): (s: set<string>)
    ensures forall inv :: inv in s <==> exists i :: 0 <= i < |rows| && CustomerKey(rows[i]) == c && rows[i].invoiceNo == inv
  {
    if rows == [] then {}
    else
      var rest := InvoicesOf(rows[1..], c);
      assert forall i :: 0 <= i < |rows[1..]| ==> rows[1..][i] == rows[i + 1];
      assert forall i :: 0 < i < |rows| ==> rows[i] == rows[1..][i - 1];
      if CustomerKey(rows[0]) == c then rest + {rows[0].invoiceNo} else rest
  }

  /** The aggregated row of customer `c`. */
  function CustomerRow(rows: seq<Transaction>, c: int): Customer
  {
    Customer(c, SumWhere(rows, CustomerKey, c, Amount), SumWhere(rows, CustomerKey, c, Quantity),
             |InvoicesOf(rows, c)|)
  }

  /** The rows the aggregation uses: those with a customer id. */
  function Kept(raw: seq<Transaction>): seq<Transaction>
  {
    DropMissingCustomers(raw)
  }

  /** A customer id is a group key of the kept rows exactly when some raw
      row carries it. */
  lemma KeysAreCustomers(raw: seq<Transaction>, c: int)
    ensures c in Keys(Kept(raw), CustomerKey) <==> exists t :: t in raw && t.customerId == Some(c)
  {
    var rows := Kept(raw);
    if exists t :: t in raw && t.customerId == Some(c) {
      var t :| t in raw && t.customerId == Some(c);
      assert t in rows;
      var k :| 0 <= k < |rows| && rows[k] == t;
      assert CustomerKey(rows[k]) == c;
    }
    if c in Keys(rows, CustomerKey) {
      var k :| 0 <= k < |rows| && CustomerKey(rows[k]) == c;
      assert rows[k] in rows;
    }
  }

  /** One row per distinct customer id, in ascending id order. */
  function Prepare(raw: seq<Transaction>): (cs: seq<Customer>)
    ensures forall i, j :: 0 <= i < j < |cs| ==> cs[i].customerId < cs[j].customerId
    ensures forall c :: (exists i :: 0 <= i < |cs| && cs[i].customerId == c) <==>
                        (exists t :: t in raw && t.customerId == Some(c))
    ensures forall i :: 0 <= i < |cs| ==> cs[i] == CustomerRow(Kept(raw), cs[i].customerId)
  {
    var rows := Kept(raw);
    var ks := Keys(rows, CustomerKey);
    var cs := seq(|ks|, i requires 0 <= i < |ks| => CustomerRow(rows, ks[i]));
    forall c ensures (exists i :: 0 <= i < |cs| && cs[i].customerId == c) <==>
                     (exists t :: t in raw && t.customerId == Some(c)) {
      KeysAreCustomers(raw, c);
      if c in ks {
        var i :| 0 <= i < |ks| && ks[i] == c;
        assert cs[i].customerId == c;
      }
      if exists i :: 0 <= i < |cs| && cs[i].customerId == c {
        var i :| 0 <= i < |cs| && cs[i].customerId == c;
        assert ks[i] in ks;
      }
    }
    cs
  }

  /** Every aggregated customer placed at least one order, and its order
      count is the number of distinct invoices among its rows. */
  lemma OrdersPositive(raw: seq<Transaction>, i: int)
    requires 0 <= i < |Prepare(raw)|
    ensures Prepare(raw)[i].totalOrders >= 1
  {
    var cs := Prepare(raw);
    var c := cs[i].customerId;
    var t :| t in raw && t.customerId == Some(c);
    var rows := Kept(raw);
    assert t in rows;
    var k :| 0 <= k < |rows| && rows[k] == t;
    assert t.invoiceNo in InvoicesOf(rows, c);
  }

  function Spend(c: Customer): real { c.totalSpend }

  function Items(c: Customer): real { c.totalItems }

  /** The aggregation loses nothing: customer spends add up to the value of
      every row with a customer, and item counts to their quantity. */
  lemma PrepareConserves(raw: seq<Transaction>)
    ensures Sum(Prepare(raw), Spend) == Sum(Kept(raw), Amount)
    ensures Sum(Prepare(raw), Items) == Sum(Kept(raw), Quantity)
  {
    var rows := Kept(raw);
    var ks := Keys(rows, CustomerKey);
    var cs := Prepare(raw);
    forall i | 0 <= i < |rows| ensures CustomerKey(rows[i]) in ks {
    }
    SumOverCustomers(ks, cs, rows);
    Conservation(ks, rows, CustomerKey, Amount);
    Conservation(ks, rows, CustomerKey, Quantity);
  }

  lemma {:induction false} SumOverCustomers(ks: seq<int>, cs: seq<Customer>, rows: seq<Transaction>)
    requires |cs| == |ks|
    requires forall i :: 0 <= i < |cs| ==> cs[i] == CustomerRow(rows, ks[i])
    ensures Sum(cs, Spend) == SumOver(ks, rows, CustomerKey, Amount)
    ensures Sum(cs, Items) == SumOver(ks, rows, CustomerKey, Quantity)
  {
    if cs != [] {
      SumOverCustomers(ks[1..], cs[1..], rows);
    }
  }

  /** Rows without a customer id do not change the result. */
  lemma MissingCustomerIgnored(raw: seq<Transaction>, t: Transaction)
    requires t.customerId.None?
    ensures Prepare(raw + [t]) == Prepare(raw)
  {
    FilterAppend(raw, [t], HasCustomer);
    assert Kept(raw + [t]) == Kept(raw);
  }
}
