/** `run_pca`: project the aggregated customers to two coordinates and
    shape one record per customer. The projection is the library's; it is
    a parameter giving one point per customer. */
module Pca {
  import opened Collections
  import opened Transactions
  import opened CustomerFeatures

  datatype Point = Point(x: real, y: real)

  datatype PcaRecord = PcaRecord(customerId: int, totalSpend: real, totalItems: real,
                                 totalOrders: nat, x: real, y: real)

  /** The loop over `customer_df.iterrows()`. */
  function Records(cs: seq<Customer>, pts: seq<Point>): (r: seq<PcaRecord>)
    requires |pts| == |cs|
    ensures |r| == |cs|
    ensures forall i :: 0 <= i < |r| ==>
      r[i].customerId == cs[i].customerId && r[i].totalSpend == cs[i].totalSpend &&
      r[i].totalItems == cs[i].totalItems && r[i].totalOrders == cs[i].totalOrders
  {
    if cs == [] then []
    else
      [PcaRecord(cs[0].customerId, cs[0].totalSpend, cs[0].totalItems, cs[0].totalOrders, pts[0].x, pts[0].y)]
      + Records(cs[1..], pts[1..])
  }

  /** The number of feature columns handed to the projection. */
  const FEATURES: int := 3

  /** The whole endpoint. StandardScaler and PCA raise unless
      `1 <= n_components <= min(customers, 3)` (so an empty table is an
      error too), and reading the second coordinate raises for fewer than
      two components. The library's projection is `project`. */
  function RunPca(raw: seq<Transaction>, nComponents: int, project: seq<Customer> -> seq<Point>): (r: Result<seq<PcaRecord>>)
    requires forall cs :: |project(cs)| == |cs|
    ensures r.Failure? <==> nComponents < 2 || nComponents > Min(|Prepare(raw)|, FEATURES)
    ensures r.Success? ==> |r.value| == |Prepare(raw)|
  {
    var cs := Prepare(raw);
    if nComponents < 2 || nComponents > Min(|cs|, FEATURES) then
      Failure("n_components must be between 0 and min(n_samples, n_features)")
    else Success(Records(cs, project(cs)))
  }

  /** With the default of two components: an error exactly when there are
      fewer than two customers; otherwise one record per customer of the
      shared aggregation, in the same (ascending id) order, so the ids are
      distinct, and each record's point is the library's point for that
      customer. */
  lemma RecordsFollowCustomers(raw: seq<Transaction>, project: seq<Customer> -> seq<Point>)
    requires forall cs :: |project(cs)| == |cs|
    ensures RunPca(raw, 2, project).Failure? <==> |Prepare(raw)| < 2
    ensures RunPca(raw, 2, project).Success? ==>
      |RunPca(raw, 2, project).value| == |Prepare(raw)| &&
      (forall i, j :: 0 <= i < j < |RunPca(raw, 2, project).value| ==>
        RunPca(raw, 2, project).value[i].customerId < RunPca(raw, 2, project).value[j].customerId) &&
      (forall i :: 0 <= i < |RunPca(raw, 2, project).value| ==>
        RunPca(raw, 2, project).value[i].x == project(Prepare(raw))[i].x &&
        RunPca(raw, 2, project).value[i].y == project(Prepare(raw))[i].y)
  {
    var cs := Prepare(raw);
    RecordsPoints(cs, project(cs));
  }

  lemma {:induction false} RecordsPoints(cs: seq<Customer>, pts: seq<Point>)
    requires |pts| == |cs|
    ensures forall i :: 0 <= i < |cs| ==> Records(cs, pts)[i].x == pts[i].x && Records(cs, pts)[i].y == pts[i].y
  {
    if cs != [] {
      RecordsPoints(cs[1..], pts[1..]);
      forall i | 0 < i < |cs| ensures Records(cs, pts)[i] == Records(cs[1..], pts[1..])[i - 1] {
      }
    }
  }
}
