/** `run_kmeans`: cluster the aggregated customers and summarise each
    cluster. The clustering itself is the library's; it is a parameter
    that labels each customer. */
module KMeans {
  import opened Collections
  import opened Transactions
  import opened Grouping
  import opened CustomerFeatures

  /** One summary entry. A cluster with no customers has NaN means. */
  datatype ClusterSummary = ClusterSummary(clusterId: int, customers: nat,
                                           avgSpend: Float, avgItems: Float, avgOrders: Float)

  /** A customer with the cluster label the library gave it. */
  datatype Labelled = Labelled(customer: Customer, cluster: int)

  function Label(l: Labelled): int { l.cluster }

  function LSpend(l: Labelled): real { l.customer.totalSpend }

  function LItems(l: Labelled): real { l.customer.totalItems }

  function LOrders(l: Labelled): real { l.customer.totalOrders as real }

  /** `customer_df["cluster"] = labels`. */
  function Attach(cs: seq<Customer>, labels: seq<int>): (r: seq<Labelled>)
    requires |labels| == |cs|
    ensures |r| == |cs|
    ensures forall i :: 0 <= i < |r| ==> r[i] == Labelled(cs[i], labels[i])
  {
    seq(|cs|, i requires 0 <= i < |cs| => Labelled(cs[i], labels[i]))
  }

  /** The pandas mean of a column over a group: NaN for an empty group. */
  function Mean(total: real, count: nat): (m: Float)
    ensures m.NaN? <==> count == 0
    ensures m.Num? ==> m.v * count as real == total
  {
    if count == 0 then NaN else Num(total / count as real)
  }

  /** Summary entry for cluster `i`. */
  function Entry(ls: seq<Labelled>, i: int): ClusterSummary
  {
    var n := CountWhere(ls, Label, i);
    ClusterSummary(i, n, Mean(SumWhere(ls, Label, i, LSpend), n),
                   Mean(SumWhere(ls, Label, i, LItems), n), Mean(SumWhere(ls, Label, i, LOrders), n))
  }

  /** The loop `for i in range(k)`: entry i describes cluster i. */
  function Summary(ls: seq<Labelled>, k: int): (s: seq<ClusterSummary>)
    ensures |s| == Max(k, 0)
    ensures forall i :: 0 <= i < |s| ==> s[i].clusterId == i
    ensures forall i :: 0 <= i < |s| ==> s[i].customers == CountWhere(ls, Label, i)
    ensures forall i :: 0 <= i < |s| ==>
      s[i].avgSpend == Mean(SumWhere(ls, Label, i, LSpend), s[i].customers) &&
      s[i].avgItems == Mean(SumWhere(ls, Label, i, LItems), s[i].customers) &&
      s[i].avgOrders == Mean(SumWhere(ls, Label, i, LOrders), s[i].customers)
  {
    if k <= 0 then [] else seq(k, i requires 0 <= i < k => Entry(ls, i))
  }

  /** The whole endpoint. KMeans rejects fewer than one cluster and fewer
      customers than clusters; the library's labelling is `fitPredict`. */
  function RunKMeans(raw: seq<Transaction>, k: int, fitPredict: seq<Customer> -> seq<int>): (r: Result<seq<ClusterSummary>>)
    requires forall cs :: |fitPredict(cs)| == |cs|
    ensures r.Failure? <==> k < 1 || |Prepare(raw)| < k
    ensures r.Success? ==> |r.value| == k
    ensures r.Success? ==> r.value == Summary(Attach(Prepare(raw), fitPredict(Prepare(raw))), k)
  {
    var cs := Prepare(raw);
    if k < 1 || |cs| < k then Failure("n_clusters must be between 1 and the number of customers")
    else Success(Summary(Attach(cs, fitPredict(cs)), k))
  }

  function Range(k: nat): (r: seq<int>)
    ensures |r| == k
    ensures forall i :: 0 <= i < k ==> r[i] == i
  {
    seq(k, i => i)
  }

  function TotalCount(s: seq<ClusterSummary>): int
  {
    if s == [] then 0 else s[0].customers + TotalCount(s[1..])
  }

  lemma {:induction false} TotalCountIsSumOver(s: seq<ClusterSummary>, ks: seq<int>, ls: seq<Labelled>)
    requires |s| == |ks|
    requires forall i :: 0 <= i < |s| ==> s[i].customers == CountWhere(ls, Label, ks[i])
    ensures TotalCount(s) as real == SumOver(ks, ls, Label, One)
  {
    if s != [] {
      CountIsSumOfOnes(ls, Label, ks[0]);
      TotalCountIsSumOver(s[1..], ks[1..], ls);
    }
  }

  /** With every label in 0..k-1 the clusters partition the customers:
      the per-cluster counts add up to the number of customers. */
  lemma SummaryPartitions(ls: seq<Labelled>, k: nat)
    requires forall i :: 0 <= i < |ls| ==> 0 <= ls[i].cluster < k
    ensures TotalCount(Summary(ls, k)) == |ls|
  {
    var ks := Range(k);
    var s := Summary(ls, k);
    TotalCountIsSumOver(s, ks, ls);
    forall i | 0 <= i < |ls| ensures Label(ls[i]) in ks {
      assert ks[ls[i].cluster] == ls[i].cluster;
    }
    Conservation(ks, ls, Label, One);
    SumOfOnes(ls);
  }

  /** End to end: when the library labels into 0..k-1, the summary counts
      every aggregated customer exactly once. */
  lemma RunKMeansCountsEveryCustomer(raw: seq<Transaction>, k: int, fitPredict: seq<Customer> -> seq<int>)
    requires forall cs :: |fitPredict(cs)| == |cs|
    requires forall cs, i :: 0 <= i < |fitPredict(cs)| ==> 0 <= fitPredict(cs)[i] < k
    requires RunKMeans(raw, k, fitPredict).Success?
    ensures TotalCount(RunKMeans(raw, k, fitPredict).value) == |Prepare(raw)|
  {
    var cs := Prepare(raw);
    var ls := Attach(cs, fitPredict(cs));
    SummaryPartitions(ls, k);
  }
}
