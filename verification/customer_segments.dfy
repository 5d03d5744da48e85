/** The customer-segments page: the headline customer count, the spend
    scale and the three-colour spend bar per cluster. */
module CustomerSegments {
  import opened Collections

  /** One entry of the segmentation response as the page reads it. */
  datatype Segment = Segment(clusterId: int, customers: int, avgSpend: real)

  /** `segments.reduce((sum, s) => sum + s.customers, 0)`. */
  function TotalCustomers(segs: seq<Segment>): int
  {
    if segs == [] then 0 else segs[0].customers + TotalCustomers(segs[1..])
  }

  /** With non-negative counts every segment is part of the total. */
  lemma {:induction false} TotalCustomersBounds(segs: seq<Segment>)
    requires forall s :: s in segs ==> s.customers >= 0
    ensures TotalCustomers(segs) >= 0
    ensures forall s :: s in segs ==> s.customers <= TotalCustomers(segs)
  {
    if segs != [] {
      TotalCustomersBounds(segs[1..]);
      assert forall s :: s in segs ==> s == segs[0] || s in segs[1..];
    }
  }

  /** The total splits over a concatenation of segment lists. */
  lemma {:induction false} TotalCustomersAppend(a: seq<Segment>, b: seq<Segment>)
    ensures TotalCustomers(a + b) == TotalCustomers(a) + TotalCustomers(b)
  {
    if a == [] {
      assert a + b == b;
    } else {
      assert (a + b)[1..] == a[1..] + b;
      TotalCustomersAppend(a[1..], b);
    }
  }

  function AvgSpend(s: Segment): real { s.avgSpend }

  /** `Math.max(...segments.map(s => s.avg_spend), 1)`. */
  function MaxSpend(segs: seq<Segment>): (m: real)
    ensures m >= 1.0
    ensures forall s :: s in segs ==> s.avgSpend <= m
    ensures m == 1.0 || exists s :: s in segs && s.avgSpend == m
  {
    MaxWithFloor(segs, AvgSpend, 1.0)
  }

  /** `avg_spend / maxSpend` for one segment of the list. */
  function SpendRatio(segs: seq<Segment>, s: Segment): real
  {
    s.avgSpend / MaxSpend(segs)
  }

  /** The ratio never exceeds 1, is non-negative for a non-negative spend,
      and is exactly 1 for the segment that sets a scale above the floor. */
  lemma SpendRatioBounds(segs: seq<Segment>, s: Segment)
    requires s in segs
    ensures SpendRatio(segs, s) <= 1.0
    ensures s.avgSpend >= 0.0 ==> SpendRatio(segs, s) >= 0.0
    ensures s.avgSpend == MaxSpend(segs) ==> SpendRatio(segs, s) == 1.0
  {
    DivideByScale(s.avgSpend, MaxSpend(segs));
  }

  lemma DivideByScale(x: real, m: real)
    requires m >= 1.0 && x <= m
    ensures x / m <= 1.0
    ensures x >= 0.0 ==> x / m >= 0.0
    ensures x == m ==> x / m == 1.0
  {
    assert (x / m) * m == x;
  }

  /** The bar colour, highest first. */
  datatype Tier = Top | Middle | Bottom

  function TierOf(ratio: real): Tier
  {
    if ratio > 0.6 then Top else if ratio > 0.3 then Middle else Bottom
  }

  /** The bounds are strict: a ratio of exactly 0.6 is middle and exactly
      0.3 is bottom; a larger ratio never lands in a lower tier. */
  lemma TierBoundaries(a: real, b: real)
    ensures TierOf(0.6) == Middle && TierOf(0.3) == Bottom
    ensures TierOf(a) == Top <==> a > 0.6
    ensures TierOf(a) == Bottom <==> a <= 0.3
    ensures a <= b && TierOf(a) == Top ==> TierOf(b) == Top
    ensures a <= b && TierOf(b) == Bottom ==> TierOf(a) == Bottom
  {
  }
}
