/** The spend-prediction page: the predictions sorted by spend, the
    revenue cards, the three-level badge and the paged customer list. */
module SpendPrediction {
  import opened Collections
  import opened Api
  import Pagination

  /** `res.sort((a, b) => b.predicted_spend - a.predicted_spend)`; the sort
      is stable, so customers with equal predictions keep the response's order. */
  function SortBySpend(res: seq<Prediction>): (r: seq<Prediction>)
    ensures multiset(r) == multiset(res)
    ensures forall i, j :: 0 <= i < j < |r| ==> r[i].predictedSpend >= r[j].predictedSpend
    ensures forall c :: WithKey(r, PredictedSpend, c) == WithKey(res, PredictedSpend, c)
  {
    SortDesc(res, PredictedSpend)
  }

  /** `Math.max(...data.map(item => item.predicted_spend), 1)`, the bar scale. */
  function MaxSpend(data: seq<Prediction>): (m: real)
    ensures m >= 1.0
    ensures forall p :: p in data ==> p.predictedSpend <= m
    ensures m == 1.0 || exists p :: p in data && p.predictedSpend == m
  {
    MaxWithFloor(data, PredictedSpend, 1.0)
  }

  /** Total expected revenue. */
  function TotalSpend(data: seq<Prediction>): real
  {
    Sum(data, PredictedSpend)
  }

  /** `totalPredictedSpend / data.length`: there is no guard, so an empty
      list gives 0/0, which is NaN. */
  function AverageSpend(data: seq<Prediction>): (a: Float)
    ensures a.NaN? <==> |data| == 0
    ensures a.Num? ==> a.v * |data| as real == TotalSpend(data)
  {
    if |data| == 0 then NaN else Num(TotalSpend(data) / |data| as real)
  }

  /** The spend badge, lowest to highest. */
  datatype Level = Low | Medium | High

  function Rank(l: Level): nat
  {
    match l
    case Low => 0
    case Medium => 1
    case High => 2
  }

  function Label(l: Level): string
  {
    match l
    case High => "High value"
    case Medium => "Medium"
    case Low => "Low"
  }

  /** The badge of one record against the average: at least 1.5 times the
      average is high, at least 0.75 times is medium. Comparisons against
      NaN are false, so every record is low when the average is NaN. */
  function Badge(spend: real, avg: Float): Level
  {
    match avg
    case NaN => Low
    case Num(a) =>
      if spend >= a * 1.5 then High
      else if spend >= a * 0.75 then Medium
      else Low
  }

  /** The badge thresholds, and a higher spend never gets a lower badge. */
  lemma BadgeThresholds(spend: real, other: real, avg: real)
    ensures Badge(spend, Num(avg)) == High <==> spend >= 1.5 * avg
    ensures Badge(spend, Num(avg)) == Medium <==> spend < 1.5 * avg && spend >= 0.75 * avg
    ensures Badge(spend, Num(avg)) == Low <==> spend < 1.5 * avg && spend < 0.75 * avg
    ensures spend <= other ==> Rank(Badge(spend, Num(avg))) <= Rank(Badge(other, Num(avg)))
  {
  }

  /** With an average of 100: 160 is high, 90 is medium and 50 is low. */
  lemma BadgeExamples()
    ensures Label(Badge(160.0, Num(100.0))) == "High value"
    ensures Label(Badge(90.0, Num(100.0))) == "Medium"
    ensures Label(Badge(50.0, Num(100.0))) == "Low"
  {
  }

  /** What the page derives from one response and the current page. */
  datatype View = View(sorted: seq<Prediction>, totalPages: nat, pageRows: seq<Prediction>,
                       maxSpend: real, total: real, average: Float)

  function Render(res: seq<Prediction>, currentPage: int): View
  {
    var sorted := SortBySpend(res);
    View(sorted, Pagination.TotalPages(|sorted|), Pagination.PageSlice(sorted, currentPage),
         MaxSpend(sorted), TotalSpend(sorted), AverageSpend(sorted))
  }

  /** The cards do not depend on the order of the response: sorting keeps
      the total, the count and therefore the average. */
  lemma RenderTotalsOrderFree(res: seq<Prediction>, currentPage: int)
    ensures Render(res, currentPage).total == TotalSpend(res)
    ensures Render(res, currentPage).average == AverageSpend(res)
    ensures Render(res, currentPage).totalPages == Pagination.TotalPages(|res|)
  {
    SumPermutation(SortBySpend(res), res, PredictedSpend);
    assert |SortBySpend(res)| == |multiset(SortBySpend(res))| == |multiset(res)| == |res|;
  }

  /** The records on a page in range are consecutive records of the sorted
      list, so the page is itself sorted by spend, and each has a badge. */
  lemma PageRowsSorted(res: seq<Prediction>, currentPage: int)
    requires 1 <= currentPage <= Render(res, currentPage).totalPages
    ensures 1 <= |Render(res, currentPage).pageRows| <= Pagination.PAGE_SIZE
    ensures forall i, j :: 0 <= i < j < |Render(res, currentPage).pageRows| ==>
      Render(res, currentPage).pageRows[i].predictedSpend >= Render(res, currentPage).pageRows[j].predictedSpend
  {
    var sorted := SortBySpend(res);
    Pagination.PageSliceInRange(sorted, currentPage);
  }
}
