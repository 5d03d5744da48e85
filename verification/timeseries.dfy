/** `peak_sales_insights`: quantity sold per hour of day and per weekday,
    and the hour and the day that sold the most. */
module Timeseries {
  import opened Collections
  import opened Transactions
  import opened Grouping

  function HourKey(t: Transaction): int { t.invoiceDate.hour }

  /** Weekday groups are keyed by the alphabetical rank of the day name. */
  function DayKey(t: Transaction): int { AlphaRank(t.invoiceDate.weekday) }

  datatype Insights = Insights(bestHour: int, bestDay: Weekday,
                               hourlySales: seq<(int, real)>, weekdaySales: seq<(Weekday, real)>)

  function SalesOf(g: seq<(int, real)>): (xs: seq<real>)
    ensures |xs| == |g|
    ensures forall i :: 0 <= i < |g| ==> xs[i] == g[i].1
  {
    seq(|g|, i requires 0 <= i < |g| => g[i].1)
  }

  /** Turns the rank keys of the weekday groups back into days. */
  function DayEntries(g: seq<(int, real)>): (r: seq<(Weekday, real)>)
    requires forall i :: 0 <= i < |g| ==> 0 <= g[i].0 < 7
    ensures |r| == |g|
    ensures forall i :: 0 <= i < |g| ==> r[i] == (DayOfRank(g[i].0), g[i].1)
  {
    seq(|g|, i requires 0 <= i < |g| && 0 <= g[i].0 < 7 => (DayOfRank(g[i].0), g[i].1))
  }

  function DayValues(g: seq<(Weekday, real)>): real
  {
    if g == [] then 0.0 else g[0].1 + DayValues(g[1..])
  }

  lemma {:induction false} DayEntriesTotal(g: seq<(int, real)>)
    requires forall i :: 0 <= i < |g| ==> 0 <= g[i].0 < 7
    ensures DayValues(DayEntries(g)) == Values(g)
  {
    if g != [] {
      assert DayEntries(g)[1..] == DayEntries(g[1..]);
      DayEntriesTotal(g[1..]);
    }
  }

  /** `idxmax` of an empty series raises, so an empty table is an error. */
  function PeakSalesInsights(rows: seq<Transaction>): (r: Result<Insights>)
    ensures r.Failure? <==> rows == []
  {
    if rows == [] then Failure("attempt to get argmax of an empty sequence")
    else
      var hs := GroupSums(rows, HourKey, Quantity);
      var ds := GroupSums(rows, DayKey, Quantity);
      assert HourKey(rows[0]) in Keys(rows, HourKey);
      assert DayKey(rows[0]) in Keys(rows, DayKey);
      forall i | 0 <= i < |ds| ensures 0 <= ds[i].0 < 7 {
        assert ds[i].0 in Keys(rows, DayKey);
      }
      var h := ArgMax(SalesOf(hs));
      var d := ArgMax(SalesOf(ds));
      Success(Insights(hs[h].0, DayOfRank(ds[d].0), hs, DayEntries(ds)))
  }

  /** Some row of the table was sold in hour `h`. */
  predicate HourOccurs(rows: seq<Transaction>, h: int)
  {
    exists k :: 0 <= k < |rows| && rows[k].invoiceDate.hour == h
  }

  /** Some row of the table was sold on day `d`. */
  predicate DayOccurs(rows: seq<Transaction>, d: Weekday)
  {
    exists k :: 0 <= k < |rows| && rows[k].invoiceDate.weekday == d
  }

  /** `x` is a key of the series. */
  predicate Listed<K(==)>(g: seq<(K, real)>, x: K)
  {
    exists i :: 0 <= i < |g| && g[i].0 == x
  }

  /** One entry per hour occurring in the data, ascending by hour, each
      holding that hour's total quantity. */
  lemma HourlyMeaning(rows: seq<Transaction>)
    requires rows != []
    ensures forall i, j :: 0 <= i < j < |PeakSalesInsights(rows).value.hourlySales| ==>
      PeakSalesInsights(rows).value.hourlySales[i].0 < PeakSalesInsights(rows).value.hourlySales[j].0
    ensures forall h :: Listed(PeakSalesInsights(rows).value.hourlySales, h) <==> HourOccurs(rows, h)
    ensures forall i :: 0 <= i < |PeakSalesInsights(rows).value.hourlySales| ==>
      PeakSalesInsights(rows).value.hourlySales[i].1 ==
        SumWhere(rows, HourKey, PeakSalesInsights(rows).value.hourlySales[i].0, Quantity)
  {
    var hs := PeakSalesInsights(rows).value.hourlySales;
    assert hs == GroupSums(rows, HourKey, Quantity);
    forall h ensures Listed(hs, h) <==> HourOccurs(rows, h) {
      if Listed(hs, h) {
        var i :| 0 <= i < |hs| && hs[i].0 == h;
        assert h in Keys(rows, HourKey);
      }
      if HourOccurs(rows, h) {
        assert h in Keys(rows, HourKey);
        var i :| 0 <= i < |hs| && Keys(rows, HourKey)[i] == h;
        assert hs[i].0 == h;
      }
    }
  }

  /** One entry per weekday occurring in the data, in alphabetical order
      of the day names (so no day twice), each holding the total quantity
      of the rows sold on that day. */
  lemma WeekdayMeaning(rows: seq<Transaction>)
    requires rows != []
    ensures forall d :: Listed(PeakSalesInsights(rows).value.weekdaySales, d) <==> DayOccurs(rows, d)
    ensures forall i, j :: 0 <= i < j < |PeakSalesInsights(rows).value.weekdaySales| ==>
      LexLess(DayName(PeakSalesInsights(rows).value.weekdaySales[i].0),
              DayName(PeakSalesInsights(rows).value.weekdaySales[j].0)) &&
      PeakSalesInsights(rows).value.weekdaySales[i].0 != PeakSalesInsights(rows).value.weekdaySales[j].0
    ensures forall i :: 0 <= i < |PeakSalesInsights(rows).value.weekdaySales| ==>
      PeakSalesInsights(rows).value.weekdaySales[i].1 ==
        SumWhere(rows, DayKey, AlphaRank(PeakSalesInsights(rows).value.weekdaySales[i].0), Quantity)
  {
    var ws := PeakSalesInsights(rows).value.weekdaySales;
    var ds := GroupSums(rows, DayKey, Quantity);
    var ks := Keys(rows, DayKey);
    forall i | 0 <= i < |ds| ensures 0 <= ds[i].0 < 7 {
      assert ds[i].0 in ks;
    }
    assert ws == DayEntries(ds);
    forall i | 0 <= i < |ds| ensures AlphaRank(ws[i].0) == ds[i].0 {
      AlphaRankOrdersNames(ws[i].0, ws[i].0, ds[i].0);
    }
    forall i, j | 0 <= i < j < |ws|
      ensures LexLess(DayName(ws[i].0), DayName(ws[j].0)) && ws[i].0 != ws[j].0
    {
      assert ds[i].0 < ds[j].0;
      AlphaRankOrdersNames(ws[i].0, ws[j].0, 0);
    }
    forall d ensures Listed(ws, d) <==> DayOccurs(rows, d) {
      if Listed(ws, d) {
        var i :| 0 <= i < |ws| && ws[i].0 == d;
        assert ds[i].0 in ks;
        var k :| 0 <= k < |rows| && DayKey(rows[k]) == ds[i].0;
        AlphaRankOrdersNames(rows[k].invoiceDate.weekday, d, ds[i].0);
      }
      if DayOccurs(rows, d) {
        var k :| 0 <= k < |rows| && rows[k].invoiceDate.weekday == d;
        assert DayKey(rows[k]) == AlphaRank(d);
        assert AlphaRank(d) in ks;
        var i :| 0 <= i < |ks| && ks[i] == AlphaRank(d);
        AlphaRankOrdersNames(d, d, 0);
        assert ws[i].0 == d;
      }
    }
  }

  /** `best_hour` has the largest total of all hours, and any hour with the
      same total comes later (idxmax keeps the first maximum). */
  lemma BestHourIsFirstMaximum(rows: seq<Transaction>)
    requires rows != []
    ensures var ins := PeakSalesInsights(rows).value;
      (exists i :: 0 <= i < |ins.hourlySales| && ins.hourlySales[i].0 == ins.bestHour &&
        (forall j :: 0 <= j < |ins.hourlySales| ==> ins.hourlySales[j].1 <= ins.hourlySales[i].1) &&
        (forall j :: 0 <= j < i ==> ins.hourlySales[j].1 < ins.hourlySales[i].1))
  {
    var ins := PeakSalesInsights(rows).value;
    var hs := GroupSums(rows, HourKey, Quantity);
    var h := ArgMax(SalesOf(hs));
    assert ins.hourlySales[h].0 == ins.bestHour;
  }

  /** `best_day` has the largest total of all days, and any day with the
      same total has an alphabetically later name. */
  lemma BestDayIsFirstMaximum(rows: seq<Transaction>)
    requires rows != []
    ensures var ins := PeakSalesInsights(rows).value;
      (exists i :: 0 <= i < |ins.weekdaySales| && ins.weekdaySales[i].0 == ins.bestDay &&
        (forall j :: 0 <= j < |ins.weekdaySales| ==> ins.weekdaySales[j].1 <= ins.weekdaySales[i].1) &&
        (forall j :: 0 <= j < |ins.weekdaySales| && ins.weekdaySales[j].1 == ins.weekdaySales[i].1 ==>
           !LexLess(DayName(ins.weekdaySales[j].0), DayName(ins.bestDay))))
  {
    var ins := PeakSalesInsights(rows).value;
    var ds := GroupSums(rows, DayKey, Quantity);
    var d := ArgMax(SalesOf(ds));
    assert ins.weekdaySales[d].0 == ins.bestDay;
    forall j | 0 <= j < |ins.weekdaySales| && ins.weekdaySales[j].1 == ins.weekdaySales[d].1
      ensures !LexLess(DayName(ins.weekdaySales[j].0), DayName(ins.bestDay))
    {
      assert j >= d;
      assert ds[j].0 in Keys(rows, DayKey) && ds[d].0 in Keys(rows, DayKey);
      AlphaRankOrdersNames(ins.weekdaySales[j].0, ins.bestDay, ds[j].0);
      AlphaRankOrdersNames(ins.bestDay, ins.bestDay, ds[d].0);
      if j > d {
        assert ds[d].0 < ds[j].0;
      }
    }
  }

  /** The hourly totals, the weekday totals and the total quantity agree. */
  lemma TotalsAgree(rows: seq<Transaction>)
    requires rows != []
    ensures Values(PeakSalesInsights(rows).value.hourlySales) == Sum(rows, Quantity)
    ensures DayValues(PeakSalesInsights(rows).value.weekdaySales) == Sum(rows, Quantity)
  {
    var ds := GroupSums(rows, DayKey, Quantity);
    GroupSumsTotal(rows, HourKey, Quantity);
    GroupSumsTotal(rows, DayKey, Quantity);
    forall i | 0 <= i < |ds| ensures 0 <= ds[i].0 < 7 {
      assert ds[i].0 in Keys(rows, DayKey);
    }
    DayEntriesTotal(ds);
  }
}
