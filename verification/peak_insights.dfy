/** The peak-sales page: the hourly and weekday series reshaped from the
    two JSON objects, the headline labels and the totals. */
module PeakInsights {
  import opened Collections

  /** One `[key, value]` pair of `Object.entries(hourly_sales)`, with the
      key already read by `parseInt`. */
  datatype HourSales = HourSales(hour: int, sales: real)

  /** One `[key, value]` pair of `Object.entries(weekday_sales)`. */
  datatype DaySales = DaySales(day: string, sales: real)

  /** The JSON body; each field may be absent. */
  datatype Peak = Peak(bestHour: Option<int>, bestDay: Option<string>,
                       hourlySales: Option<seq<HourSales>>, weekdaySales: Option<seq<DaySales>>)

  /** A headline value, or the "N/A" placeholder. */
  datatype Headline<T> = Shown(value: T) | NotAvailable

  /** `data?.best_hour || "N/A"`: hour 0 is falsy and shows as "N/A". */
  function BestHour(data: Option<Peak>): (h: Headline<int>)
    ensures h.Shown? <==> data.Some? && data.value.bestHour.Some? && data.value.bestHour.value != 0
    ensures h.Shown? ==> h.value == data.value.bestHour.value
  {
    if data.Some? && data.value.bestHour.Some? && data.value.bestHour.value != 0
    then Shown(data.value.bestHour.value) else NotAvailable
  }

  /** `data?.best_day || "N/A"`: the empty string is falsy. */
  function BestDay(data: Option<Peak>): (d: Headline<string>)
    ensures d.Shown? <==> data.Some? && data.value.bestDay.Some? && data.value.bestDay.value != ""
    ensures d.Shown? ==> d.value == data.value.bestDay.value
  {
    if data.Some? && data.value.bestDay.Some? && data.value.bestDay.value != ""
    then Shown(data.value.bestDay.value) else NotAvailable
  }

  /** A best hour of midnight is reported by the backend but not shown. */
  lemma MidnightShowsNotAvailable(data: Option<Peak>)
    requires data.Some? && data.value.bestHour == Some(0)
    ensures BestHour(data) == NotAvailable
  {
  }

  function NegHour(e: HourSales): real { -(e.hour as real) }

  /** The hourly series: every entry once, sorted by ascending hour
      (`sort((a, b) => a.hour - b.hour)`), or [] without the field. */
  function HourlyData(data: Option<Peak>): (r: seq<HourSales>)
    ensures data.None? || data.value.hourlySales.None? ==> r == []
    ensures data.Some? && data.value.hourlySales.Some? ==> multiset(r) == multiset(data.value.hourlySales.value)
    ensures forall i, j :: 0 <= i < j < |r| ==> r[i].hour <= r[j].hour
  {
    if data.Some? && data.value.hourlySales.Some? then SortDesc(data.value.hourlySales.value, NegHour)
    else []
  }

  const DAY_ORDER: seq<string> := ["Monday", "Tuesday", "Wednesday", "Thursday", "Friday", "Saturday", "Sunday"]

  /** `dayOrder.indexOf(day)`: the position in the week, or -1. */
  function DayIndex(day: string): (k: int)
    ensures -1 <= k < |DAY_ORDER|
    ensures k == -1 <==> day !in DAY_ORDER
    ensures k >= 0 ==> DAY_ORDER[k] == day
  {
    if day == "Monday" then 0
    else if day == "Tuesday" then 1
    else if day == "Wednesday" then 2
    else if day == "Thursday" then 3
    else if day == "Friday" then 4
    else if day == "Saturday" then 5
    else if day == "Sunday" then 6
    else -1
  }

  function NegDayIndex(e: DaySales): real { -(DayIndex(e.day) as real) }

  /** The weekday series: every entry once, in Monday-to-Sunday order. */
  function WeekdayData(data: Option<Peak>): (r: seq<DaySales>)
    ensures data.None? || data.value.weekdaySales.None? ==> r == []
    ensures data.Some? && data.value.weekdaySales.Some? ==> multiset(r) == multiset(data.value.weekdaySales.value)
    ensures forall i, j :: 0 <= i < j < |r| ==> DayIndex(r[i].day) <= DayIndex(r[j].day)
  {
    if data.Some? && data.value.weekdaySales.Some? then SortDesc(data.value.weekdaySales.value, NegDayIndex)
    else []
  }

  /** Names that are not weekdays (index -1) come before every real day,
      and real days follow the calendar week. */
  lemma WeekdayOrder(data: Option<Peak>, i: int, j: int)
    requires 0 <= i < j < |WeekdayData(data)|
    ensures WeekdayData(data)[j].day !in DAY_ORDER ==> WeekdayData(data)[i].day !in DAY_ORDER
    ensures WeekdayData(data)[i].day == "Sunday" ==> WeekdayData(data)[j].day == "Sunday"
  {
    var r := WeekdayData(data);
    if r[i].day == "Sunday" {
      assert DayIndex("Sunday") == 6 by {
        assert DAY_ORDER[6] == "Sunday";
        assert forall k :: 0 <= k < 6 ==> DAY_ORDER[k] != "Sunday";
      }
    }
  }

  function HourValue(e: HourSales): real { e.sales }

  function DayValue(e: DaySales): real { e.sales }

  /** The figures on the summary cards. */
  datatype Totals = Totals(weekly: real, hourly: real, avgDaily: real)

  /** Both totals of the two series, and the daily average guarded
      against an empty week. */
  function Summarize(week: seq<DaySales>, hours: seq<HourSales>): (t: Totals)
    ensures |week| == 0 ==> t.avgDaily == 0.0
    ensures |week| > 0 ==> t.avgDaily * |week| as real == t.weekly
  {
    var weekly := Sum(week, DayValue);
    Totals(weekly, Sum(hours, HourValue), GuardedAverage(weekly, |week|))
  }

  /** The cards of the page for one response. */
  function Cards(data: Option<Peak>): Totals
  {
    Summarize(WeekdayData(data), HourlyData(data))
  }

  /** `count > 0 ? total / count : 0`. */
  function GuardedAverage(total: real, count: nat): (a: real)
    ensures count == 0 ==> a == 0.0
    ensures count > 0 ==> a * count as real == total
  {
    if count > 0 then total / count as real else 0.0
  }

  /** The totals equal the sums of the fetched values: reordering the
      series changes nothing. */
  lemma TotalsOrderFree(data: Option<Peak>)
    ensures data.Some? && data.value.weekdaySales.Some? ==>
      Cards(data).weekly == Sum(data.value.weekdaySales.value, DayValue)
    ensures data.Some? && data.value.hourlySales.Some? ==>
      Cards(data).hourly == Sum(data.value.hourlySales.value, HourValue)
    ensures data.None? ==> Cards(data) == Totals(0.0, 0.0, 0.0)
  {
    if data.Some? && data.value.weekdaySales.Some? {
      SumPermutation(WeekdayData(data), data.value.weekdaySales.value, DayValue);
    }
    if data.Some? && data.value.hourlySales.Some? {
      SumPermutation(HourlyData(data), data.value.hourlySales.value, HourValue);
    }
  }
}
