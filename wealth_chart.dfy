/** The yearly wealth breakdown of the wealth chart
    (components/calculators/realestate-pro/components/WealthChart.tsx:69-103): for every year of
    the term, the first monthly point at that year's boundary split into accumulated cash flow,
    principal paid down and appreciation, each rounded. */
module WealthChart {
  import opened Numerics
  import opened Types

  /** One bar of the chart, in whole currency units. */
  datatype WealthChartDataPoint = WealthChartDataPoint(year: int, cashFlow: int, equity: int, appreciation: int, total: int)

  /** `data.find((d) => d.month === m)`, as the index of the first point of month m. */
  function FindMonth(data: seq<ChartDataPoint>, m: int): (r: Option<nat>)
    ensures r.Some? ==> r.value < |data| && data[r.value].month == m
    ensures r.Some? ==> forall j :: 0 <= j < r.value ==> data[j].month != m
    ensures r.None? ==> forall j :: 0 <= j < |data| ==> data[j].month != m
  {
    if data == [] then None
    else if data[0].month == m then Some(0)
    else
      match FindMonth(data[1..], m)
      case None => None
      case Some(i) => Some(i + 1)
  }

  /** The bar of a year, from the point at its boundary: the running cash flow, the principal
      paid down and the growth of the value over the initial market value, each floored at
      zero and rounded, and the rounded sum of the three unrounded amounts. */
  function WealthEntry(year: int, point: ChartDataPoint, loanAmount: real, initialMarketValue: real): WealthChartDataPoint
  {
    var cashFlow := Max(0.0, point.cumulativeCashFlow);
    var equity := Max(0.0, loanAmount - point.mortgageBalance);
    var appreciation := Max(0.0, point.propertyValue - initialMarketValue);
    WealthChartDataPoint(year, Round(cashFlow), Round(equity), Round(appreciation), Round(cashFlow + equity + appreciation))
  }

  /** The bars of the years 0 .. count - 1 that have a point at their boundary, in year order. */
  function WealthUpTo(data: seq<ChartDataPoint>, count: nat, loanAmount: real, initialMarketValue: real): seq<WealthChartDataPoint>
  {
    if count == 0 then []
    else
      var rest := WealthUpTo(data, count - 1, loanAmount, initialMarketValue);
      match FindMonth(data, 12 * (count - 1))
      case None => rest
      case Some(i) => rest + [WealthEntry(count - 1, data[i], loanAmount, initialMarketValue)]
  }

  /** The number of years `for (year = 0; year <= mortgageTermYears; year++)` visits. */
  function YearCount(termYears: real): nat
  {
    if termYears < 0.0 then 0 else termYears.Floor + 1
  }

  /** `wealthData`: a loop over the years of the term that looks up each year's boundary point
      and pushes its bar when there is one. */
  method WealthData(data: seq<ChartDataPoint>, mortgageTermYears: real, loanAmount: real, initialMarketValue: real)
    returns (yearlyData: seq<WealthChartDataPoint>)
    ensures yearlyData == WealthUpTo(data, YearCount(mortgageTermYears), loanAmount, initialMarketValue)
  {
    yearlyData := [];
    var year := 0;
    while year as real <= mortgageTermYears
      invariant 0 <= year <= YearCount(mortgageTermYears)
      invariant yearlyData == WealthUpTo(data, year, loanAmount, initialMarketValue)
      decreases YearCount(mortgageTermYears) - year
    {
      var monthIndex := year * 12;
      var point := FindMonth(data, monthIndex);
      if point.Some? {
        var p := data[point.value];
        var cashFlow := Max(0.0, p.cumulativeCashFlow);
        var principalPaid := loanAmount - p.mortgageBalance;
        var equity := Max(0.0, principalPaid);
        var appreciation := Max(0.0, p.propertyValue - initialMarketValue);
        yearlyData := yearlyData + [WealthChartDataPoint(year, Round(cashFlow), Round(equity), Round(appreciation),
                                                         Round(cashFlow + equity + appreciation))];
      }
      year := year + 1;
    }
  }

  /** The bars come in strictly increasing year order, all within the visited years, so there
      are at most as many bars as years. */
  lemma {:induction false} WealthYears(data: seq<ChartDataPoint>, count: nat, loanAmount: real, initialMarketValue: real)
    ensures |WealthUpTo(data, count, loanAmount, initialMarketValue)| <= count
    ensures forall j :: 0 <= j < |WealthUpTo(data, count, loanAmount, initialMarketValue)| ==>
              0 <= WealthUpTo(data, count, loanAmount, initialMarketValue)[j].year < count
    ensures forall i, j :: 0 <= i < j < |WealthUpTo(data, count, loanAmount, initialMarketValue)| ==>
              WealthUpTo(data, count, loanAmount, initialMarketValue)[i].year
              < WealthUpTo(data, count, loanAmount, initialMarketValue)[j].year
  {
    if count > 0 {
      WealthYears(data, count - 1, loanAmount, initialMarketValue);
      var rest := WealthUpTo(data, count - 1, loanAmount, initialMarketValue);
      var r := WealthUpTo(data, count, loanAmount, initialMarketValue);
      if FindMonth(data, 12 * (count - 1)).Some? {
        assert r == rest + [WealthEntry(count - 1, data[FindMonth(data, 12 * (count - 1)).value], loanAmount, initialMarketValue)];
        assert forall j :: 0 <= j < |rest| ==> r[j] == rest[j];
      }
    }
  }

  /** A year within the visited ones has a bar exactly when some point lies at its boundary,
      and that bar is made from the first such point. */
  lemma {:induction false} WealthEntryOfYear(data: seq<ChartDataPoint>, count: nat, loanAmount: real, initialMarketValue: real, y: int)
    requires 0 <= y < count
    ensures FindMonth(data, 12 * y).Some? ==>
              exists j :: 0 <= j < |WealthUpTo(data, count, loanAmount, initialMarketValue)|
                          && WealthUpTo(data, count, loanAmount, initialMarketValue)[j]
                             == WealthEntry(y, data[FindMonth(data, 12 * y).value], loanAmount, initialMarketValue)
    ensures forall j :: 0 <= j < |WealthUpTo(data, count, loanAmount, initialMarketValue)|
                        && WealthUpTo(data, count, loanAmount, initialMarketValue)[j].year == y
                        ==> FindMonth(data, 12 * y).Some?
                            && WealthUpTo(data, count, loanAmount, initialMarketValue)[j]
                               == WealthEntry(y, data[FindMonth(data, 12 * y).value], loanAmount, initialMarketValue)
  {
    var rest := WealthUpTo(data, count - 1, loanAmount, initialMarketValue);
    var r := WealthUpTo(data, count, loanAmount, initialMarketValue);
    WealthYears(data, count - 1, loanAmount, initialMarketValue);
    if y < count - 1 {
      WealthEntryOfYear(data, count - 1, loanAmount, initialMarketValue, y);
    }
    if FindMonth(data, 12 * (count - 1)).Some? {
      var e := WealthEntry(count - 1, data[FindMonth(data, 12 * (count - 1)).value], loanAmount, initialMarketValue);
      assert r == rest + [e];
      assert forall j :: 0 <= j < |rest| ==> r[j] == rest[j];
      assert r[|rest|] == e;
      if y < count - 1 {
        if FindMonth(data, 12 * y).Some? {
          var j :| 0 <= j < |rest| && rest[j] == WealthEntry(y, data[FindMonth(data, 12 * y).value], loanAmount, initialMarketValue);
          assert r[j] == rest[j];
        }
      }
    } else {
      assert r == rest;
    }
  }

  /** Each bar's amounts are non-negative, no amount is above the total, and the total
      differs from the sum of the three rounded amounts by at most one. */
  lemma WealthEntryAmounts(year: int, point: ChartDataPoint, loanAmount: real, initialMarketValue: real)
    ensures var e := WealthEntry(year, point, loanAmount, initialMarketValue);
            && e.year == year
            && e.cashFlow >= 0 && e.equity >= 0 && e.appreciation >= 0
            && e.cashFlow <= e.total && e.equity <= e.total && e.appreciation <= e.total
            && -1 <= e.total - (e.cashFlow + e.equity + e.appreciation) <= 1
  {
    var cashFlow := Max(0.0, point.cumulativeCashFlow);
    var equity := Max(0.0, loanAmount - point.mortgageBalance);
    var appreciation := Max(0.0, point.propertyValue - initialMarketValue);
    var sum := cashFlow + equity + appreciation;
    RoundMonotone(0.0, cashFlow);
    RoundMonotone(0.0, equity);
    RoundMonotone(0.0, appreciation);
    RoundMonotone(cashFlow, sum);
    RoundMonotone(equity, sum);
    RoundMonotone(appreciation, sum);
  }

  /** A bar reads zero cash flow while the running cash flow is not positive, zero equity
      while nothing of the loan is paid down, and zero appreciation while the value is not
      above the initial market value. */
  lemma WealthEntryZeroes(year: int, point: ChartDataPoint, loanAmount: real, initialMarketValue: real)
    ensures point.cumulativeCashFlow <= 0.0 ==> WealthEntry(year, point, loanAmount, initialMarketValue).cashFlow == 0
    ensures point.mortgageBalance >= loanAmount ==> WealthEntry(year, point, loanAmount, initialMarketValue).equity == 0
    ensures point.propertyValue <= initialMarketValue ==> WealthEntry(year, point, loanAmount, initialMarketValue).appreciation == 0
  {
    RoundWhole(0);
  }

  /** On chart data with one point per month, month k at index k, covering `term` whole years,
      every year 0 .. term has its bar, made from the point of its first month. */
  lemma {:induction false} WealthOfMonthlyData(data: seq<ChartDataPoint>, term: nat, count: nat, loanAmount: real, initialMarketValue: real)
    requires forall k :: 0 <= k < |data| ==> data[k].month == k
    requires |data| == 12 * term + 1 && count <= term + 1
    ensures |WealthUpTo(data, count, loanAmount, initialMarketValue)| == count
    ensures forall y :: 0 <= y < count ==>
              WealthUpTo(data, count, loanAmount, initialMarketValue)[y] == WealthEntry(y, data[12 * y], loanAmount, initialMarketValue)
  {
    if count > 0 {
      WealthOfMonthlyData(data, term, count - 1, loanAmount, initialMarketValue);
      var m := 12 * (count - 1);
      assert data[m].month == m;
      var found := FindMonth(data, m);
      assert found.Some? ==> data[found.value].month == found.value;
      assert found == Some(m);
    }
  }
}
