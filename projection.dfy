/** `generateProjectionData` (components/calculators/realestate-v2/utils/calculations.ts:279-389):
    the month-by-month projection of rent, property value, mortgage balance, equity and cash
    flow, specified month by month by closed forms and proved against them. The monthly
    appreciation factor `Math.pow(1 + appreciationRate / 100, 1 / 12)` is the parameter `g`;
    `d` stands for the derived values of the inputs. */
module Projection {
  import opened Numerics
  import opened Types
  import opened Amortization
  import opened Calculations

  /** The inputs the projection can run on: derived values are defined and
      `new Array(mortgageTermYears * 12 + 1)` is a valid allocation, i.e. the term is a whole,
      non-negative number of months. */
  predicate EngineDefined(inputs: RealEstateInputs)
  {
    && DerivedDefined(inputs)
    && WholeMonths(inputs.mortgageTermYears)
    && NumPayments(inputs.mortgageTermYears) >= 0
  }

  /** `TOTAL_MONTHS`. */
  function TotalMonths(inputs: RealEstateInputs): nat
    requires EngineDefined(inputs)
  {
    NumPayments(inputs.mortgageTermYears)
  }

  /** The rent in month k: raised by the yearly factor once at every completed year. */
  function RentAt(inputs: RealEstateInputs, k: nat): real
  {
    inputs.monthlyRent * Pow(1.0 + inputs.rentGrowthRate / 100.0, k / 12)
  }

  /** The property value in month k: the market value compounded monthly by g. */
  function ValueAt(d: DerivedValues, g: real, k: nat): real
  {
    d.marketValue * Pow(g, k)
  }

  /** The mortgage balance in month k: k steps of the projection's running balance. */
  function BalanceAt(inputs: RealEstateInputs, d: DerivedValues, k: nat): real
  {
    BalanceAfter(d.loanAmount, MonthlyRate(inputs.mortgageRate), d.monthlyMortgage, k)
  }

  /** The point the loop body stores for a month (calculations.ts:342-374), from the running
      state after that month's updates: equity and its percentage, the expenses at the current
      rent and value, the payment while a balance is owed, the running cash flow and the equity
      built since purchase. */
  function MonthPoint(inputs: RealEstateInputs, d: DerivedValues, month: nat,
                      rent: real, value: real, balance: real, cumulativeBefore: real): ChartDataPoint
  {
    var equity := value - balance;
    var totalExpenses := rent * (inputs.vacancyRate / 100.0) + inputs.insuranceTaxMonthly
                         + rent * (inputs.propertyManagementPercent / 100.0)
                         + value * ((inputs.maintenancePercent / 100.0) / 12.0);
    var effectiveMortgage := if balance > 0.0 then d.monthlyMortgage else 0.0;
    var monthlyCashFlow := rent - totalExpenses - effectiveMortgage;
    ChartDataPoint(
      month := month,
      year := month / 12 + 1,
      monthlyRent := rent,
      propertyValue := value,
      mortgageBalance := balance,
      equity := equity,
      equityPercent := if value > 0.0 then (equity / value) * 100.0 else 0.0,
      monthlyCashFlow := monthlyCashFlow,
      cumulativeCashFlow := cumulativeBefore + monthlyCashFlow,
      totalEquityBuilt := d.downPayment + (value - d.marketValue) + (d.loanAmount - balance))
  }

  /** The chart point of month k: the stored point for the closed-form rent, value and balance
      of that month, after the running cash flow of the months before it. */
  function PointAt(inputs: RealEstateInputs, d: DerivedValues, g: real, k: nat): ChartDataPoint
  {
    MonthPoint(inputs, d, k, RentAt(inputs, k), ValueAt(d, g, k), BalanceAt(inputs, d, k),
               if k == 0 then 0.0 else PointAt(inputs, d, g, k - 1).cumulativeCashFlow)
  }

  /** Rent changes only at a year boundary, where it is multiplied by the yearly factor. */
  lemma RentStep(inputs: RealEstateInputs, k: nat)
    requires k > 0
    ensures k % 12 == 0 ==> RentAt(inputs, k) == RentAt(inputs, k - 1) * (1.0 + inputs.rentGrowthRate / 100.0)
    ensures k % 12 != 0 ==> RentAt(inputs, k) == RentAt(inputs, k - 1)
  {
    var f := 1.0 + inputs.rentGrowthRate / 100.0;
    if k % 12 == 0 {
      assert k / 12 == (k - 1) / 12 + 1;
      PowSucc(f, (k - 1) / 12);
      assert RentAt(inputs, k) == inputs.monthlyRent * (Pow(f, (k - 1) / 12) * f);
    } else {
      assert k / 12 == (k - 1) / 12;
    }
  }

  /** Every month after the first multiplies the value by g. */
  lemma ValueStep(d: DerivedValues, g: real, k: nat)
    requires k > 0
    ensures ValueAt(d, g, k) == ValueAt(d, g, k - 1) * g
  {
    assert Pow(g, k) == g * Pow(g, k - 1);
    assert d.marketValue * (g * Pow(g, k - 1)) == (d.marketValue * Pow(g, k - 1)) * g;
  }

  /** The running state of the projection loop: rent, value, balance and cash flow so far. */
  datatype LoopState = LoopState(rent: real, value: real, balance: real, cumulative: real)

  /** The running state when month m begins: the initial values for m = 0, otherwise the
      values of month m - 1. */
  function StateBefore(inputs: RealEstateInputs, d: DerivedValues, g: real, m: nat): LoopState
  {
    if m == 0 then LoopState(inputs.monthlyRent, d.marketValue, d.loanAmount, 0.0)
    else LoopState(RentAt(inputs, m - 1), ValueAt(d, g, m - 1), BalanceAt(inputs, d, m - 1),
                   PointAt(inputs, d, g, m - 1).cumulativeCashFlow)
  }

  /** Month 0 starts from the closed forms at 0: the initial rent, value and loan. */
  lemma StateAtStart(inputs: RealEstateInputs, d: DerivedValues, g: real)
    ensures StateBefore(inputs, d, g, 0).rent == RentAt(inputs, 0)
    ensures StateBefore(inputs, d, g, 0).value == ValueAt(d, g, 0)
    ensures StateBefore(inputs, d, g, 0).balance == BalanceAt(inputs, d, 0)
  {
    assert Pow(1.0 + inputs.rentGrowthRate / 100.0, 0) == 1.0;
    assert Pow(g, 0) == 1.0;
  }

  /** One pass of the projection loop's body (calculations.ts:321-374): the month's mortgage
      step, appreciation and rent growth, then the point stored for the month. */
  method ProjectMonth(inputs: RealEstateInputs, d: DerivedValues, g: real, month: nat,
                      before: LoopState) returns (after: LoopState, point: ChartDataPoint)
    requires before == StateBefore(inputs, d, g, month)
    ensures point == PointAt(inputs, d, g, month)
    ensures after == StateBefore(inputs, d, g, month + 1)
  {
    var currentRent := before.rent;
    var currentValue := before.value;
    var mortgageBalance := before.balance;
    if month > 0 {
      mortgageBalance := AmortizeMonth(mortgageBalance, MonthlyRate(inputs.mortgageRate), d.monthlyMortgage);
      currentValue := currentValue * g;
      ValueStep(d, g, month);
      RentStep(inputs, month);
      if month % 12 == 0 {
        currentRent := currentRent * (1.0 + inputs.rentGrowthRate / 100.0);
      }
    } else {
      StateAtStart(inputs, d, g);
    }
    assert currentRent == RentAt(inputs, month) && currentValue == ValueAt(d, g, month);
    assert mortgageBalance == BalanceAt(inputs, d, month);
    point := MonthPoint(inputs, d, month, currentRent, currentValue, mortgageBalance, before.cumulative);
    after := LoopState(currentRent, currentValue, mortgageBalance, point.cumulativeCashFlow);
  }

  /** The points of months 0 to n - 1, in order. */
  function Points(inputs: RealEstateInputs, d: DerivedValues, g: real, n: nat): (s: seq<ChartDataPoint>)
    ensures |s| == n
  {
    if n == 0 then [] else Points(inputs, d, g, n - 1) + [PointAt(inputs, d, g, n - 1)]
  }

  lemma {:induction false} PointsAreThePoints(inputs: RealEstateInputs, d: DerivedValues, g: real, n: nat)
    ensures forall k :: 0 <= k < n ==> Points(inputs, d, g, n)[k] == PointAt(inputs, d, g, k)
  {
    if n > 0 {
      PointsAreThePoints(inputs, d, g, n - 1);
    }
  }

  /** The loop of `generateProjectionData` (calculations.ts:319-376): month by month the
      running state is updated as in the source and the month's point is stored in a new
      array of `totalMonths + 1` points; every stored point is the specified one. */
  method ProjectMonths(inputs: RealEstateInputs, d: DerivedValues, g: real, totalMonths: nat)
    returns (chartData: array<ChartDataPoint>)
    ensures fresh(chartData)
    ensures chartData.Length == totalMonths + 1
    ensures forall k :: 0 <= k < chartData.Length ==> chartData[k] == PointAt(inputs, d, g, k)
  {
    chartData := new ChartDataPoint[totalMonths + 1];
    var state := LoopState(inputs.monthlyRent, d.marketValue, d.loanAmount, 0.0);
    var month := 0;
    while month <= totalMonths
      invariant 0 <= month <= totalMonths + 1
      invariant state == StateBefore(inputs, d, g, month)
      invariant chartData[..month] == Points(inputs, d, g, month)
    {
      var point;
      state, point := ProjectMonth(inputs, d, g, month, state);
      chartData[month] := point;
      assert chartData[..month + 1] == chartData[..month] + [point];
      month := month + 1;
    }
    assert chartData[..] == chartData[..totalMonths + 1];
    PointsAreThePoints(inputs, d, g, totalMonths + 1);
  }

  /** `generateProjectionData`: the chart of every month of the term, the year-1 results, and
      the points of month 180 (or the last month, for a shorter term) and of the last month. */
  method GenerateProjectionData(inputs: RealEstateInputs, g: real) returns (p: ProjectionData)
    requires EngineDefined(inputs)
    ensures |p.chartData| == TotalMonths(inputs) + 1
    ensures forall k :: 0 <= k < |p.chartData| ==> p.chartData[k] == PointAt(inputs, CalculateDerivedValues(inputs), g, k)
    ensures p.summary.year1 == Year1Of(inputs, CalculateDerivedValues(inputs))
    ensures p.summary.year15 == p.chartData[MinInt(180, TotalMonths(inputs))]
    ensures p.summary.year30 == p.chartData[TotalMonths(inputs)]
  {
    var derived := CalculateDerivedValues(inputs);
    var totalMonths := TotalMonths(inputs);
    var chartData := ProjectMonths(inputs, derived, g, totalMonths);
    var year1 := CalculateYear1Results(inputs, derived);
    p := ProjectionData(chartData[..], Summary(year1, chartData[MinInt(180, totalMonths)], chartData[totalMonths]));
  }
}
