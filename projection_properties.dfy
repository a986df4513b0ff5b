/** What the monthly projection promises about its points, stated over the specification
    functions that `Projection.GenerateProjectionData` is proved against. */
module ProjectionProperties {
  import opened Numerics
  import opened Types
  import opened Amortization
  import opened Calculations
  import opened Projection

  /** The projection's inline expenses (calculations.ts:344-347) are `calculateMonthlyExpenses`
      at the current rent and value. */
  lemma InlineExpenses(inputs: RealEstateInputs, rent: real, value: real)
    ensures rent * (inputs.vacancyRate / 100.0) + inputs.insuranceTaxMonthly
            + rent * (inputs.propertyManagementPercent / 100.0)
            + value * ((inputs.maintenancePercent / 100.0) / 12.0)
            == CalculateMonthlyExpenses(rent, value, inputs).total
  {
    assert value * ((inputs.maintenancePercent / 100.0) / 12.0) == value * (inputs.maintenancePercent / 100.0) / 12.0;
  }

  /** Every point is labelled with its own month and year and carries the closed-form rent,
      value and balance of that month. */
  lemma PointLabels(inputs: RealEstateInputs, d: DerivedValues, g: real, k: nat)
    ensures var p := PointAt(inputs, d, g, k);
            && p.month == k && p.year == k / 12 + 1
            && p.monthlyRent == RentAt(inputs, k)
            && p.propertyValue == ValueAt(d, g, k)
            && p.mortgageBalance == BalanceAt(inputs, d, k)
  {
  }

  /** Every point satisfies the documented relations between its fields; the equity built since
      purchase is also the equity less the instant equity of the purchase. */
  lemma PointRelations(inputs: RealEstateInputs, d: DerivedValues, g: real, k: nat)
    requires DerivedDefined(inputs) && d == CalculateDerivedValues(inputs)
    ensures var p := PointAt(inputs, d, g, k);
            && p.equity == p.propertyValue - p.mortgageBalance
            && (p.propertyValue <= 0.0 ==> p.equityPercent == 0.0)
            && (p.propertyValue > 0.0 ==> p.equityPercent == p.equity / p.propertyValue * 100.0)
            && p.totalEquityBuilt == d.downPayment + (p.propertyValue - d.marketValue) + (d.loanAmount - p.mortgageBalance)
            && p.totalEquityBuilt == p.equity - d.instantEquity
  {
    assert d.downPayment + d.loanAmount == inputs.purchasePrice;
  }

  /** The cash flow of a month is the rent less `calculateMonthlyExpenses` at that month's rent
      and value, less the payment exactly when a balance is still owed after the month's step. */
  lemma PointCashFlow(inputs: RealEstateInputs, d: DerivedValues, g: real, k: nat)
    ensures var p := PointAt(inputs, d, g, k);
            p.monthlyCashFlow
            == p.monthlyRent - CalculateMonthlyExpenses(p.monthlyRent, p.propertyValue, inputs).total
               - (if p.mortgageBalance > 0.0 then d.monthlyMortgage else 0.0)
  {
    InlineExpenses(inputs, RentAt(inputs, k), ValueAt(d, g, k));
  }

  /** The running cash flow adds each month's cash flow to that of the months before it. */
  lemma CumulativeRecurrence(inputs: RealEstateInputs, d: DerivedValues, g: real, k: nat)
    ensures k == 0 ==> PointAt(inputs, d, g, k).cumulativeCashFlow == PointAt(inputs, d, g, k).monthlyCashFlow
    ensures k > 0 ==> PointAt(inputs, d, g, k).cumulativeCashFlow
                      == PointAt(inputs, d, g, k - 1).cumulativeCashFlow + PointAt(inputs, d, g, k).monthlyCashFlow
  {
  }

  /** The sum of the monthly cash flows of a run of points. */
  function SumCashFlow(points: seq<ChartDataPoint>): real
  {
    if points == [] then 0.0 else SumCashFlow(points[..|points| - 1]) + points[|points| - 1].monthlyCashFlow
  }

  /** The running cash flow of month n - 1 is the sum of the cash flows of months 0 to n - 1. */
  lemma {:induction false} CumulativeIsSumOfMonths(inputs: RealEstateInputs, d: DerivedValues, g: real, n: nat)
    requires n > 0
    ensures PointAt(inputs, d, g, n - 1).cumulativeCashFlow == SumCashFlow(Points(inputs, d, g, n))
  {
    var s := Points(inputs, d, g, n);
    assert s[..|s| - 1] == Points(inputs, d, g, n - 1);
    if n > 1 {
      CumulativeIsSumOfMonths(inputs, d, g, n - 1);
    } else {
      assert Points(inputs, d, g, 0) == [];
    }
  }

  /** Month 0 carries the initial rent, market value and loan balance, and, as the source is
      written, deducts a full payment from its cash flow when there is a loan, although no
      payment step has run yet. */
  lemma MonthZero(inputs: RealEstateInputs, d: DerivedValues, g: real)
    ensures PointAt(inputs, d, g, 0).monthlyRent == inputs.monthlyRent
    ensures PointAt(inputs, d, g, 0).propertyValue == d.marketValue
    ensures PointAt(inputs, d, g, 0).mortgageBalance == d.loanAmount
    ensures PointAt(inputs, d, g, 0).cumulativeCashFlow == PointAt(inputs, d, g, 0).monthlyCashFlow
    ensures d.loanAmount > 0.0 ==>
              PointAt(inputs, d, g, 0).monthlyCashFlow
              == inputs.monthlyRent - CalculateMonthlyExpenses(inputs.monthlyRent, d.marketValue, inputs).total
                 - d.monthlyMortgage
  {
    StateAtStart(inputs, d, g);
    PointCashFlow(inputs, d, g, 0);
  }

  /** The facts about the running balance that need a non-negative rate and loan and a term
      of whole months. */
  predicate BalanceDomain(inputs: RealEstateInputs)
  {
    && EngineDefined(inputs)
    && inputs.mortgageRate >= 0.0
    && LoanAmount(inputs) >= 0.0
  }

  /** The projection's running balance is `calculateRemainingBalance` at every month of the term. */
  lemma BalanceAtIsRemainingBalance(inputs: RealEstateInputs, d: DerivedValues, k: nat)
    requires BalanceDomain(inputs) && d == CalculateDerivedValues(inputs)
    requires k <= TotalMonths(inputs)
    ensures BalanceAt(inputs, d, k) == RemainingBalance(d.loanAmount, inputs.mortgageRate, inputs.mortgageTermYears, k)
  {
    if d.loanAmount > 0.0 {
      IncrementalMatchesClosedForm(d.loanAmount, inputs.mortgageRate, inputs.mortgageTermYears, k);
    } else {
      ZeroLoanStaysZero(d.loanAmount, MonthlyRate(inputs.mortgageRate), d.monthlyMortgage, k);
    }
  }

  /** The running balance stays in [0, loanAmount], never increases, is still positive before
      the last month of the term when there is a loan, and is exactly 0 in the last month. */
  lemma BalanceAtBounds(inputs: RealEstateInputs, d: DerivedValues, k: nat)
    requires BalanceDomain(inputs) && d == CalculateDerivedValues(inputs)
    requires k <= TotalMonths(inputs)
    ensures 0.0 <= BalanceAt(inputs, d, k) <= d.loanAmount
    ensures k < TotalMonths(inputs) ==> BalanceAt(inputs, d, k + 1) <= BalanceAt(inputs, d, k)
    ensures k == TotalMonths(inputs) ==> BalanceAt(inputs, d, k) == 0.0
    ensures k < TotalMonths(inputs) && d.loanAmount > 0.0 ==> BalanceAt(inputs, d, k) > 0.0
  {
    if d.loanAmount > 0.0 {
      BalanceAfterBounds(d.loanAmount, inputs.mortgageRate, inputs.mortgageTermYears, k);
      IncrementalMatchesClosedForm(d.loanAmount, inputs.mortgageRate, inputs.mortgageTermYears, k);
      RemainingBalanceIsClosedForm(d.loanAmount, inputs.mortgageRate, inputs.mortgageTermYears, k);
      ClosedFormBounds(d.loanAmount, inputs.mortgageRate, inputs.mortgageTermYears, k);
    } else {
      ZeroLoanStaysZero(d.loanAmount, MonthlyRate(inputs.mortgageRate), d.monthlyMortgage, k);
      ZeroLoanStaysZero(d.loanAmount, MonthlyRate(inputs.mortgageRate), d.monthlyMortgage, k + 1);
    }
  }

  /** With a loan, the payment is deducted in every month before the last one of the term and
      not in the last one, where the balance has reached 0. */
  lemma PaymentDeductedUntilPayoff(inputs: RealEstateInputs, d: DerivedValues, g: real, k: nat)
    requires BalanceDomain(inputs) && d == CalculateDerivedValues(inputs)
    requires d.loanAmount > 0.0 && k <= TotalMonths(inputs)
    ensures var p := PointAt(inputs, d, g, k);
            p.monthlyCashFlow
            == p.monthlyRent - CalculateMonthlyExpenses(p.monthlyRent, p.propertyValue, inputs).total
               - (if k < TotalMonths(inputs) then d.monthlyMortgage else 0.0)
  {
    BalanceAtBounds(inputs, d, k);
    PointCashFlow(inputs, d, g, k);
  }

  /** A monthly factor whose twelfth power is the yearly factor `1 + a/100` is at least one when
      the appreciation rate a is not negative. */
  lemma MonthlyFactorAtLeastOne(g: real, appreciationRate: real)
    requires g >= 0.0 && Pow(g, 12) == 1.0 + appreciationRate / 100.0 && appreciationRate >= 0.0
    ensures g >= 1.0
  {
    if g < 1.0 {
      PowBelowOne(g, 12);
    }
  }

  /** At every year boundary the value is the market value compounded yearly at the
      appreciation rate. */
  lemma ValueAtYear(inputs: RealEstateInputs, d: DerivedValues, g: real, y: nat)
    requires Pow(g, 12) == 1.0 + inputs.appreciationRate / 100.0
    ensures ValueAt(d, g, 12 * y) == d.marketValue * Pow(1.0 + inputs.appreciationRate / 100.0, y)
  {
    PowMul12(g, y);
  }

  /** With a non-negative market value and appreciation rate the value never decreases. */
  lemma ValueNondecreasing(inputs: RealEstateInputs, d: DerivedValues, g: real, j: nat, k: nat)
    requires g >= 0.0 && Pow(g, 12) == 1.0 + inputs.appreciationRate / 100.0
    requires inputs.appreciationRate >= 0.0 && d.marketValue >= 0.0 && j <= k
    ensures ValueAt(d, g, j) <= ValueAt(d, g, k)
  {
    MonthlyFactorAtLeastOne(g, inputs.appreciationRate);
    PowMonotone(g, j, k);
  }

  /** Rent is constant within a year and, in year y (months 12y to 12y + 11), is the initial rent
      grown y times by the yearly factor. */
  lemma RentInYear(inputs: RealEstateInputs, y: nat, m: nat)
    requires m < 12
    ensures RentAt(inputs, 12 * y + m) == inputs.monthlyRent * Pow(1.0 + inputs.rentGrowthRate / 100.0, y)
  {
    assert (12 * y + m) / 12 == y;
  }

  /** With a non-negative rent and growth rate the rent never decreases. */
  lemma RentNondecreasing(inputs: RealEstateInputs, j: nat, k: nat)
    requires inputs.monthlyRent >= 0.0 && inputs.rentGrowthRate >= 0.0 && j <= k
    ensures RentAt(inputs, j) <= RentAt(inputs, k)
  {
    PowMonotone(1.0 + inputs.rentGrowthRate / 100.0, j / 12, k / 12);
  }

  /** The principal repaid in year 1 by the year-1 loop is the loan less the balance the
      projection shows in month 12. */
  lemma Year1PaydownMatchesChart(inputs: RealEstateInputs, d: DerivedValues, g: real)
    ensures Year1Of(inputs, d).withLeverage.principalPaydown == d.loanAmount - PointAt(inputs, d, g, 12).mortgageBalance
  {
  }

  /** Net worth, as the chart tooltip recomputes it (ProjectionChart.tsx:137) and as the
      declared but never filled `netWorth` field documents it. */
  function NetWorth(p: ChartDataPoint): real
  {
    p.propertyValue - p.mortgageBalance + p.cumulativeCashFlow
  }

  /** Net worth is equity plus the running cash flow, and grows by a month's cash flow plus the
      month's change in equity. */
  lemma NetWorthOfPoints(inputs: RealEstateInputs, d: DerivedValues, g: real, k: nat)
    ensures NetWorth(PointAt(inputs, d, g, k)) == PointAt(inputs, d, g, k).equity + PointAt(inputs, d, g, k).cumulativeCashFlow
    ensures k > 0 ==> NetWorth(PointAt(inputs, d, g, k)) - NetWorth(PointAt(inputs, d, g, k - 1))
                      == PointAt(inputs, d, g, k).monthlyCashFlow
                         + (PointAt(inputs, d, g, k).equity - PointAt(inputs, d, g, k - 1).equity)
  {
  }
}
