/** The pure parts of the version-2 engine (components/calculators/realestate-v2/utils/
    calculations.ts): derived values, monthly expenses, and the year-1 scenario comparison with
    its "three engines" attribution of return. */
module Calculations {
  import opened Numerics
  import opened Types
  import opened Amortization

  /** `purchasePrice * (downPaymentPercent / 100)`. */
  function DownPayment(inputs: RealEstateInputs): real
  {
    inputs.purchasePrice * (inputs.downPaymentPercent / 100.0)
  }

  /** `purchasePrice - downPayment`. */
  function LoanAmount(inputs: RealEstateInputs): real
  {
    inputs.purchasePrice - DownPayment(inputs)
  }

  /** The inputs for which `calculateDerivedValues` divides by nothing that is zero: the
      below-market divisor `1 - belowMarketPercent / 100`, and the payment formula when there
      is a loan to pay. */
  predicate DerivedDefined(inputs: RealEstateInputs)
  {
    && inputs.belowMarketPercent != 100.0
    && (LoanAmount(inputs) <= 0.0 || PaymentDefined(inputs.mortgageRate, inputs.mortgageTermYears))
  }

  /** `calculateDerivedValues`. A purchase `belowMarketPercent` under market value means the
      market value is `purchasePrice / (1 - belowMarketPercent / 100)`. */
  function CalculateDerivedValues(inputs: RealEstateInputs): (d: DerivedValues)
    requires DerivedDefined(inputs)
    ensures d.downPayment + d.loanAmount == inputs.purchasePrice
    ensures d.downPayment * 100.0 == inputs.purchasePrice * inputs.downPaymentPercent
    ensures d.instantEquity == d.marketValue - inputs.purchasePrice
    ensures inputs.belowMarketPercent <= 0.0 ==> d.marketValue == inputs.purchasePrice
    ensures inputs.belowMarketPercent > 0.0 ==>
              d.marketValue * (1.0 - inputs.belowMarketPercent / 100.0) == inputs.purchasePrice
    ensures d.monthlyMortgage == MonthlyMortgage(d.loanAmount, inputs.mortgageRate, inputs.mortgageTermYears)
  {
    var marketValue := if inputs.belowMarketPercent > 0.0
      then
        DivMulCancel(inputs.purchasePrice, 1.0 - inputs.belowMarketPercent / 100.0);
        inputs.purchasePrice / (1.0 - inputs.belowMarketPercent / 100.0)
      else inputs.purchasePrice;
    var loanAmount := LoanAmount(inputs);
    DerivedValues(
      marketValue := marketValue,
      instantEquity := marketValue - inputs.purchasePrice,
      downPayment := DownPayment(inputs),
      loanAmount := loanAmount,
      monthlyMortgage := MonthlyMortgage(loanAmount, inputs.mortgageRate, inputs.mortgageTermYears))
  }

  /** Buying below market (and above a discount of 100%) never loses equity: for a
      non-negative price the market value is at least the price. */
  lemma BelowMarketGivesEquity(inputs: RealEstateInputs)
    requires DerivedDefined(inputs)
    requires inputs.purchasePrice >= 0.0 && inputs.belowMarketPercent < 100.0
    ensures CalculateDerivedValues(inputs).marketValue >= inputs.purchasePrice
    ensures CalculateDerivedValues(inputs).instantEquity >= 0.0
  {
    var d := CalculateDerivedValues(inputs);
    if inputs.belowMarketPercent > 0.0 {
      var f := 1.0 - inputs.belowMarketPercent / 100.0;
      assert 0.0 < f < 1.0;
      assert d.marketValue * f == inputs.purchasePrice;
      assert d.marketValue >= 0.0;
      assert d.marketValue * f <= d.marketValue;
    }
  }

  /** The default inputs: 25% down on 85000 leaves a loan of 63750. */
  lemma DefaultDerivedValues()
    ensures DerivedDefined(DEFAULT_INPUTS)
    ensures CalculateDerivedValues(DEFAULT_INPUTS).downPayment == 21250.0
    ensures CalculateDerivedValues(DEFAULT_INPUTS).loanAmount == 63750.0
    ensures CalculateDerivedValues(DEFAULT_INPUTS).marketValue == DEFAULT_INPUTS.purchasePrice
    ensures CalculateDerivedValues(DEFAULT_INPUTS).instantEquity == 0.0
  {
    assert NumPayments(30.0) == 360;
    PaymentDefinedForRate(7.5, 30.0);
  }

  /** `calculateMonthlyExpenses` at the current rent and property value. */
  function CalculateMonthlyExpenses(currentRent: real, currentValue: real, inputs: RealEstateInputs): (e: MonthlyExpenses)
    ensures e.total == e.vacancy + e.insuranceTax + e.management + e.maintenance
    ensures e.insuranceTax == inputs.insuranceTaxMonthly
    ensures e.vacancy * 100.0 == currentRent * inputs.vacancyRate
    ensures e.management * 100.0 == currentRent * inputs.propertyManagementPercent
    ensures e.maintenance * 1200.0 == currentValue * inputs.maintenancePercent
  {
    var vacancy := currentRent * (inputs.vacancyRate / 100.0);
    var management := currentRent * (inputs.propertyManagementPercent / 100.0);
    var maintenance := currentValue * (inputs.maintenancePercent / 100.0) / 12.0;
    MonthlyExpenses(
      vacancy := vacancy,
      insuranceTax := inputs.insuranceTaxMonthly,
      management := management,
      maintenance := maintenance,
      total := vacancy + inputs.insuranceTaxMonthly + management + maintenance)
  }

  /** With non-negative rent, value and rates the expenses are at least the fixed insurance
      and tax, and grow with the rent. */
  lemma ExpensesMonotone(rent: real, rent': real, value: real, value': real, inputs: RealEstateInputs)
    requires 0.0 <= rent <= rent' && 0.0 <= value <= value'
    requires inputs.vacancyRate >= 0.0 && inputs.propertyManagementPercent >= 0.0 && inputs.maintenancePercent >= 0.0
    ensures inputs.insuranceTaxMonthly <= CalculateMonthlyExpenses(rent, value, inputs).total
    ensures CalculateMonthlyExpenses(rent, value, inputs).total <= CalculateMonthlyExpenses(rent', value', inputs).total
  {
    assert rent * (inputs.vacancyRate / 100.0) <= rent' * (inputs.vacancyRate / 100.0);
    assert rent * (inputs.propertyManagementPercent / 100.0) <= rent' * (inputs.propertyManagementPercent / 100.0);
    assert value * (inputs.maintenancePercent / 100.0) <= value' * (inputs.maintenancePercent / 100.0);
  }

  /** `marketValue > 0 ? (totalReturn / marketValue) * 100 : 0` and the same with the down
      payment: the return as a percentage of what was put in, 0 when nothing positive was. */
  function Roi(totalReturn: real, invested: real): (roi: real)
    ensures invested > 0.0 ==> roi * invested == totalReturn * 100.0
    ensures invested <= 0.0 ==> roi == 0.0
  {
    if invested > 0.0 then
      DivMulCancel(totalReturn, invested);
      (totalReturn / invested) * 100.0
    else 0.0
  }

  /** An engine's share of the total, in percent; 0 when the total is 0. */
  function EngineShare(value: real, total: real): (percent: real)
    ensures total != 0.0 ==> percent * total == value * 100.0
    ensures total == 0.0 ==> percent == 0.0
  {
    if total != 0.0 then
      DivMulCancel(value, total);
      (value / total) * 100.0
    else 0.0
  }

  /** Three shares of a non-zero total that is their sum add up to 100%. */
  lemma SharesSumToHundred(a: real, b: real, c: real)
    requires a + b + c != 0.0
    ensures EngineShare(a, a + b + c) + EngineShare(b, a + b + c) + EngineShare(c, a + b + c) == 100.0
  {
    var t := a + b + c;
    var s := EngineShare(a, t) + EngineShare(b, t) + EngineShare(c, t);
    assert s * t == (a + b + c) * 100.0;
    assert s * t == 100.0 * t;
    MulDivCancel(s, t);
    MulDivCancel(100.0, t);
  }

  /** The three-engines breakdown of the with-leverage return (calculations.ts:215-239). */
  function ThreeEnginesOf(cashFlow: real, appreciation: real, paydown: real): (e: ThreeEngines)
    ensures e.cashFlow.value == cashFlow && e.appreciation.value == appreciation
    ensures e.principalPaydown.value == paydown
    ensures cashFlow + appreciation + paydown != 0.0 ==>
              e.cashFlow.percent + e.appreciation.percent + e.principalPaydown.percent == 100.0
    ensures cashFlow + appreciation + paydown == 0.0 ==>
              e.cashFlow.percent == 0.0 && e.appreciation.percent == 0.0 && e.principalPaydown.percent == 0.0
  {
    var total := cashFlow + appreciation + paydown;
    var cashFlowShare := if total != 0.0 then SharesSumToHundred(cashFlow, appreciation, paydown); EngineShare(cashFlow, total)
                         else EngineShare(cashFlow, total);
    ThreeEngines(
      cashFlow := EngineBreakdown(cashFlow, cashFlowShare),
      appreciation := EngineBreakdown(appreciation, EngineShare(appreciation, total)),
      principalPaydown := EngineBreakdown(paydown, EngineShare(paydown, total)))
  }

  /** The balance after one month of the year-1 paydown loop (calculations.ts:199-202): no
      clamp at zero, because the principal part never exceeds the balance. */
  lemma Year1StepIsAmortizeMonth(balance: real, r: real, payment: real)
    requires balance > 0.0
    ensures balance - Min(payment - balance * r, balance) == AmortizeMonth(balance, r, payment)
    ensures balance - Min(payment - balance * r, balance) >= 0.0
  {
  }

  /** Once the running balance is not positive it no longer moves. */
  lemma {:induction false} BalanceAfterSettles(loan: real, r: real, payment: real, j: nat, k: nat)
    requires j <= k && BalanceAfter(loan, r, payment, j) <= 0.0
    ensures BalanceAfter(loan, r, payment, k) == BalanceAfter(loan, r, payment, j)
    decreases k - j
  {
    if j < k {
      BalanceAfterSettles(loan, r, payment, j, k - 1);
    }
  }

  /** The year-1 results (calculations.ts:159-259) as a function of the inputs and the derived
      values; the principal paid down in year 1 is what twelve months of the running balance
      take off the loan. */
  function Year1Of(inputs: RealEstateInputs, derived: DerivedValues): Year1Results
  {
    Year1From(inputs.monthlyRent - CalculateMonthlyExpenses(inputs.monthlyRent, derived.marketValue, inputs).total,
              derived.marketValue * (inputs.appreciationRate / 100.0),
              inputs.monthlyRent - CalculateMonthlyExpenses(inputs.monthlyRent, derived.marketValue, inputs).total
              - derived.monthlyMortgage,
              Year1Paydown(derived.loanAmount, inputs.mortgageRate, derived.monthlyMortgage),
              derived.marketValue, derived.downPayment)
  }

  /** What the first year's twelve payments take off the loan. */
  function Year1Paydown(loanAmount: real, mortgageRate: real, monthlyMortgage: real): real
  {
    loanAmount - BalanceAfter(loanAmount, MonthlyRate(mortgageRate), monthlyMortgage, 12)
  }

  /** The year-1 results from the monthly net without and with the mortgage payment, the
      year's appreciation and the principal paid down. */
  function Year1From(netMonthly: real, appreciation: real, leveragedNet: real, paydown: real,
                     marketValue: real, downPayment: real): Year1Results
  {
    var leveragedReturn := leveragedNet * 12.0 + appreciation + paydown;
    Year1Results(
      NoLeverage(netMonthly, netMonthly * 12.0, appreciation, netMonthly * 12.0 + appreciation,
                 Roi(netMonthly * 12.0 + appreciation, marketValue)),
      WithLeverage(leveragedNet, leveragedNet * 12.0, appreciation, paydown, leveragedReturn,
                   Roi(leveragedReturn, downPayment),
                   ThreeEnginesOf(leveragedNet * 12.0, appreciation, paydown)))
  }

  /** What the year-1 comparison promises: both scenarios see the same appreciation, the
      leveraged return is the sum of the three engines, whose percentages add up to 100 (or are
      all 0 when the total is 0), each ROI is 0 for a non-positive investment, and the principal
      paid down is what twelve months of the running balance take off the loan. */
  lemma Year1Properties(inputs: RealEstateInputs, derived: DerivedValues)
    ensures var y := Year1Of(inputs, derived);
            && y.noLeverage.netMonthly
               == inputs.monthlyRent - CalculateMonthlyExpenses(inputs.monthlyRent, derived.marketValue, inputs).total
            && y.noLeverage.annualCashFlow == 12.0 * y.noLeverage.netMonthly
            && y.noLeverage.appreciation * 100.0 == derived.marketValue * inputs.appreciationRate
            && y.noLeverage.totalReturn == y.noLeverage.annualCashFlow + y.noLeverage.appreciation
    ensures var y := Year1Of(inputs, derived);
            && y.withLeverage.netMonthly == y.noLeverage.netMonthly - derived.monthlyMortgage
            && y.withLeverage.annualCashFlow == 12.0 * y.withLeverage.netMonthly
            && y.withLeverage.appreciation == y.noLeverage.appreciation
            && y.withLeverage.principalPaydown
               == derived.loanAmount
                  - BalanceAfter(derived.loanAmount, MonthlyRate(inputs.mortgageRate), derived.monthlyMortgage, 12)
    ensures var y := Year1Of(inputs, derived);
            && (derived.marketValue <= 0.0 ==> y.noLeverage.roi == 0.0)
            && (derived.marketValue > 0.0 ==> y.noLeverage.roi * derived.marketValue == y.noLeverage.totalReturn * 100.0)
            && (derived.downPayment <= 0.0 ==> y.withLeverage.roi == 0.0)
            && (derived.downPayment > 0.0 ==> y.withLeverage.roi * derived.downPayment == y.withLeverage.totalReturn * 100.0)
    ensures var e := Year1Of(inputs, derived).withLeverage.engines;
            && Year1Of(inputs, derived).withLeverage.totalReturn
               == e.cashFlow.value + e.appreciation.value + e.principalPaydown.value
            && e.cashFlow.value == Year1Of(inputs, derived).withLeverage.annualCashFlow
            && e.appreciation.value == Year1Of(inputs, derived).withLeverage.appreciation
            && e.principalPaydown.value == Year1Of(inputs, derived).withLeverage.principalPaydown
    ensures var e := Year1Of(inputs, derived).withLeverage.engines;
            Year1Of(inputs, derived).withLeverage.totalReturn != 0.0 ==>
              e.cashFlow.percent + e.appreciation.percent + e.principalPaydown.percent == 100.0
    ensures var e := Year1Of(inputs, derived).withLeverage.engines;
            Year1Of(inputs, derived).withLeverage.totalReturn == 0.0 ==>
              e.cashFlow.percent == 0.0 && e.appreciation.percent == 0.0 && e.principalPaydown.percent == 0.0
  {
  }

  /** `calculateYear1Results`. */
  method CalculateYear1Results(inputs: RealEstateInputs, derived: DerivedValues) returns (y: Year1Results)
    ensures y == Year1Of(inputs, derived)
  {
    var expenses := CalculateMonthlyExpenses(inputs.monthlyRent, derived.marketValue, inputs);
    var noLeverageNetMonthly := inputs.monthlyRent - expenses.total;
    var appreciation := derived.marketValue * (inputs.appreciationRate / 100.0);
    var withLeverageNetMonthly := inputs.monthlyRent - expenses.total - derived.monthlyMortgage;
    var year1PrincipalPaydown := Year1PrincipalPaydown(derived.loanAmount, inputs.mortgageRate, derived.monthlyMortgage);
    y := Year1From(noLeverageNetMonthly, appreciation, withLeverageNetMonthly, year1PrincipalPaydown,
                   derived.marketValue, derived.downPayment);
  }

  /** The year-1 paydown loop (calculations.ts:194-203): at most twelve months of interest then
      principal, stopping early once the balance is no longer positive. */
  method Year1PrincipalPaydown(loanAmount: real, mortgageRate: real, monthlyMortgage: real) returns (year1PrincipalPaydown: real)
    ensures year1PrincipalPaydown == Year1Paydown(loanAmount, mortgageRate, monthlyMortgage)
  {
    year1PrincipalPaydown := 0.0;
    var balance := loanAmount;
    var monthlyInterestRate := mortgageRate / 100.0 / 12.0;
    var month := 0;
    while month < 12 && balance > 0.0
      invariant 0 <= month <= 12
      invariant balance == BalanceAfter(loanAmount, monthlyInterestRate, monthlyMortgage, month)
      invariant year1PrincipalPaydown == loanAmount - balance
    {
      var interestPayment := balance * monthlyInterestRate;
      var principalPayment := Min(monthlyMortgage - interestPayment, balance);
      Year1StepIsAmortizeMonth(balance, monthlyInterestRate, monthlyMortgage);
      year1PrincipalPaydown := year1PrincipalPaydown + principalPayment;
      balance := balance - principalPayment;
      month := month + 1;
    }
    if month < 12 {
      BalanceAfterSettles(loanAmount, monthlyInterestRate, monthlyMortgage, month, 12);
    }
  }

  /** With a non-negative rate and loan, the year-1 paydown is what `calculateRemainingBalance`
      says is repaid in twelve months, and lies between nothing and the whole loan. */
  lemma Year1PaydownIsClosedForm(inputs: RealEstateInputs)
    requires DerivedDefined(inputs)
    requires inputs.mortgageRate >= 0.0 && LoanAmount(inputs) >= 0.0
    requires WholeMonths(inputs.mortgageTermYears) && NumPayments(inputs.mortgageTermYears) >= 12
    ensures var d := CalculateDerivedValues(inputs);
            Year1Of(inputs, d).withLeverage.principalPaydown
            == d.loanAmount - RemainingBalance(d.loanAmount, inputs.mortgageRate, inputs.mortgageTermYears, 12)
    ensures var d := CalculateDerivedValues(inputs);
            0.0 <= Year1Of(inputs, d).withLeverage.principalPaydown <= d.loanAmount
  {
    var d := CalculateDerivedValues(inputs);
    if d.loanAmount > 0.0 {
      IncrementalMatchesClosedForm(d.loanAmount, inputs.mortgageRate, inputs.mortgageTermYears, 12);
      BalanceAfterBounds(d.loanAmount, inputs.mortgageRate, inputs.mortgageTermYears, 12);
    } else {
      ZeroLoanStaysZero(d.loanAmount, MonthlyRate(inputs.mortgageRate), d.monthlyMortgage, 12);
    }
  }

  /** A loan that is not positive is never amortized. */
  lemma {:induction false} ZeroLoanStaysZero(loan: real, r: real, payment: real, k: nat)
    requires loan <= 0.0
    ensures BalanceAfter(loan, r, payment, k) == loan
  {
    if k > 0 {
      ZeroLoanStaysZero(loan, r, payment, k - 1);
    }
  }
}
