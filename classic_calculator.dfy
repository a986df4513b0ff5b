/** The original single-page calculator (components/calculators/RealEstateCalculator.tsx): its
    eight inputs, the derived loan and payment, the cash flow at a year, the yearly wealth and
    crossover series built by loops, the milestone list and the summary figures. Its mortgage
    term is a whole number of years. */
module ClassicCalculator {
  import opened Numerics
  import opened Types
  import opened Amortization
  import opened Calculations
  import opened Display

  /** The calculator's state: price, down payment and operating costs in percent of the price,
      rent per month, and yearly rates in percent. */
  datatype ClassicInputs = ClassicInputs(
    propertyValue: real,
    downPaymentPercent: real,
    monthlyRent: real,
    appreciation: real,
    mortgageRate: real,
    mortgageTerm: int,
    rentGrowth: real,
    operatingCostsPercent: real)

  /** The initial state of the inputs (RealEstateCalculator.tsx:106-116). */
  const CLASSIC_DEFAULTS := ClassicInputs(500000.0, 25.0, 2500.0, 3.0, 4.5, 30, 2.5, 1.5)

  // ---------------------------------------------------------------- derived values

  /** `downPayment`: the share of the price paid up front. */
  function ClassicDownPayment(i: ClassicInputs): real
  {
    (i.propertyValue * i.downPaymentPercent) / 100.0
  }

  /** `loanAmount`: what the down payment leaves of the price. */
  function ClassicLoanAmount(i: ClassicInputs): (loan: real)
    ensures ClassicDownPayment(i) + loan == i.propertyValue
  {
    i.propertyValue - ClassicDownPayment(i)
  }

  /** The payment formula is defined: a positive whole term and, at a non-zero rate, a
      denominator `(1+r)^n - 1` that is not zero. */
  predicate ClassicPaymentDefined(i: ClassicInputs)
  {
    i.mortgageTerm > 0 && PaymentDefined(i.mortgageRate, i.mortgageTerm as real)
  }

  /** A whole term of years is a whole number of months, twelve per year. */
  lemma WholeTerm(term: int)
    ensures WholeMonths(term as real) && NumPayments(term as real) == 12 * term
  {
    assert term as real * 12.0 == (12 * term) as real;
  }

  /** Inside the sliders' ranges (a term of at least one year, any positive rate) the payment
      is defined. */
  lemma ClassicPaymentDefinedOnSliders(i: ClassicInputs)
    requires i.mortgageTerm > 0 && i.mortgageRate > 0.0
    ensures ClassicPaymentDefined(i)
  {
    WholeTerm(i.mortgageTerm);
    PaymentDefinedForRate(i.mortgageRate, i.mortgageTerm as real);
  }

  /** `monthlyMortgagePayment`: the annuity payment on the loan, or the loan spread evenly over
      the payments at a zero rate. Unlike the later engine it has no guard for a loan that is
      not positive. */
  function MonthlyPayment(i: ClassicInputs): real
    requires ClassicPaymentDefined(i)
  {
    var monthlyRate := MonthlyRate(i.mortgageRate);
    var numPayments := NumPayments(i.mortgageTerm as real);
    if monthlyRate == 0.0 then ClassicLoanAmount(i) / numPayments as real
    else AnnuityPayment(ClassicLoanAmount(i), monthlyRate, Pow(1.0 + monthlyRate, numPayments))
  }

  /** For any loan that is not negative the payment is the later engine's
      `calculateMonthlyMortgage`. */
  lemma PaymentMatchesEngine(i: ClassicInputs)
    requires ClassicPaymentDefined(i) && ClassicLoanAmount(i) >= 0.0
    ensures MonthlyPayment(i) == MonthlyMortgage(ClassicLoanAmount(i), i.mortgageRate, i.mortgageTerm as real)
  {
    var loan := ClassicLoanAmount(i);
    var r := MonthlyRate(i.mortgageRate);
    var n := NumPayments(i.mortgageTerm as real);
    if loan == 0.0 {
      if r == 0.0 {
        assert MonthlyPayment(i) == 0.0 / n as real;
      } else {
        var a := Pow(1.0 + r, n);
        assert MonthlyPayment(i) == AnnuityPayment(0.0, r, a);
        assert 0.0 * r * a == 0.0;
        DivUnique(0.0, 0.0, a - 1.0);
      }
    }
  }

  /** At a zero rate the payments of the term add up to the loan. */
  lemma PaymentWithoutInterest(i: ClassicInputs)
    requires ClassicPaymentDefined(i) && i.mortgageRate == 0.0
    ensures MonthlyPayment(i) * (12 * i.mortgageTerm) as real == ClassicLoanAmount(i)
  {
    WholeTerm(i.mortgageTerm);
    var n := NumPayments(i.mortgageTerm as real);
    assert MonthlyRate(i.mortgageRate) == 0.0;
    assert MonthlyPayment(i) == ClassicLoanAmount(i) / n as real;
    DivMulCancel(ClassicLoanAmount(i), n as real);
  }

  /** `annualOperatingCosts`: the yearly operating costs, a share of the price. */
  function AnnualOperatingCosts(i: ClassicInputs): real
  {
    (i.propertyValue * i.operatingCostsPercent) / 100.0
  }

  /** The yearly growth factor of rent and operating costs. */
  function GrowthFactor(i: ClassicInputs): real
  {
    1.0 + i.rentGrowth / 100.0
  }

  // ---------------------------------------------------------------- cash flow

  /** `cashFlowAtYear`: rent and operating costs grown for `year` years, less the payment while
      the term runs. */
  function CashFlowAtYear(i: ClassicInputs, payment: real, year: nat): real
  {
    var futureRent := i.monthlyRent * Pow(GrowthFactor(i), year);
    var futureOps := (AnnualOperatingCosts(i) / 12.0) * Pow(GrowthFactor(i), year);
    if year >= i.mortgageTerm then futureRent - futureOps
    else futureRent - payment - futureOps
  }

  /** `cashFlowData.today`. */
  function TodayCashFlow(i: ClassicInputs, payment: real): real
  {
    i.monthlyRent - payment - AnnualOperatingCosts(i) / 12.0
  }

  /** The cash flow of a year is the grown net operating income, less the payment exactly
      while the term runs; today's cash flow is that of year 0. */
  lemma CashFlowAtYearShape(i: ClassicInputs, payment: real, year: nat)
    requires i.mortgageTerm > 0
    ensures CashFlowAtYear(i, payment, year)
            == (i.monthlyRent - AnnualOperatingCosts(i) / 12.0) * Pow(GrowthFactor(i), year)
               - (if year < i.mortgageTerm then payment else 0.0)
    ensures TodayCashFlow(i, payment) == CashFlowAtYear(i, payment, 0)
  {
    var p := Pow(GrowthFactor(i), year);
    assert i.monthlyRent * p - (AnnualOperatingCosts(i) / 12.0) * p == (i.monthlyRent - AnnualOperatingCosts(i) / 12.0) * p;
  }

  /** `equityBuildingPerMonth`: the principal part of the first payment. */
  function EquityBuildingPerMonth(i: ClassicInputs): real
    requires ClassicPaymentDefined(i)
  {
    MonthlyPayment(i) - ClassicLoanAmount(i) * MonthlyRate(i.mortgageRate)
  }

  /** The principal of the first payment is what the first month takes off a positive loan
      (as long as the payment does not exceed what is owed), and it is positive at a positive
      rate. */
  lemma EquityBuildingIsFirstPaydown(i: ClassicInputs)
    requires ClassicPaymentDefined(i) && ClassicLoanAmount(i) > 0.0
    ensures EquityBuildingPerMonth(i) <= ClassicLoanAmount(i) ==>
              ClassicLoanAmount(i) - BalanceAfter(ClassicLoanAmount(i), MonthlyRate(i.mortgageRate), MonthlyPayment(i), 1)
              == EquityBuildingPerMonth(i)
    ensures i.mortgageRate > 0.0 ==> EquityBuildingPerMonth(i) > 0.0
  {
    var loan := ClassicLoanAmount(i);
    var r := MonthlyRate(i.mortgageRate);
    var payment := MonthlyPayment(i);
    assert BalanceAfter(loan, r, payment, 1) == AmortizeMonth(loan, r, payment);
    PaymentMatchesEngine(i);
    if i.mortgageRate > 0.0 {
      PaymentExceedsInterest(loan, i.mortgageRate, i.mortgageTerm as real);
    }
  }

  /** `appreciationPerMonth`: a twelfth of the first year's appreciation. */
  function AppreciationPerMonth(i: ClassicInputs): real
  {
    (i.propertyValue * i.appreciation / 100.0) / 12.0
  }

  // ---------------------------------------------------------------- wealth chart

  /** A point of the wealth chart, in whole currency units. */
  datatype WealthPoint = WealthPoint(year: int, cashFlow: int, equity: int, appreciation: int, total: int)

  /** The positive yearly cash flows of the years before `year`, added up. */
  function AccumulatedCashFlow(i: ClassicInputs, payment: real, year: nat): real
  {
    if year == 0 then 0.0
    else AccumulatedCashFlow(i, payment, year - 1) + Max(0.0, 12.0 * CashFlowAtYear(i, payment, year - 1))
  }

  /** The loan still owed at the start of `year`: twelve payments per year made so far. */
  function RemainingLoanAt(i: ClassicInputs, payment: real, year: nat): real
  {
    BalanceAfter(ClassicLoanAmount(i), MonthlyRate(i.mortgageRate), payment, 12 * year)
  }

  /** The growth of the property's value over its price after `year` years. */
  function AppreciationAt(i: ClassicInputs, year: nat): real
  {
    i.propertyValue * Pow(1.0 + i.appreciation / 100.0, year) - i.propertyValue
  }

  /** The point of `year`: accumulated cash flow, principal paid down and appreciation, each
      rounded, and the rounded sum of the three. */
  function WealthPointAt(i: ClassicInputs, payment: real, year: nat): WealthPoint
  {
    var cashFlow := AccumulatedCashFlow(i, payment, year);
    var equity := ClassicLoanAmount(i) - RemainingLoanAt(i, payment, year);
    var appreciation := AppreciationAt(i, year);
    WealthPoint(year, Round(cashFlow), Round(equity), Round(appreciation), Round(cashFlow + equity + appreciation))
  }

  /** `max(0, b - (payment - b r))`, the inner loop's update, is the later engine's monthly
      step on a positive balance. */
  lemma ClassicStepIsAmortizeMonth(balance: real, r: real, payment: real)
    requires balance > 0.0
    ensures Max(0.0, balance - (payment - balance * r)) == AmortizeMonth(balance, r, payment)
  {
  }

  /** The inner loop of a year: up to twelve payments, stopping once the loan is repaid. It
      leaves the balance of twelve months later. */
  method PayDownYear(loanAmount: real, monthlyRate: real, payment: real, year: nat, remaining: real)
    returns (remainingLoan: real)
    requires remaining == BalanceAfter(loanAmount, monthlyRate, payment, 12 * year)
    ensures remainingLoan == BalanceAfter(loanAmount, monthlyRate, payment, 12 * (year + 1))
  {
    remainingLoan := remaining;
    var month := 0;
    while month < 12 && remainingLoan > 0.0
      invariant 0 <= month <= 12
      invariant remainingLoan == BalanceAfter(loanAmount, monthlyRate, payment, 12 * year + month)
    {
      var interestPayment := remainingLoan * monthlyRate;
      var principalPayment := payment - interestPayment;
      ClassicStepIsAmortizeMonth(remainingLoan, monthlyRate, payment);
      remainingLoan := Max(0.0, remainingLoan - principalPayment);
      month := month + 1;
    }
    if month < 12 {
      BalanceAfterSettles(loanAmount, monthlyRate, payment, 12 * year + month, 12 * (year + 1));
    }
  }

  /** The wealth point of a year from the loop's running values. */
  lemma WealthPointOfValues(i: ClassicInputs, payment: real, year: nat, cashFlow: real, remaining: real, appreciation: real)
    requires cashFlow == AccumulatedCashFlow(i, payment, year)
    requires remaining == RemainingLoanAt(i, payment, year)
    requires appreciation == AppreciationAt(i, year)
    ensures WealthPointAt(i, payment, year)
            == WealthPoint(year, Round(cashFlow), Round(ClassicLoanAmount(i) - remaining), Round(appreciation),
                           Round(cashFlow + (ClassicLoanAmount(i) - remaining) + appreciation))
  {
  }

  /** The loop's yearly cash flow is twelve months of `cashFlowAtYear`. */
  lemma YearCashFlowOfValues(i: ClassicInputs, payment: real, year: nat, futureRent: real, futureOps: real)
    requires futureRent == i.monthlyRent * Pow(GrowthFactor(i), year)
    requires futureOps == (AnnualOperatingCosts(i) / 12.0) * Pow(GrowthFactor(i), year)
    ensures (if year < i.mortgageTerm then (futureRent - payment - futureOps) * 12.0 else (futureRent - futureOps) * 12.0)
            == 12.0 * CashFlowAtYear(i, payment, year)
  {
  }

  /** `wealthChartData`: one point per year of the term, then the year's positive cash flow
      added to the running total and up to twelve payments taken off the loan. */
  method WealthChartData(i: ClassicInputs) returns (data: seq<WealthPoint>)
    requires ClassicPaymentDefined(i)
    ensures |data| == i.mortgageTerm + 1
    ensures forall y :: 0 <= y < |data| ==> data[y] == WealthPointAt(i, MonthlyPayment(i), y)
  {
    var payment := MonthlyPayment(i);
    data := [];
    var remainingLoan := ClassicLoanAmount(i);
    var accumulatedCashFlow := 0.0;

    var year := 0;
    while year <= i.mortgageTerm
      invariant 0 <= year <= i.mortgageTerm + 1
      invariant |data| == year
      invariant forall y :: 0 <= y < year ==> data[y] == WealthPointAt(i, payment, y)
      invariant remainingLoan == RemainingLoanAt(i, payment, year)
      invariant accumulatedCashFlow == AccumulatedCashFlow(i, payment, year)
    {
      var point;
      point, accumulatedCashFlow, remainingLoan := WealthYear(i, payment, year, accumulatedCashFlow, remainingLoan);
      data := data + [point];
      year := year + 1;
    }
  }

  /** One pass of the wealth chart's loop: the year's point from the running values, then the
      year's positive cash flow added and up to twelve payments taken off the loan. */
  method WealthYear(i: ClassicInputs, payment: real, year: nat, accumulatedCashFlow: real, remainingLoan: real)
    returns (point: WealthPoint, nextCashFlow: real, nextRemaining: real)
    requires accumulatedCashFlow == AccumulatedCashFlow(i, payment, year)
    requires remainingLoan == RemainingLoanAt(i, payment, year)
    ensures point == WealthPointAt(i, payment, year)
    ensures nextCashFlow == AccumulatedCashFlow(i, payment, year + 1)
    ensures nextRemaining == RemainingLoanAt(i, payment, year + 1)
  {
    var loanAmount := ClassicLoanAmount(i);
    var monthlyRate := i.mortgageRate / 100.0 / 12.0;
    var currentPropertyValue := i.propertyValue * Pow(1.0 + i.appreciation / 100.0, year);
    var totalAppreciation := currentPropertyValue - i.propertyValue;
    assert totalAppreciation == AppreciationAt(i, year);
    var accumulatedEquity := loanAmount - remainingLoan;
    point := WealthPoint(year, Round(accumulatedCashFlow), Round(accumulatedEquity), Round(totalAppreciation),
                         Round(accumulatedCashFlow + accumulatedEquity + totalAppreciation));
    WealthPointOfValues(i, payment, year, accumulatedCashFlow, remainingLoan, totalAppreciation);

    var yearCashFlow := YearCashFlow(i, payment, year);
    nextCashFlow := accumulatedCashFlow + Max(0.0, yearCashFlow);

    nextRemaining := PayDownYear(loanAmount, monthlyRate, payment, year, remainingLoan);
  }

  /** The cash flow of a year in the wealth chart's loop: twelve months of the grown rent less
      the payment (while the loan runs) and the grown operating costs. */
  method YearCashFlow(i: ClassicInputs, payment: real, year: nat) returns (yearCashFlow: real)
    ensures yearCashFlow == 12.0 * CashFlowAtYear(i, payment, year)
  {
    var monthlyOps := AnnualOperatingCosts(i) / 12.0;
    var futureRent := i.monthlyRent * Pow(GrowthFactor(i), year);
    var futureOps := monthlyOps * Pow(GrowthFactor(i), year);
    yearCashFlow := if year < i.mortgageTerm then (futureRent - payment - futureOps) * 12.0
                    else (futureRent - futureOps) * 12.0;
    YearCashFlowOfValues(i, payment, year, futureRent, futureOps);
  }

  /** The accumulated cash flow is never negative and never decreases from one year to a
      later one. */
  lemma {:induction false} AccumulatedNondecreasing(i: ClassicInputs, payment: real, y1: nat, y2: nat)
    requires y1 <= y2
    ensures 0.0 <= AccumulatedCashFlow(i, payment, y1) <= AccumulatedCashFlow(i, payment, y2)
    decreases y2
  {
    if y1 < y2 {
      AccumulatedNondecreasing(i, payment, y1, y2 - 1);
    } else if y1 > 0 {
      AccumulatedNondecreasing(i, payment, y1 - 1, y1 - 1);
    }
  }

  /** Starting from a loan that is not negative, the running balance never goes below zero,
      whatever the rate and payment. */
  lemma {:induction false} BalanceNeverNegative(loan: real, r: real, payment: real, k: nat)
    requires loan >= 0.0
    ensures BalanceAfter(loan, r, payment, k) >= 0.0
  {
    if k > 0 {
      BalanceNeverNegative(loan, r, payment, k - 1);
    }
  }

  /** A month's step from a balance in [0, loan], with a payment that covers the interest on
      the whole loan, stays in [0, balance]. */
  lemma StepWithinLoan(balance: real, loan: real, r: real, payment: real)
    requires 0.0 <= balance <= loan && r >= 0.0 && payment >= loan * r
    ensures 0.0 <= AmortizeMonth(balance, r, payment) <= balance
  {
    MulMonotone(balance, loan, r);
  }

  /** While every payment covers at least the interest on the whole loan, the running balance
      stays within [0, loan] and never increases. */
  lemma {:induction false} BalanceWithinLoan(loan: real, r: real, payment: real, k: nat)
    requires loan >= 0.0 && r >= 0.0 && payment >= loan * r
    ensures 0.0 <= BalanceAfter(loan, r, payment, k + 1) <= BalanceAfter(loan, r, payment, k) <= loan
  {
    if k > 0 {
      BalanceWithinLoan(loan, r, payment, k - 1);
    }
    StepWithinLoan(BalanceAfter(loan, r, payment, k), loan, r, payment);
  }

  /** At a rate that is not negative the payment covers at least the interest on the loan. */
  lemma PaymentCoversInterest(i: ClassicInputs)
    requires ClassicPaymentDefined(i) && ClassicLoanAmount(i) >= 0.0 && i.mortgageRate >= 0.0
    ensures MonthlyPayment(i) >= ClassicLoanAmount(i) * MonthlyRate(i.mortgageRate)
  {
    var loan := ClassicLoanAmount(i);
    PaymentMatchesEngine(i);
    if loan > 0.0 && i.mortgageRate > 0.0 {
      PaymentExceedsInterest(loan, i.mortgageRate, i.mortgageTerm as real);
    } else if i.mortgageRate == 0.0 {
      WholeTerm(i.mortgageTerm);
      assert loan / (12 * i.mortgageTerm) as real >= 0.0;
    }
  }

  /** The wealth chart's equity is the principal paid down: within [0, loan] every year when the
      payment covers the interest, which it does at a rate that is not negative. */
  lemma WealthEquityBounds(i: ClassicInputs, year: nat)
    requires ClassicPaymentDefined(i) && ClassicLoanAmount(i) >= 0.0 && i.mortgageRate >= 0.0
    ensures 0.0 <= ClassicLoanAmount(i) - RemainingLoanAt(i, MonthlyPayment(i), year) <= ClassicLoanAmount(i)
    ensures 0 <= WealthPointAt(i, MonthlyPayment(i), year).equity
  {
    PaymentCoversInterest(i);
    BalanceWithinLoan(ClassicLoanAmount(i), MonthlyRate(i.mortgageRate), MonthlyPayment(i), 12 * year);
    RoundMonotone(0.0, ClassicLoanAmount(i) - RemainingLoanAt(i, MonthlyPayment(i), year));
  }

  /** In the last year of the term the loan is repaid: the equity is the whole loan. */
  lemma WealthEquityAtTerm(i: ClassicInputs)
    requires ClassicPaymentDefined(i) && ClassicLoanAmount(i) >= 0.0 && i.mortgageRate >= 0.0
    ensures RemainingLoanAt(i, MonthlyPayment(i), i.mortgageTerm) == 0.0
    ensures WealthPointAt(i, MonthlyPayment(i), i.mortgageTerm).equity == Round(ClassicLoanAmount(i))
  {
    PaymentMatchesEngine(i);
    WholeTerm(i.mortgageTerm);
    BalanceAfterBounds(ClassicLoanAmount(i), i.mortgageRate, i.mortgageTerm as real, 12 * i.mortgageTerm);
  }

  // ---------------------------------------------------------------- crossover chart

  /** A point of the rent-versus-costs chart, in whole currency units. */
  datatype CrossoverPoint = CrossoverPoint(year: int, rent: int, mortgage: int, cashFlow: int)

  /** The costs line of `year`: payment and grown operating costs while the term runs, the
      operating costs alone afterwards. */
  function CrossoverExpenses(i: ClassicInputs, payment: real, year: nat): real
  {
    var futureOps := (AnnualOperatingCosts(i) / 12.0) * Pow(GrowthFactor(i), year);
    if year < i.mortgageTerm then payment + futureOps else futureOps
  }

  /** The crossover point of `year`: grown rent, the costs line and their difference, each
      rounded. */
  function CrossoverPointAt(i: ClassicInputs, payment: real, year: nat): CrossoverPoint
  {
    var futureRent := i.monthlyRent * Pow(GrowthFactor(i), year);
    CrossoverPoint(year, Round(futureRent), Round(CrossoverExpenses(i, payment, year)),
                   Round(futureRent - CrossoverExpenses(i, payment, year)))
  }

  /** `crossoverChartData`: one point per year of the term. */
  method CrossoverChartData(i: ClassicInputs) returns (data: seq<CrossoverPoint>)
    requires ClassicPaymentDefined(i)
    ensures |data| == i.mortgageTerm + 1
    ensures forall y :: 0 <= y < |data| ==> data[y] == CrossoverPointAt(i, MonthlyPayment(i), y)
  {
    data := [];
    var payment := MonthlyPayment(i);
    var monthlyOps := AnnualOperatingCosts(i) / 12.0;
    var year := 0;
    while year <= i.mortgageTerm
      invariant 0 <= year <= i.mortgageTerm + 1
      invariant |data| == year
      invariant forall y :: 0 <= y < year ==> data[y] == CrossoverPointAt(i, payment, y)
    {
      var futureRent := i.monthlyRent * Pow(GrowthFactor(i), year);
      var futureOps := monthlyOps * Pow(GrowthFactor(i), year);
      var totalExpenses := if year < i.mortgageTerm then payment + futureOps else futureOps;
      CrossoverPointOfValues(i, payment, year, futureRent, totalExpenses);
      data := data + [CrossoverPoint(year, Round(futureRent), Round(totalExpenses), Round(futureRent - totalExpenses))];
      year := year + 1;
    }
  }

  /** The crossover point of a year from the loop's values. */
  lemma CrossoverPointOfValues(i: ClassicInputs, payment: real, year: nat, futureRent: real, totalExpenses: real)
    requires futureRent == i.monthlyRent * Pow(GrowthFactor(i), year)
    requires totalExpenses
             == if year < i.mortgageTerm then payment + (AnnualOperatingCosts(i) / 12.0) * Pow(GrowthFactor(i), year)
                else (AnnualOperatingCosts(i) / 12.0) * Pow(GrowthFactor(i), year)
    ensures CrossoverPointAt(i, payment, year)
            == CrossoverPoint(year, Round(futureRent), Round(totalExpenses), Round(futureRent - totalExpenses))
  {
  }

  /** The crossover chart's cash flow is `cashFlowAtYear` rounded. */
  lemma CrossoverMatchesCashFlowAtYear(i: ClassicInputs, payment: real, year: nat)
    ensures CrossoverPointAt(i, payment, year).cashFlow == Round(CashFlowAtYear(i, payment, year))
    ensures CrossoverPointAt(i, payment, year).year == year
  {
    var g := Pow(GrowthFactor(i), year);
    var futureRent := i.monthlyRent * g;
    var futureOps := (AnnualOperatingCosts(i) / 12.0) * g;
    assert futureRent - CrossoverExpenses(i, payment, year) == CashFlowAtYear(i, payment, year);
  }

  /** The wealth chart adds up twelve times the crossover chart's unrounded cash flow, where
      that is positive. */
  lemma AccumulatedIsCrossoverSum(i: ClassicInputs, payment: real, year: nat)
    ensures AccumulatedCashFlow(i, payment, year + 1)
            == AccumulatedCashFlow(i, payment, year)
               + Max(0.0, 12.0 * (i.monthlyRent * Pow(GrowthFactor(i), year) - CrossoverExpenses(i, payment, year)))
  {
    var g := Pow(GrowthFactor(i), year);
    var c := CashFlowAtYear(i, payment, year);
    var e := i.monthlyRent * g - CrossoverExpenses(i, payment, year);
    assert e == c;
    assert 12.0 * e == 12.0 * c;
    assert AccumulatedCashFlow(i, payment, year + 1) == AccumulatedCashFlow(i, payment, year) + Max(0.0, 12.0 * c);
    assert Max(0.0, 12.0 * c) == Max(0.0, 12.0 * e);
    assert e == i.monthlyRent * Pow(GrowthFactor(i), year) - CrossoverExpenses(i, payment, year);
  }

  // ---------------------------------------------------------------- milestones

  /** How comfortable a milestone year's cash flow is. */
  datatype Status = Tight | Comfortable | Strong | Paid

  /** `getStatus`: paid off from the end of the term on, otherwise strong at a cash flow of at
      least half the payment, comfortable at one that is not negative, tight below. */
  function GetStatus(cashFlow: real, year: int, mortgageTerm: int, payment: real): Status
  {
    if year >= mortgageTerm then Paid
    else if cashFlow >= payment * 0.5 then Strong
    else if cashFlow >= 0.0 then Comfortable
    else Tight
  }

  /** The statuses in increasing order of comfort. */
  function StatusRank(s: Status): nat
  {
    match s
    case Tight => 0
    case Comfortable => 1
    case Strong => 2
    case Paid => 3
  }

  /** Each status says what it means about the year and the cash flow, and a larger cash flow
      never gives a less comfortable status. */
  lemma GetStatusMeaning(cashFlow: real, cashFlow2: real, year: int, mortgageTerm: int, payment: real)
    ensures GetStatus(cashFlow, year, mortgageTerm, payment) == Paid <==> year >= mortgageTerm
    ensures GetStatus(cashFlow, year, mortgageTerm, payment) == Strong <==> year < mortgageTerm && cashFlow >= payment * 0.5
    ensures GetStatus(cashFlow, year, mortgageTerm, payment) == Comfortable <==>
              year < mortgageTerm && 0.0 <= cashFlow < payment * 0.5
    ensures GetStatus(cashFlow, year, mortgageTerm, payment) == Tight <==>
              year < mortgageTerm && cashFlow < 0.0 && cashFlow < payment * 0.5
    ensures cashFlow <= cashFlow2 ==>
              StatusRank(GetStatus(cashFlow, year, mortgageTerm, payment))
              <= StatusRank(GetStatus(cashFlow2, year, mortgageTerm, payment))
  {
  }

  /** A milestone: a year, its rounded cash flow and its status. */
  datatype Milestone = Milestone(year: int, cashFlow: int, status: Status)

  /** `crossoverChartData.find(d => d.year === year)`, as the index of the first point of a year. */
  function FindYear(data: seq<CrossoverPoint>, year: int): (r: Option<nat>)
    ensures r.Some? ==> r.value < |data| && data[r.value].year == year
    ensures r.Some? ==> forall j :: 0 <= j < r.value ==> data[j].year != year
    ensures r.None? ==> forall j :: 0 <= j < |data| ==> data[j].year != year
  {
    if data == [] then None
    else if data[0].year == year then Some(0)
    else
      match FindYear(data[1..], year)
      case None => None
      case Some(j) => Some(j + 1)
  }

  /** The milestone of a year: the cash flow of the crossover point of that year, else of the
      point at that index, else zero; and its status. */
  function MilestoneOf(data: seq<CrossoverPoint>, year: int, mortgageTerm: int, payment: real): Milestone
  {
    var cashFlow := match FindYear(data, year)
                    case Some(j) => data[j].cashFlow
                    case None => if 0 <= year < |data| then data[year].cashFlow else 0;
    Milestone(year, cashFlow, GetStatus(cashFlow as real, year, mortgageTerm, payment))
  }

  /** The milestone years `[1, 5, 10, min(20, term), term]`. */
  function MilestoneYears(mortgageTerm: int): seq<int>
  {
    [1, 5, 10, MinInt(20, mortgageTerm), mortgageTerm]
  }

  /** `years.map(...)`: the milestone of every listed year. */
  function MilestonesOf(data: seq<CrossoverPoint>, years: seq<int>, mortgageTerm: int, payment: real): (r: seq<Milestone>)
    ensures |r| == |years|
    ensures forall k :: 0 <= k < |r| ==> r[k] == MilestoneOf(data, years[k], mortgageTerm, payment)
  {
    if years == [] then []
    else [MilestoneOf(data, years[0], mortgageTerm, payment)] + MilestonesOf(data, years[1..], mortgageTerm, payment)
  }

  /** The milestone at `index` is the first one of its year. */
  predicate IsFirstOfYear(ms: seq<Milestone>, index: nat)
    requires index < |ms|
  {
    forall j :: 0 <= j < index ==> ms[j].year != ms[index].year
  }

  /** `.filter((m, i, arr) => arr.findIndex(x => x.year === m.year) === i)` from `index` on:
      the milestones that are the first of their year, in order. */
  function FirstOfEachYear(ms: seq<Milestone>, index: nat): seq<Milestone>
    requires index <= |ms|
    decreases |ms| - index
  {
    if index == |ms| then []
    else (if IsFirstOfYear(ms, index) then [ms[index]] else []) + FirstOfEachYear(ms, index + 1)
  }

  /** The filter keeps only milestones from `index` on that are the first of their year. */
  lemma {:induction false} FirstOfEachYearSound(ms: seq<Milestone>, index: nat)
    requires index <= |ms|
    ensures forall m :: m in FirstOfEachYear(ms, index) ==>
              exists k :: index <= k < |ms| && ms[k] == m && IsFirstOfYear(ms, k)
    decreases |ms| - index
  {
    if index < |ms| {
      FirstOfEachYearSound(ms, index + 1);
    }
  }

  /** The filter keeps every milestone from `index` on that is the first of its year. */
  lemma {:induction false} FirstOfEachYearComplete(ms: seq<Milestone>, index: nat)
    requires index <= |ms|
    ensures forall k :: index <= k < |ms| && IsFirstOfYear(ms, k) ==> ms[k] in FirstOfEachYear(ms, index)
    decreases |ms| - index
  {
    if index < |ms| {
      FirstOfEachYearComplete(ms, index + 1);
    }
  }

  /** The kept milestones have distinct years. */
  lemma {:induction false} FirstOfEachYearDistinct(ms: seq<Milestone>, index: nat)
    requires index <= |ms|
    ensures forall a, b :: 0 <= a < b < |FirstOfEachYear(ms, index)| ==>
              FirstOfEachYear(ms, index)[a].year != FirstOfEachYear(ms, index)[b].year
    decreases |ms| - index
  {
    if index < |ms| {
      FirstOfEachYearDistinct(ms, index + 1);
      var rest := FirstOfEachYear(ms, index + 1);
      if IsFirstOfYear(ms, index) {
        FirstOfEachYearSound(ms, index + 1);
        var r := FirstOfEachYear(ms, index);
        assert r == [ms[index]] + rest;
        forall a, b | 0 <= a < b < |r| ensures r[a].year != r[b].year {
          assert r[b] == rest[b - 1] && r[b] in rest;
          if a == 0 {
            var k :| index + 1 <= k < |ms| && ms[k] == r[b] && IsFirstOfYear(ms, k);
            assert ms[index].year != ms[k].year;
          } else {
            assert r[a] == rest[a - 1];
          }
        }
      } else {
        assert FirstOfEachYear(ms, index) == rest;
      }
    }
  }

  /** `milestones`: the milestones of the listed years, each year once, at its first place. */
  function Milestones(data: seq<CrossoverPoint>, mortgageTerm: int, payment: real): seq<Milestone>
  {
    FirstOfEachYear(MilestonesOf(data, MilestoneYears(mortgageTerm), mortgageTerm, payment), 0)
  }

  /** With the years `[1, 5, 10, min(20, term), term]` and a term of at least 10 (the sliders'
      range), the filter keeps the years 1, 5, 10, then 20 and the term where those are
      further years, each once and in that order. */
  lemma DedupMilestoneYears(ms: seq<Milestone>, term: int)
    requires 10 <= term && |ms| == 5
    requires forall k :: 0 <= k < 5 ==> ms[k].year == MilestoneYears(term)[k]
    ensures term == 10 ==> FirstOfEachYear(ms, 0) == [ms[0], ms[1], ms[2]]
    ensures 10 < term < 20 ==> FirstOfEachYear(ms, 0) == [ms[0], ms[1], ms[2], ms[3]]
    ensures term == 20 ==> FirstOfEachYear(ms, 0) == [ms[0], ms[1], ms[2], ms[3]]
    ensures 20 < term ==> FirstOfEachYear(ms, 0) == ms
  {
    assert ms[0].year == 1 && ms[1].year == 5 && ms[2].year == 10;
    assert ms[3].year == MinInt(20, term) && ms[4].year == term;
    assert IsFirstOfYear(ms, 0) && IsFirstOfYear(ms, 1) && IsFirstOfYear(ms, 2);
    assert IsFirstOfYear(ms, 3) <==> term > 10;
    assert IsFirstOfYear(ms, 4) <==> term > 20 by {
      if term <= 20 {
        assert ms[3].year == ms[4].year;
      }
    }
    assert FirstOfEachYear(ms, 5) == [];
    assert FirstOfEachYear(ms, 4) == (if term > 20 then [ms[4]] else []);
    assert FirstOfEachYear(ms, 3) == (if term > 10 then [ms[3]] else []) + FirstOfEachYear(ms, 4);
    assert FirstOfEachYear(ms, 2) == [ms[2]] + FirstOfEachYear(ms, 3);
    assert FirstOfEachYear(ms, 1) == [ms[1]] + FirstOfEachYear(ms, 2);
    assert FirstOfEachYear(ms, 0) == [ms[0]] + FirstOfEachYear(ms, 1);
  }

  /** The crossover chart of the inputs as a value. */
  function CrossoverSeries(i: ClassicInputs, payment: real): (r: seq<CrossoverPoint>)
    requires i.mortgageTerm >= 0
    ensures |r| == i.mortgageTerm + 1
    ensures forall y :: 0 <= y < |r| ==> r[y] == CrossoverPointAt(i, payment, y)
  {
    seq(i.mortgageTerm + 1, y requires 0 <= y => CrossoverPointAt(i, payment, y))
  }

  /** A milestone year within the term takes the crossover chart's cash flow of that year and
      the status of that cash flow; the listed years are the milestone years. */
  lemma MilestoneOfYearInTerm(i: ClassicInputs, payment: real, year: int)
    requires 0 <= year <= i.mortgageTerm
    ensures MilestoneOf(CrossoverSeries(i, payment), year, i.mortgageTerm, payment).year == year
    ensures MilestoneOf(CrossoverSeries(i, payment), year, i.mortgageTerm, payment).cashFlow
            == Round(CashFlowAtYear(i, payment, year))
    ensures MilestoneOf(CrossoverSeries(i, payment), year, i.mortgageTerm, payment).status
            == GetStatus(Round(CashFlowAtYear(i, payment, year)) as real, year, i.mortgageTerm, payment)
  {
    var data := CrossoverSeries(i, payment);
    var found := FindYear(data, year);
    assert data[year].year == year;
    assert found.Some? ==> data[found.value].year == found.value;
    CrossoverMatchesCashFlowAtYear(i, payment, year);
  }

  /** On the sliders' terms the milestone list holds the years 1, 5, 10, 20 and the term, each
      once and in that order; every milestone in it is a year of the term and takes that year's
      `cashFlowAtYear`, rounded, and the status of that cash flow. */
  lemma MilestonesOnSliders(i: ClassicInputs, payment: real)
    requires 10 <= i.mortgageTerm
    ensures var years := MilestoneYearsOf(Milestones(CrossoverSeries(i, payment), i.mortgageTerm, payment));
            && (i.mortgageTerm == 10 ==> years == [1, 5, 10])
            && (10 < i.mortgageTerm <= 20 ==> years == [1, 5, 10, i.mortgageTerm])
            && (20 < i.mortgageTerm ==> years == [1, 5, 10, 20, i.mortgageTerm])
    ensures forall m :: m in Milestones(CrossoverSeries(i, payment), i.mortgageTerm, payment) ==>
              && 1 <= m.year <= i.mortgageTerm
              && m.cashFlow == Round(CashFlowAtYear(i, payment, m.year))
              && m.status == GetStatus(m.cashFlow as real, m.year, i.mortgageTerm, payment)
  {
    var term := i.mortgageTerm;
    var ms := MilestonesOf(CrossoverSeries(i, payment), MilestoneYears(term), term, payment);
    DedupMilestoneYears(ms, term);
    forall k | 0 <= k < 5
      ensures 1 <= ms[k].year <= term
      ensures ms[k].cashFlow == Round(CashFlowAtYear(i, payment, ms[k].year))
      ensures ms[k].status == GetStatus(ms[k].cashFlow as real, ms[k].year, term, payment)
    {
      MilestoneOfYearInTerm(i, payment, MilestoneYears(term)[k]);
    }
  }

  /** The years of a list of milestones. */
  function MilestoneYearsOf(ms: seq<Milestone>): (r: seq<int>)
    ensures |r| == |ms| && forall k :: 0 <= k < |ms| ==> r[k] == ms[k].year
  {
    if ms == [] then [] else [ms[0].year] + MilestoneYearsOf(ms[1..])
  }

  // ---------------------------------------------------------------- summary and rounding

  /** `totalROI`: the final total wealth in percent of the down payment. */
  function TotalRoi(totalWealth: int, downPayment: real): real
    requires downPayment != 0.0
  {
    (totalWealth as real / downPayment) * 100.0
  }

  /** `annualAppreciationDollars`. */
  function AnnualAppreciationDollars(i: ClassicInputs): real
  {
    i.propertyValue * i.appreciation / 100.0
  }

  /** `leverageReturn`: the first year's appreciation in percent of the down payment. */
  function LeverageReturn(i: ClassicInputs): real
    requires ClassicDownPayment(i) != 0.0
  {
    (AnnualAppreciationDollars(i) / ClassicDownPayment(i)) * 100.0
  }

  /** Leverage multiplies the appreciation rate by price over down payment: the return on the
      down payment is the appreciation rate divided by the down-payment share; a month's
      appreciation is a twelfth of the year's. */
  lemma LeverageMultipliesAppreciation(i: ClassicInputs)
    requires ClassicDownPayment(i) != 0.0
    ensures LeverageReturn(i) == i.appreciation * 100.0 / i.downPaymentPercent
    ensures 12.0 * AppreciationPerMonth(i) == AnnualAppreciationDollars(i)
  {
    var p := i.propertyValue;
    var d := i.downPaymentPercent;
    assert p != 0.0 && d != 0.0;
    var q := (p * i.appreciation / 100.0) / (p * d / 100.0);
    assert q * (p * d / 100.0) == p * i.appreciation / 100.0;
    assert q * d * p == i.appreciation * p;
    assert q * d == i.appreciation;
    DivUnique(q, i.appreciation, d);
  }

  /** The figures of the summary panel. `annualizedROI`, a fractional root, is not part of it. */
  datatype SummaryFigures = SummaryFigures(
    totalWealth: int,
    totalRoi: real,
    leverageReturn: real,
    annualAppreciationDollars: real,
    finalCashFlow: int,
    finalEquity: int,
    finalAppreciation: int)

  /** The summary: the last wealth point's total and its parts, the total in percent of the down
      payment, and the leverage figures. The final equity is the whole loan when the loan and
      the rate are not negative; the final appreciation is the growth of the price over the
      term. */
  method ClassicSummary(i: ClassicInputs) returns (s: SummaryFigures)
    requires ClassicPaymentDefined(i) && ClassicDownPayment(i) != 0.0
    ensures s.totalWealth == WealthPointAt(i, MonthlyPayment(i), i.mortgageTerm).total
    ensures s.totalRoi == TotalRoi(s.totalWealth, ClassicDownPayment(i))
    ensures s.leverageReturn == LeverageReturn(i)
    ensures s.annualAppreciationDollars == AnnualAppreciationDollars(i)
    ensures s.finalCashFlow == WealthPointAt(i, MonthlyPayment(i), i.mortgageTerm).cashFlow
    ensures s.finalEquity == WealthPointAt(i, MonthlyPayment(i), i.mortgageTerm).equity
    ensures s.finalAppreciation == WealthPointAt(i, MonthlyPayment(i), i.mortgageTerm).appreciation
    ensures s.finalCashFlow == Round(AccumulatedCashFlow(i, MonthlyPayment(i), i.mortgageTerm))
    ensures s.finalAppreciation == Round(AppreciationAt(i, i.mortgageTerm))
    ensures ClassicLoanAmount(i) >= 0.0 && i.mortgageRate >= 0.0 ==> s.finalEquity == Round(ClassicLoanAmount(i))
  {
    var wealthChartData := WealthChartData(i);
    var finalData := wealthChartData[|wealthChartData| - 1];
    var totalWealth := finalData.total;
    var totalRoi := ((totalWealth as real) / ClassicDownPayment(i)) * 100.0;
    var annualAppreciationDollars := i.propertyValue * i.appreciation / 100.0;
    assert annualAppreciationDollars == AnnualAppreciationDollars(i);
    var leverageReturn := (annualAppreciationDollars / ClassicDownPayment(i)) * 100.0;
    if ClassicLoanAmount(i) >= 0.0 && i.mortgageRate >= 0.0 {
      WealthEquityAtTerm(i);
    }
    s := SummaryFigures(totalWealth, totalRoi, leverageReturn, annualAppreciationDollars,
                        finalData.cashFlow, finalData.equity, finalData.appreciation);
  }

  /** `roundNumber`: to the nearest 1000 from a million on, to the nearest 100 from ten
      thousand on, otherwise to the nearest 10. */
  function RoundNumber(value: real): real
  {
    if Abs(value) >= 1000000.0 then RoundToUnit(value, 1000.0)
    else if Abs(value) >= 10000.0 then RoundToUnit(value, 100.0)
    else RoundToUnit(value, 10.0)
  }

  /** The unit `roundNumber` rounds a value to. */
  function RoundNumberUnit(value: real): (unit: real)
    ensures unit > 0.0
  {
    if Abs(value) >= 1000000.0 then 1000.0 else if Abs(value) >= 10000.0 then 100.0 else 10.0
  }

  /** `roundNumber` gives the nearest multiple of its tier's unit; from a thousand on it agrees
      with the later `roundForDisplay`. */
  lemma RoundNumberIsNearest(value: real, m: int)
    ensures IsMultipleOf(RoundNumber(value), RoundNumberUnit(value))
    ensures Abs(RoundNumber(value) - value) <= RoundNumberUnit(value) / 2.0
    ensures Abs(RoundNumber(value) - value) <= Abs(m as real * RoundNumberUnit(value) - value)
    ensures Abs(value) >= 1000.0 ==> RoundNumber(value) == RoundForDisplay(value)
  {
    RoundToUnitIsNearest(value, RoundNumberUnit(value), m);
  }

  /** Below a thousand the two roundings differ: 4 is shown as 0 by `roundNumber` and as 4 by
      `roundForDisplay`. */
  lemma RoundNumberDiffersBelowThousand()
    ensures RoundNumber(4.0) == 0.0 && RoundForDisplay(4.0) == 4.0
  {
    assert Round(4.0 / 10.0) == 0;
    assert Round(4.0) == 4;
  }
}
