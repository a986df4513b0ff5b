/** `getSliderConfigs` (components/calculators/realestate-v2/utils/sliderConfigs.ts): the range,
    step and "advanced" flag of each input's slider. Labels, help texts, prefixes and
    suffixes come from translation tables and are not modelled. The ranges are the intended
    input domain of the engine; typed values are not clamped to them, so they are assumptions
    of the lemmas below, not guarantees. */
module SliderConfigs {
  import opened Numerics
  import opened Types
  import opened Amortization
  import opened Calculations
  import opened Projection
  import opened ProjectionProperties

  datatype SliderConfig = SliderConfig(min: real, max: real, step: real, advanced: bool)

  /** The slider of each input; `closingCosts` has none. */
  function SliderConfigFor(f: InputField): Option<SliderConfig>
  {
    match f
    case PurchasePrice => Some(SliderConfig(50000.0, 300000.0, 5000.0, false))
    case BelowMarketPercent => Some(SliderConfig(0.0, 40.0, 5.0, false))
    case MonthlyRent => Some(SliderConfig(500.0, 3000.0, 50.0, false))
    case AppreciationRate => Some(SliderConfig(0.0, 10.0, 0.5, false))
    case RentGrowthRate => Some(SliderConfig(0.0, 6.0, 0.5, false))
    case DownPaymentPercent => Some(SliderConfig(0.0, 100.0, 5.0, false))
    case ClosingCosts => None
    case VacancyRate => Some(SliderConfig(0.0, 20.0, 1.0, true))
    case InsuranceTaxMonthly => Some(SliderConfig(0.0, 500.0, 25.0, true))
    case PropertyManagementPercent => Some(SliderConfig(0.0, 15.0, 1.0, true))
    case MaintenancePercent => Some(SliderConfig(0.0, 5.0, 0.5, true))
    case MortgageRate => Some(SliderConfig(4.0, 12.0, 0.25, true))
    case MortgageTermYears => Some(SliderConfig(10.0, 30.0, 5.0, true))
  }

  /** Every slider has a positive step and a non-empty range that is a whole number of steps. */
  lemma SlidersWellFormed(f: InputField)
    requires SliderConfigFor(f).Some?
    ensures var c := SliderConfigFor(f).value;
            c.step > 0.0 && c.min < c.max && IsMultipleOf(c.max - c.min, c.step)
  {
  }

  /** Only `closingCosts` has no slider, and exactly the six fields of the "advanced" section
      are flagged advanced. */
  lemma AdvancedSliders(f: InputField)
    ensures SliderConfigFor(f).None? <==> f == ClosingCosts
    ensures SliderConfigFor(f).Some? && SliderConfigFor(f).value.advanced <==>
              f in {VacancyRate, InsuranceTaxMonthly, PropertyManagementPercent, MaintenancePercent,
                    MortgageRate, MortgageTermYears}
  {
  }

  /** A value a slider can produce: within its range, a whole number of steps above its minimum. */
  predicate OnSlider(v: real, c: SliderConfig)
  {
    c.step > 0.0 && c.min <= v <= c.max && IsMultipleOf(v - c.min, c.step)
  }

  /** Every input with a slider holds a value that slider can produce. */
  predicate InSliderDomain(inputs: RealEstateInputs)
  {
    forall f :: SliderConfigFor(f).Some? ==> OnSlider(Get(inputs, f), SliderConfigFor(f).value)
  }

  /** The default inputs are values the sliders can produce. */
  lemma DefaultsOnSliders()
    ensures InSliderDomain(DEFAULT_INPUTS)
  {
    forall f | SliderConfigFor(f).Some? ensures OnSlider(Get(DEFAULT_INPUTS, f), SliderConfigFor(f).value) {
      match f
      case PurchasePrice => assert (85000.0 - 50000.0) / 5000.0 == 7.0;
      case MonthlyRent => assert (1100.0 - 500.0) / 50.0 == 12.0;
      case MortgageRate => assert (7.5 - 4.0) / 0.25 == 14.0;
      case _ =>
    }
  }

  /** A term the term slider can produce, 10 to 30 years in steps of 5, is a whole number of
      at least 120 months. */
  lemma SliderTermIsWholeMonths(termYears: real)
    requires OnSlider(termYears, SliderConfig(10.0, 30.0, 5.0, true))
    ensures WholeMonths(termYears) && NumPayments(termYears) >= 120
  {
    var k := ((termYears - 10.0) / 5.0).Floor;
    assert k as real == (termYears - 10.0) / 5.0;
    assert termYears * 12.0 == (120 + 60 * k) as real;
  }

  /** The ranges the engine's definedness depends on. */
  lemma SliderRanges(inputs: RealEstateInputs)
    requires InSliderDomain(inputs)
    ensures 50000.0 <= inputs.purchasePrice <= 300000.0
    ensures 0.0 <= inputs.belowMarketPercent <= 40.0
    ensures 0.0 <= inputs.downPaymentPercent <= 100.0
    ensures 4.0 <= inputs.mortgageRate <= 12.0
    ensures OnSlider(inputs.mortgageTermYears, SliderConfig(10.0, 30.0, 5.0, true))
  {
    assert OnSlider(Get(inputs, PurchasePrice), SliderConfigFor(PurchasePrice).value);
    assert OnSlider(Get(inputs, BelowMarketPercent), SliderConfigFor(BelowMarketPercent).value);
    assert OnSlider(Get(inputs, DownPaymentPercent), SliderConfigFor(DownPaymentPercent).value);
    assert OnSlider(Get(inputs, MortgageRate), SliderConfigFor(MortgageRate).value);
    assert OnSlider(Get(inputs, MortgageTermYears), SliderConfigFor(MortgageTermYears).value);
  }

  /** A down payment of at most 100% of a non-negative price leaves a non-negative loan. */
  lemma LoanNotNegative(inputs: RealEstateInputs)
    requires inputs.purchasePrice >= 0.0 && inputs.downPaymentPercent <= 100.0
    ensures LoanAmount(inputs) >= 0.0
  {
    MulMonotone(inputs.downPaymentPercent / 100.0, 1.0, inputs.purchasePrice);
    assert DownPayment(inputs) == inputs.downPaymentPercent / 100.0 * inputs.purchasePrice;
  }

  /** Inside the slider ranges the engine is defined and the balance facts apply: the
      below-market divisor is not zero, the term is at least 120 whole months, the rate of at
      least 4% makes the payment formula's denominator non-zero, the loan is not negative, and
      the market value is at least the price. */
  lemma SliderDomainIsEngineDomain(inputs: RealEstateInputs)
    requires InSliderDomain(inputs)
    ensures EngineDefined(inputs) && BalanceDomain(inputs)
    ensures TotalMonths(inputs) >= 120
    ensures PaymentDefined(inputs.mortgageRate, inputs.mortgageTermYears)
    ensures CalculateDerivedValues(inputs).marketValue >= inputs.purchasePrice
  {
    SliderRanges(inputs);
    SliderTermIsWholeMonths(inputs.mortgageTermYears);
    PaymentDefinedForRate(inputs.mortgageRate, inputs.mortgageTermYears);
    LoanNotNegative(inputs);
    BelowMarketGivesEquity(inputs);
  }
}
