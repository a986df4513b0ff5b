/** The records of the version-2 calculator (inputs, derived values, expenses, year-1 results,
    chart points) and its two constant tables: the short URL keys and the default inputs. */
module Types {

  datatype Option<T> = None | Some(value: T)

  /** The thirteen user inputs; rates and percentages are on a 0-100 scale. */
  datatype RealEstateInputs = RealEstateInputs(
    purchasePrice: real,
    belowMarketPercent: real,
    monthlyRent: real,
    appreciationRate: real,
    rentGrowthRate: real,
    downPaymentPercent: real,
    closingCosts: real,
    mortgageRate: real,
    mortgageTermYears: real,
    vacancyRate: real,
    insuranceTaxMonthly: real,
    propertyManagementPercent: real,
    maintenancePercent: real)

  /** What the engine derives from the inputs once, before projecting. The declared field
      `totalCashRequired` is never filled in by the engine and is absent here. */
  datatype DerivedValues = DerivedValues(
    marketValue: real,
    instantEquity: real,
    downPayment: real,
    loanAmount: real,
    monthlyMortgage: real)

  datatype MonthlyExpenses = MonthlyExpenses(
    vacancy: real,
    insuranceTax: real,
    management: real,
    maintenance: real,
    total: real)

  datatype EngineBreakdown = EngineBreakdown(value: real, percent: real)

  /** The "three engines of profit": cash flow, appreciation and principal paydown. */
  datatype ThreeEngines = ThreeEngines(
    cashFlow: EngineBreakdown,
    appreciation: EngineBreakdown,
    principalPaydown: EngineBreakdown)

  /** Year 1 of an all-cash purchase. */
  datatype NoLeverage = NoLeverage(
    netMonthly: real,
    annualCashFlow: real,
    appreciation: real,
    totalReturn: real,
    roi: real)

  /** Year 1 of the financed purchase. */
  datatype WithLeverage = WithLeverage(
    netMonthly: real,
    annualCashFlow: real,
    appreciation: real,
    principalPaydown: real,
    totalReturn: real,
    roi: real,
    engines: ThreeEngines)

  datatype Year1Results = Year1Results(noLeverage: NoLeverage, withLeverage: WithLeverage)

  /** One month of the projection. The display label ("year.MM") is not modelled, and the
      declared field `netWorth` is never filled in by the engine and is absent here. */
  datatype ChartDataPoint = ChartDataPoint(
    month: int,
    year: int,
    monthlyRent: real,
    propertyValue: real,
    mortgageBalance: real,
    equity: real,
    equityPercent: real,
    monthlyCashFlow: real,
    cumulativeCashFlow: real,
    totalEquityBuilt: real)

  /** The summary the engine returns; the declared `averageAnnualROI` is never filled in and is absent. */
  datatype Summary = Summary(year1: Year1Results, year15: ChartDataPoint, year30: ChartDataPoint)

  datatype ProjectionData = ProjectionData(chartData: seq<ChartDataPoint>, summary: Summary)

  /** The keys of `RealEstateInputs`. */
  datatype InputField =
    | PurchasePrice | BelowMarketPercent | MonthlyRent | AppreciationRate | RentGrowthRate
    | DownPaymentPercent | ClosingCosts | VacancyRate | InsuranceTaxMonthly
    | PropertyManagementPercent | MaintenancePercent | MortgageRate | MortgageTermYears

  /** The fields in the key order of the default-input object, which is the order in which
      an inputs object built from it enumerates its keys. */
  const AllFields: seq<InputField> := [
    PurchasePrice, BelowMarketPercent, MonthlyRent, AppreciationRate, RentGrowthRate,
    DownPaymentPercent, ClosingCosts, VacancyRate, InsuranceTaxMonthly,
    PropertyManagementPercent, MaintenancePercent, MortgageRate, MortgageTermYears]

  lemma AllFieldsListsEachFieldOnce()
    ensures |AllFields| == 13
    ensures forall f: InputField :: f in AllFields
    ensures forall i, j :: 0 <= i < j < |AllFields| ==> AllFields[i] != AllFields[j]
  {
    forall f: InputField ensures f in AllFields {
      match f
      case PurchasePrice => assert AllFields[0] == f;
      case BelowMarketPercent => assert AllFields[1] == f;
      case MonthlyRent => assert AllFields[2] == f;
      case AppreciationRate => assert AllFields[3] == f;
      case RentGrowthRate => assert AllFields[4] == f;
      case DownPaymentPercent => assert AllFields[5] == f;
      case ClosingCosts => assert AllFields[6] == f;
      case VacancyRate => assert AllFields[7] == f;
      case InsuranceTaxMonthly => assert AllFields[8] == f;
      case PropertyManagementPercent => assert AllFields[9] == f;
      case MaintenancePercent => assert AllFields[10] == f;
      case MortgageRate => assert AllFields[11] == f;
      case MortgageTermYears => assert AllFields[12] == f;
    }
  }

  /** `inputs[key]`. */
  function Get(inputs: RealEstateInputs, f: InputField): real
  {
    match f
    case PurchasePrice => inputs.purchasePrice
    case BelowMarketPercent => inputs.belowMarketPercent
    case MonthlyRent => inputs.monthlyRent
    case AppreciationRate => inputs.appreciationRate
    case RentGrowthRate => inputs.rentGrowthRate
    case DownPaymentPercent => inputs.downPaymentPercent
    case ClosingCosts => inputs.closingCosts
    case VacancyRate => inputs.vacancyRate
    case InsuranceTaxMonthly => inputs.insuranceTaxMonthly
    case PropertyManagementPercent => inputs.propertyManagementPercent
    case MaintenancePercent => inputs.maintenancePercent
    case MortgageRate => inputs.mortgageRate
    case MortgageTermYears => inputs.mortgageTermYears
  }

  /** `inputs[key] = v` on a copy. */
  function Set(inputs: RealEstateInputs, f: InputField, v: real): (r: RealEstateInputs)
    ensures Get(r, f) == v
    ensures forall g :: g != f ==> Get(r, g) == Get(inputs, g)
  {
    match f
    case PurchasePrice => inputs.(purchasePrice := v)
    case BelowMarketPercent => inputs.(belowMarketPercent := v)
    case MonthlyRent => inputs.(monthlyRent := v)
    case AppreciationRate => inputs.(appreciationRate := v)
    case RentGrowthRate => inputs.(rentGrowthRate := v)
    case DownPaymentPercent => inputs.(downPaymentPercent := v)
    case ClosingCosts => inputs.(closingCosts := v)
    case VacancyRate => inputs.(vacancyRate := v)
    case InsuranceTaxMonthly => inputs.(insuranceTaxMonthly := v)
    case PropertyManagementPercent => inputs.(propertyManagementPercent := v)
    case MaintenancePercent => inputs.(maintenancePercent := v)
    case MortgageRate => inputs.(mortgageRate := v)
    case MortgageTermYears => inputs.(mortgageTermYears := v)
  }

  /** Two input records are equal exactly when they agree on every field. */
  lemma InputsExtensional(a: RealEstateInputs, b: RealEstateInputs)
    requires forall f :: Get(a, f) == Get(b, f)
    ensures a == b
  {
    assert Get(a, PurchasePrice) == Get(b, PurchasePrice);
    assert Get(a, BelowMarketPercent) == Get(b, BelowMarketPercent);
    assert Get(a, MonthlyRent) == Get(b, MonthlyRent);
    assert Get(a, AppreciationRate) == Get(b, AppreciationRate);
    assert Get(a, RentGrowthRate) == Get(b, RentGrowthRate);
    assert Get(a, DownPaymentPercent) == Get(b, DownPaymentPercent);
    assert Get(a, ClosingCosts) == Get(b, ClosingCosts);
    assert Get(a, VacancyRate) == Get(b, VacancyRate);
    assert Get(a, InsuranceTaxMonthly) == Get(b, InsuranceTaxMonthly);
    assert Get(a, PropertyManagementPercent) == Get(b, PropertyManagementPercent);
    assert Get(a, MaintenancePercent) == Get(b, MaintenancePercent);
    assert Get(a, MortgageRate) == Get(b, MortgageRate);
    assert Get(a, MortgageTermYears) == Get(b, MortgageTermYears);
  }

  /** `URL_KEYS`: the short query-string key of each input. */
  function UrlKey(f: InputField): string
  {
    match f
    case PurchasePrice => "pp"
    case BelowMarketPercent => "bm"
    case MonthlyRent => "mr"
    case AppreciationRate => "ar"
    case RentGrowthRate => "rg"
    case DownPaymentPercent => "dp"
    case ClosingCosts => "cc"
    case VacancyRate => "vr"
    case InsuranceTaxMonthly => "it"
    case PropertyManagementPercent => "pm"
    case MaintenancePercent => "mt"
    case MortgageRate => "mi"
    case MortgageTermYears => "my"
  }

  /** Every input has its own two-letter key, so the key table can be reversed. */
  lemma UrlKeysDistinct()
    ensures forall f :: |UrlKey(f)| == 2
    ensures forall f, g :: f != g ==> UrlKey(f) != UrlKey(g)
  {
  }

  /** `DEFAULT_INPUTS`. */
  const DEFAULT_INPUTS: RealEstateInputs := RealEstateInputs(
    purchasePrice := 85000.0,
    belowMarketPercent := 0.0,
    monthlyRent := 1100.0,
    appreciationRate := 4.0,
    rentGrowthRate := 3.0,
    downPaymentPercent := 25.0,
    closingCosts := 8000.0,
    mortgageRate := 7.5,
    mortgageTermYears := 30.0,
    vacancyRate := 8.0,
    insuranceTaxMonthly := 200.0,
    propertyManagementPercent := 0.0,
    maintenancePercent := 0.0)
}
