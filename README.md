# investedAI real-estate calculators in Dafny

This project models the calculation core of the investedAI real-estate calculators and proves
properties of that model. Numbers are exact reals rather than IEEE doubles.

- **Version-2 engine** (`realestate-v2/utils/calculations.ts`):
  - the amortization primitives: the fixed monthly payment and the closed-form remaining
    balance;
  - the derived values and the monthly operating expenses;
  - the year-1 comparison of an all-cash and a financed purchase, with the "three engines"
    attribution of the financed return to cash flow, appreciation and principal paydown;
  - the month-by-month projection loop;
  - the chart sampling filter and the display rounding.

  The central result is the agreement of two balance computations. The projection keeps an
  incremental balance, month by month. `calculateRemainingBalance` gives a closed form. Over the
  reals, for a loan and rate that are not negative, the two are equal at every month of the term
  (`Amortization.IncrementalMatchesClosedForm`). A negative loan, from a down payment typed above
  100%, is never amortized by the projection, while `calculateRemainingBalance` gives 0 for it.
- **Records and tables** (`realestate-v2/types.ts`): the input, derived, expense, year-1 and
  chart-point records, the short URL keys and the default inputs.
- **Original single-page calculator** (`RealEstateCalculator.tsx`):
  - the loan and payment;
  - the cash flow at a year;
  - the yearly wealth and crossover series, built by nested loops;
  - the milestone classifier and its de-duplication of years;
  - the summary figures and `roundNumber`.
- **Share-URL state** (`realestate-pro/hooks/useUrlState.ts`):
  - the reverse key table;
  - the query parser, which starts from the defaults;
  - the share-URL writer, which keeps only inputs that differ from their defaults;
  - the address updater, which skips its first call.

  The round trip "write a share URL, load it, parse it" gives the inputs back.
- **Yearly wealth breakdown of the wealth chart** (`realestate-pro/components/WealthChart.tsx`).
- **Slider table** (`realestate-v2/utils/sliderConfigs.ts`). Its ranges are the intended input
  domain, and inside them the engine is proved to be defined.

Where a loop changes state in the source, the model is a `method` with a `while` loop. The loops
are:

- the projection, writing a pre-allocated array;
- the year-1 paydown;
- the wealth and crossover series;
- the query parser and the share-URL writer;
- the wealth-chart transform.

Each method is proved against a specification function, and the properties are lemmas about those
functions. The hook's `isInitialMount` flag and the browser address are the fields of a class.

Inputs the model takes as parameters:

- `Math.pow(1 + appreciationRate / 100, 1 / 12)` is the parameter `g`. The lemmas that need it
  require `Pow(g, 12) == 1 + appreciationRate / 100`.
- `String(number)` and `parseFloat` are the parameters `toStr` and `parse`, with `None`
  standing for NaN.
- The page's base URL (origin and path) is a parameter.

Where the documentation and the code differ, the model follows the code:

- **Loan amount.** The loan amount is not always non-negative: a down payment above 100% gives a
  negative loan. The lemmas that need a non-negative loan require one, and inside the slider
  ranges it holds (`SliderConfigs.LoanNotNegative`).
- **Closing costs.** No calculation subtracts them, so the running cash flow does not start
  negative because of them, although a comment in `WealthChart.tsx` says it does. It starts at
  month 0's cash flow (`ProjectionProperties.MonthZero`), which is negative whenever the payment
  exceeds the rent less the expenses.
- **Year of the last point.** `ChartDataPoint.year` is documented as 1-30. The code gives
  `month / 12 + 1`, which is 31 at month 360.
- **Below-market discount.** It is documented as 0-50. The slider offers 0-40.
- **Month-0 payment.** Month 0 deducts a mortgage payment from the cash flow although no
  amortization step has run.

## Model

| member | source | states |
|---|---|---|
| Amortization.MonthlyMortgage | components/calculators/realestate-v2/utils/calculations.ts:39-55 | a principal that is not positive gives a payment of 0; at a zero rate the payments of the term add up to the principal |
| Amortization.PaymentDefinedForRate | components/calculators/realestate-v2/utils/calculations.ts:51-54 | for a whole, positive number of months and any rate above -1200% a year, the payment formula's denominator `(1+r)^n - 1` is not zero |
| Amortization.PaymentExceedsInterest | components/calculators/realestate-v2/utils/calculations.ts:51-54 | at a positive rate the payment exceeds the first month's interest, so every payment repays some principal |
| Amortization.AnnuityExceedsInterest | components/calculators/realestate-v2/utils/calculations.ts:51-54 | the annuity payment `P r a / (a - 1)` exceeds the interest `P r` when a > 1 |
| Amortization.RemainingBalance | components/calculators/realestate-v2/utils/calculations.ts:68-89 | the remaining balance is never negative; it is 0 for a principal that is not positive and once every payment is made |
| Amortization.ClosedFormAtZero | components/calculators/realestate-v2/utils/calculations.ts:83-86 | before any payment the closed form is the whole principal |
| Amortization.OwedFractionEnds | components/calculators/realestate-v2/utils/calculations.ts:83-86 | the owed fraction is the principal at `(1+r)^0` and nothing at `(1+r)^n` |
| Amortization.ClosedFormStep | components/calculators/realestate-v2/utils/calculations.ts:79-86 | the closed form (both the interest and the zero-rate branch) satisfies the loan recurrence B(k+1) = B(k)(1+r) - M |
| Amortization.AmortizedIsClosedForm | components/calculators/realestate-v2/utils/calculations.ts:79-86 | k months of the unclamped recurrence from the principal at the computed payment give the closed form at k |
| Amortization.PaymentRepaysLoan | components/calculators/realestate-v2/utils/calculations.ts:39-55 | the computed payment retires the loan: n months of interest then payment leave exactly nothing owed |
| Amortization.ClosedFormBounds | components/calculators/realestate-v2/utils/calculations.ts:83-88 | for a rate that is not negative the closed form lies in [0, principal], is 0 at the last payment and positive before it |
| Amortization.ClosedFormNonIncreasing | components/calculators/realestate-v2/utils/calculations.ts:83-86 | for a rate that is not negative the closed form never increases from one month to the next |
| Amortization.ClosedFormMonth | components/calculators/realestate-v2/utils/calculations.ts:325-329 | before the last payment one month of the projection's clamped update takes the closed form at k to the closed form at k + 1 |
| Amortization.RemainingBalanceIsClosedForm | components/calculators/realestate-v2/utils/calculations.ts:74-88 | within the term the `Math.max(0, ...)` clamp never changes the value, and the early return at the last payment agrees with the closed form |
| Amortization.AmortizeMonth | components/calculators/realestate-v2/utils/calculations.ts:325-329 | a positive balance never goes below zero in a month; a balance that is not positive is left unchanged |
| Amortization.AmortizeMonthIsClampedStep | components/calculators/realestate-v2/utils/calculations.ts:325-329 | on a positive balance the projection's "interest, then principal capped at the balance" update is the loan recurrence clamped at zero |
| Amortization.BalanceAfter | components/calculators/realestate-v2/utils/calculations.ts:325-329 | defines the balance after k months of that update; `Amortization.IncrementalMatchesClosedForm` and `Amortization.BalanceAfterBounds` state its properties |
| Amortization.IncrementalMatchesClosedForm | components/calculators/realestate-v2/utils/calculations.ts:325-329 | with a loan and rate that are not negative, the incremental balance equals `calculateRemainingBalance` at every month of the term |
| Amortization.BalanceAfterBounds | components/calculators/realestate-v2/utils/calculations.ts:325-329 | for a loan and rate that are not negative, the incremental balance stays in [0, loan], never increases from one month to the next, and is exactly 0 after the last payment |
| Calculations.CalculateDerivedValues | components/calculators/realestate-v2/utils/calculations.ts:98-124 | down payment plus loan is the price; the down payment is its percentage of the price; instant equity is market value less price; the market value is the price without a discount, and the discounted market value is the price; the payment is `calculateMonthlyMortgage` of the loan |
| Calculations.BelowMarketGivesEquity | components/calculators/realestate-v2/utils/calculations.ts:108-112 | for a non-negative price and a discount below 100%, the market value is at least the price and the instant equity is not negative |
| Calculations.DefaultDerivedValues | components/calculators/realestate-v2/types.ts:180-194 | the default inputs are in the engine's domain and give a down payment of 21250, a loan of 63750, the price as market value and no instant equity |
| Calculations.CalculateMonthlyExpenses | components/calculators/realestate-v2/utils/calculations.ts:133-150 | the total is the sum of vacancy, insurance and tax, management and maintenance; vacancy and management are their percentages of the rent, maintenance a twelfth of its yearly percentage of the value |
| Calculations.ExpensesMonotone | components/calculators/realestate-v2/utils/calculations.ts:133-150 | with non-negative rates the expenses are at least the fixed insurance and tax, and they grow with rent and value |
| Calculations.Roi | components/calculators/realestate-v2/utils/calculations.ts:184-186 | for a positive investment the ROI is the return as a percentage of it; otherwise it is 0 |
| Calculations.EngineShare | components/calculators/realestate-v2/utils/calculations.ts:223-225 | an engine's percent is its value as a percentage of a non-zero total, and 0 for a zero total |
| Calculations.SharesSumToHundred | components/calculators/realestate-v2/utils/calculations.ts:215-239 | the shares of three values in their non-zero sum add up to exactly 100 |
| Calculations.ThreeEnginesOf | components/calculators/realestate-v2/utils/calculations.ts:214-239 | the engines carry the cash flow, appreciation and paydown values; their percents add up to 100 for a non-zero total and are all 0 for a zero total |
| Calculations.Year1PrincipalPaydown | components/calculators/realestate-v2/utils/calculations.ts:193-203 | the paydown loop takes off the loan what twelve months of the projection's running balance take, stopping early once nothing is owed |
| Calculations.BalanceAfterSettles | components/calculators/realestate-v2/utils/calculations.ts:198 | once the running balance is not positive it no longer changes, so stopping the loop early is the same as running all twelve months |
| Calculations.ZeroLoanStaysZero | components/calculators/realestate-v2/utils/calculations.ts:195-198 | a loan that is not positive is never amortized |
| Calculations.Year1StepIsAmortizeMonth | components/calculators/realestate-v2/utils/calculations.ts:199-202 | the year-1 loop's unclamped step is the projection's clamped step on a positive balance, and never goes below zero |
| Calculations.Year1Of | components/calculators/realestate-v2/utils/calculations.ts:159-259 | defines the year-1 results of the inputs as a value; `Calculations.CalculateYear1Results`, `Calculations.Year1Properties` and `Calculations.Year1PaydownIsClosedForm` state their properties |
| Calculations.CalculateYear1Results | components/calculators/realestate-v2/utils/calculations.ts:159-259 | the method computes exactly the year-1 results that `Calculations.Year1Properties` characterizes |
| Calculations.Year1Properties | components/calculators/realestate-v2/utils/calculations.ts:176-258 | without leverage, net is rent less expenses; with leverage, the payment is also deducted; both scenarios see the same appreciation; the leveraged return is the sum of its three engines; the engine percents add up to 100 (or are all 0); each ROI is 0 for a non-positive investment; the paydown is what twelve months take off the loan |
| Calculations.Year1PaydownIsClosedForm | components/calculators/realestate-v2/utils/calculations.ts:193-203 | with a rate and loan that are not negative and a term of at least a year, the year-1 paydown is the loan less `calculateRemainingBalance` at month 12, and lies in [0, loan] |
| Projection.MonthPoint | components/calculators/realestate-v2/utils/calculations.ts:342-374 | defines the point stored for a month from the running rent, value, balance and cash flow; `Projection.ProjectMonth`, `ProjectionProperties.PointRelations`, `ProjectionProperties.InlineExpenses` and `ProjectionProperties.PointCashFlow` state its properties |
| Projection.PointAt | components/calculators/realestate-v2/utils/calculations.ts:320-374 | defines the point of month k from the closed-form rent, value and balance; `Projection.ProjectMonths` ties the loop to it, and the `ProjectionProperties` rows state its properties |
| Projection.ProjectMonth | components/calculators/realestate-v2/utils/calculations.ts:321-374 | one pass of the loop body turns the running state before a month into the state after it and stores that month's specified point |
| Projection.ProjectMonths | components/calculators/realestate-v2/utils/calculations.ts:311-375 | the loop fills a new array of `TOTAL_MONTHS + 1` points, each the specified point of its month |
| Projection.GenerateProjectionData | components/calculators/realestate-v2/utils/calculations.ts:279-389 | the chart has `TOTAL_MONTHS + 1` points, each the specified point of its month; the summary holds the year-1 results and the points at `min(180, TOTAL_MONTHS)` and `TOTAL_MONTHS` |
| Projection.PointsAreThePoints | components/calculators/realestate-v2/utils/calculations.ts:362 | the stored prefix of the chart holds, at index k, the point of month k |
| Projection.StateAtStart | components/calculators/realestate-v2/utils/calculations.ts:314-317 | the loop starts from the initial rent, market value and loan, which are the closed forms at month 0 |
| Projection.RentStep | components/calculators/realestate-v2/utils/calculations.ts:335-338 | rent is multiplied by the yearly factor exactly at a month divisible by 12 and is unchanged otherwise |
| Projection.ValueStep | components/calculators/realestate-v2/utils/calculations.ts:332-334 | every month after the first multiplies the value by the monthly factor |
| ProjectionProperties.PointLabels | components/calculators/realestate-v2/utils/calculations.ts:320-322 | point k has month k and year k / 12 + 1, and carries that month's rent, value and balance |
| ProjectionProperties.PointRelations | components/calculators/realestate-v2/utils/calculations.ts:342-359 | equity is value less balance; the equity percent is 0 for a value that is not positive and the equity's share of it otherwise; the equity built is down payment plus appreciation plus principal paid, which is the equity less the instant equity |
| ProjectionProperties.InlineExpenses | components/calculators/realestate-v2/utils/calculations.ts:345-349 | the projection's inline expenses are `calculateMonthlyExpenses` at the current rent and value |
| ProjectionProperties.PointCashFlow | components/calculators/realestate-v2/utils/calculations.ts:351-353 | a month's cash flow is rent less expenses, less the payment exactly while the month's balance is positive |
| ProjectionProperties.CumulativeRecurrence | components/calculators/realestate-v2/utils/calculations.ts:354 | the running cash flow adds each month's cash flow to that of the month before |
| ProjectionProperties.CumulativeIsSumOfMonths | components/calculators/realestate-v2/utils/calculations.ts:354 | the running cash flow of a month is the sum of the cash flows of all months up to it |
| ProjectionProperties.MonthZero | components/calculators/realestate-v2/utils/calculations.ts:325-353 | month 0 has the initial rent, market value and loan, and with a loan it still deducts a payment |
| ProjectionProperties.BalanceAtIsRemainingBalance | components/calculators/realestate-v2/utils/calculations.ts:325-329 | for a loan and rate that are not negative, the chart's balance at every month of the term is `calculateRemainingBalance` of that month |
| ProjectionProperties.BalanceAtBounds | components/calculators/realestate-v2/utils/calculations.ts:325-329 | for a loan and rate that are not negative, the chart's balance stays in [0, loan], never increases, is positive before the last month of a positive loan, and is 0 at `TOTAL_MONTHS` |
| ProjectionProperties.PaymentDeductedUntilPayoff | components/calculators/realestate-v2/utils/calculations.ts:352-353 | on a positive loan the payment is deducted in every month before the last, month 0 included, and not in the payoff month |
| ProjectionProperties.MonthlyFactorAtLeastOne | components/calculators/realestate-v2/utils/calculations.ts:303 | a monthly factor whose twelfth power is the yearly factor is at least one when the appreciation rate is not negative |
| ProjectionProperties.ValueAtYear | components/calculators/realestate-v2/utils/calculations.ts:303 | at every year boundary the value is the market value compounded yearly at the appreciation rate |
| ProjectionProperties.ValueNondecreasing | components/calculators/realestate-v2/utils/calculations.ts:332-334 | with a non-negative appreciation rate and market value the value never decreases |
| ProjectionProperties.RentInYear | components/calculators/realestate-v2/utils/calculations.ts:335-338 | throughout year y the rent is the initial rent grown y times by the yearly factor |
| ProjectionProperties.RentNondecreasing | components/calculators/realestate-v2/utils/calculations.ts:335-338 | with non-negative rent and growth the rent never decreases |
| ProjectionProperties.Year1PaydownMatchesChart | components/calculators/realestate-v2/utils/calculations.ts:193-203 | the year-1 paydown is the loan less the chart's balance at month 12 |
| ProjectionProperties.NetWorthOfPoints | components/calculators/realestate-v2/types.ts:117 | the documented net worth is equity plus running cash flow, and grows each month by that month's cash flow plus its change in equity |
| Display.Kept | components/calculators/realestate-v2/utils/calculations.ts:400-405 | defines the sampling filter: a year boundary, an index divisible by 3, or the last index; `Display.KeptIndicesSound`, `Display.KeptIndicesComplete` and `Display.SampleChartData` state its properties |
| Display.KeptIndices | components/calculators/realestate-v2/utils/calculations.ts:399-406 | the kept indices lie in range and are no more than the points |
| Display.KeptIndicesSound | components/calculators/realestate-v2/utils/calculations.ts:400-405 | every kept index passes the filter, and the kept indices strictly increase |
| Display.KeptIndicesComplete | components/calculators/realestate-v2/utils/calculations.ts:400-405 | every index that passes the filter is kept, and the last index always is |
| Display.SampleFromIsKeptPoints | components/calculators/realestate-v2/utils/calculations.ts:400-405 | the filter yields the points at the kept indices, in order |
| Display.SampleChartData | components/calculators/realestate-v2/utils/calculations.ts:399-406 | the sample is the order-preserving subsequence of exactly the points at a year boundary, at an index divisible by 3, or at the last index |
| Display.SampleKeepsEnds | components/calculators/realestate-v2/utils/calculations.ts:399-406 | a non-empty chart keeps its first and last points in first and last place, and is not made longer |
| Display.SampleKeepsYearBoundaries | components/calculators/realestate-v2/utils/calculations.ts:401 | every year-boundary point survives sampling |
| Display.RoundForDisplay | components/calculators/realestate-v2/utils/calculations.ts:411-416 | defines `roundForDisplay` by magnitude tier; `Display.RoundForDisplayIsRoundToUnit` and `Display.RoundForDisplayIsNearest` state its properties |
| Display.DisplayUnit | components/calculators/realestate-v2/utils/calculations.ts:411-416 | the unit of each tier is positive |
| Display.RoundForDisplayIsRoundToUnit | components/calculators/realestate-v2/utils/calculations.ts:411-416 | every tier, the integer tier included, is rounding to that tier's unit of 1000, 100, 10 or 1 |
| Display.RoundForDisplayIsNearest | components/calculators/realestate-v2/utils/calculations.ts:411-416 | the displayed value is a whole multiple of its tier's unit, within half a unit of the value, and no multiple of that unit is nearer |
| SliderConfigs.SliderConfigFor | components/calculators/realestate-v2/utils/sliderConfigs.ts:10-116 | defines the slider table: bounds, step and advanced flag per field, none for `closingCosts`; `SliderConfigs.SlidersWellFormed`, `SliderConfigs.AdvancedSliders` and `SliderConfigs.SliderRanges` state its properties |
| SliderConfigs.SlidersWellFormed | components/calculators/realestate-v2/utils/sliderConfigs.ts:10-116 | every slider has a positive step and a non-empty range that is a whole number of steps |
| SliderConfigs.AdvancedSliders | components/calculators/realestate-v2/utils/sliderConfigs.ts:61-114 | only `closingCosts` has no slider, and exactly its six fields are flagged advanced |
| SliderConfigs.DefaultsOnSliders | components/calculators/realestate-v2/types.ts:180-194 | every default input is a value its slider can produce |
| SliderConfigs.SliderTermIsWholeMonths | components/calculators/realestate-v2/utils/sliderConfigs.ts:106-114 | a term the slider can produce is a whole number of at least 120 months |
| SliderConfigs.SliderRanges | components/calculators/realestate-v2/utils/sliderConfigs.ts:12-114 | inside the sliders the price is 50000-300000, the discount 0-40, the down payment 0-100, the rate 4-12, and the term is on its slider |
| SliderConfigs.LoanNotNegative | components/calculators/realestate-v2/utils/calculations.ts:113-114 | a down payment of at most 100% of a non-negative price leaves a loan that is not negative |
| SliderConfigs.SliderDomainIsEngineDomain | components/calculators/realestate-v2/utils/sliderConfigs.ts:20-27 | inside the sliders the engine is defined: the discount divisor is not zero, the term is at least 120 whole months, the payment denominator is not zero, the loan is not negative and the market value is at least the price |
| Types.AllFieldsListsEachFieldOnce | components/calculators/realestate-v2/types.ts:180-194 | the default inputs list each of the 13 fields exactly once |
| Types.Set | components/calculators/realestate-pro/hooks/useUrlState.ts:46 | assigning a field changes that field and no other |
| Types.InputsExtensional | components/calculators/realestate-v2/types.ts:12-33 | two input records that agree on every field are equal |
| Types.UrlKey | components/calculators/realestate-v2/types.ts:160-174 | defines the two-letter URL key of each field; `Types.UrlKeysDistinct` and `UrlState.UrlKeysArePlain` state its properties |
| Types.UrlKeysDistinct | components/calculators/realestate-v2/types.ts:160-174 | every input has its own two-letter key, so the key table is injective |
| UrlState.ReverseTableKeys | components/calculators/realestate-pro/hooks/useUrlState.ts:18-20 | the swapped table has the key of every listed field, and each key maps to a field carrying that key |
| UrlState.ReverseUrlKeysInvertsUrlKeys | components/calculators/realestate-pro/hooks/useUrlState.ts:18-20 | the reverse table maps every short key back to its field and has no other keys |
| UrlState.ParseParams | components/calculators/realestate-pro/hooks/useUrlState.ts:38-52 | defines the parse as the defaults updated by each parameter in turn; `UrlState.ParseInitialInputs`, `UrlState.ParsedField` and `UrlState.IgnoredParams` state its properties |
| UrlState.ParseInitialInputs | components/calculators/realestate-pro/hooks/useUrlState.ts:38-52 | the parser loop yields the defaults updated by each parameter in turn |
| UrlState.ParsedField | components/calculators/realestate-pro/hooks/useUrlState.ts:41-49 | each field gets the last parseable value under its short key, or its default when there is none: unknown keys and NaN values are ignored, and later occurrences override earlier ones |
| UrlState.IgnoredParams | components/calculators/realestate-pro/hooks/useUrlState.ts:39-48 | no parameters give the defaults, and an unknown key or an unparseable value changes nothing |
| UrlState.SetParam | components/calculators/realestate-pro/hooks/useUrlState.ts:61 | setting a key that is not there yet appends it |
| UrlState.ShareParams | components/calculators/realestate-pro/hooks/useUrlState.ts:59-63 | defines the share parameters: the key and written value of every field that differs from its default; `UrlState.ShareParamsEntries`, `UrlState.ShareParamsLastValue` and `UrlState.ShareParamsRoundTrip` state its properties |
| UrlState.ShareParamsEntries | components/calculators/realestate-pro/hooks/useUrlState.ts:59-63 | every share parameter is the short key of a listed field with that field's value written out |
| UrlState.ShareParamsFresh | components/calculators/realestate-pro/hooks/useUrlState.ts:59-63 | when a field is reached, its key is not yet in the parameters, so `set` appends it |
| UrlState.ShareUrl | components/calculators/realestate-pro/hooks/useUrlState.ts:55-71 | defines the share URL as the base, then `?` and the query when it is not empty; `UrlState.GenerateShareUrl`, `UrlState.ShareSearchParams`, `UrlState.ShareUrlRoundTrip` and `UrlState.BareShareUrl` state its properties |
| UrlState.GenerateShareUrl | components/calculators/realestate-pro/hooks/useUrlState.ts:55-71 | the loop builds exactly the share parameters, and the URL is the base followed by `?` and the query, or the bare base when the query is empty |
| UrlState.ShareParamsLastValue | components/calculators/realestate-pro/hooks/useUrlState.ts:59-63 | under a field's key the share parameters hold its value exactly when it differs from its default |
| UrlState.ShareParamsRoundTrip | components/calculators/realestate-pro/hooks/useUrlState.ts:38-63 | parsing the share parameters of some inputs gives those inputs back, when `parseFloat` reads back what `String` writes |
| UrlState.EntryStrings | components/calculators/realestate-pro/hooks/useUrlState.ts:65 | each parameter is written as `key=value`, one entry per parameter |
| UrlState.SplitJoin | components/calculators/realestate-pro/hooks/useUrlState.ts:65 | splitting entries joined by a separator they do not contain gives the entries back |
| UrlState.QueryRoundTrip | components/calculators/realestate-pro/hooks/useUrlState.ts:65 | a query string reads back as its parameters when no key holds `=` or `&` and no value holds `&` |
| UrlState.EmptyQuery | components/calculators/realestate-pro/hooks/useUrlState.ts:65-70 | the query string is empty exactly when there are no parameters |
| UrlState.SearchParamsOfUrl | components/calculators/realestate-pro/hooks/useUrlState.ts:70 | the address `base?query` carries the query's parameters when the base has no `?` |
| UrlState.UrlKeysArePlain | components/calculators/realestate-v2/types.ts:160-174 | no short key contains `=` or `&` |
| UrlState.ShareParamsArePlain | components/calculators/realestate-pro/hooks/useUrlState.ts:59-63 | the share parameters have plain keys, and values without `&` when `String` writes none |
| UrlState.ShareSearchParams | components/calculators/realestate-pro/hooks/useUrlState.ts:55-71 | the page loaded at the share URL sees exactly the share parameters |
| UrlState.ShareUrlRoundTrip | components/calculators/realestate-pro/hooks/useUrlState.ts:38-71 | the share URL, loaded as the page address and parsed, gives back the inputs it was made for |
| UrlState.BareShareUrl | components/calculators/realestate-pro/hooks/useUrlState.ts:70 | the share URL is the bare base URL exactly when every input has its default value |
| UrlState.NoParamsOnlyForDefaults | components/calculators/realestate-pro/hooks/useUrlState.ts:59-63 | inputs with no share parameters are the defaults |
| UrlState.NoShareParamsForDefaults | components/calculators/realestate-pro/hooks/useUrlState.ts:59-63 | the defaults have no share parameters |
| UrlState.ParamForChangedField | components/calculators/realestate-pro/hooks/useUrlState.ts:60-61 | a field that differs from its default always gives a share parameter |
| UrlState.UrlSync.constructor | components/calculators/realestate-pro/hooks/useUrlState.ts:35 | a freshly mounted hook has the initial-mount flag set and the page's address |
| UrlState.UrlSync.UpdateUrl | components/calculators/realestate-pro/hooks/useUrlState.ts:74-87 | the first call only clears the flag and leaves the address; every later call replaces the address with the share URL of the inputs |
| UrlState.UpdateThenReload | components/calculators/realestate-pro/hooks/useUrlState.ts:74-87 | after the mount and a later update, reloading the page at its address parses back the inputs of that update |
| WealthChart.FindMonth | components/calculators/realestate-pro/components/WealthChart.tsx:75 | the lookup finds the first point of the month, or reports that none has it |
| WealthChart.WealthData | components/calculators/realestate-pro/components/WealthChart.tsx:69-103 | the loop yields the bars of the years 0 to the term that have a point at their boundary, in year order |
| WealthChart.WealthYears | components/calculators/realestate-pro/components/WealthChart.tsx:73-76 | the bars' years strictly increase and lie within the visited years, so there are at most term + 1 bars |
| WealthChart.WealthEntryOfYear | components/calculators/realestate-pro/components/WealthChart.tsx:73-77 | a year has a bar exactly when some point lies at its boundary, and the bar is made from the first such point |
| WealthChart.WealthEntry | components/calculators/realestate-pro/components/WealthChart.tsx:80-98 | defines a bar from a boundary point: the positive parts of the running cash flow, the principal paid and the growth, each rounded, and their rounded sum; `WealthChart.WealthEntryAmounts` and `WealthChart.WealthEntryZeroes` state its properties |
| WealthChart.WealthEntryAmounts | components/calculators/realestate-pro/components/WealthChart.tsx:80-98 | every amount of a bar is not negative, none exceeds the total, and the total is within one of the sum of the rounded amounts |
| WealthChart.WealthEntryZeroes | components/calculators/realestate-pro/components/WealthChart.tsx:80-90 | a bar shows no cash flow, equity or appreciation while the running cash flow, the principal paid or the growth over the initial value is not positive |
| WealthChart.WealthOfMonthlyData | components/calculators/realestate-pro/components/WealthChart.tsx:73-98 | on projection data with one point per month, every year of the term has its bar, made from its first month |
| ClassicCalculator.ClassicLoanAmount | components/calculators/RealEstateCalculator.tsx:127-135 | the down payment plus the loan is the property value |
| ClassicCalculator.MonthlyPayment | components/calculators/RealEstateCalculator.tsx:137-143 | defines the payment, annuity or loan over n at a zero rate, with no guard on the loan; `ClassicCalculator.PaymentMatchesEngine`, `ClassicCalculator.PaymentWithoutInterest` and `ClassicCalculator.PaymentCoversInterest` state its properties |
| ClassicCalculator.WholeTerm | components/calculators/RealEstateCalculator.tsx:139 | a whole term of years is twelve payments per year |
| ClassicCalculator.ClassicPaymentDefinedOnSliders | components/calculators/RealEstateCalculator.tsx:137-143 | for a positive term and rate the payment formula is defined |
| ClassicCalculator.PaymentMatchesEngine | components/calculators/RealEstateCalculator.tsx:137-143 | for any loan that is not negative the payment is the later engine's `calculateMonthlyMortgage` |
| ClassicCalculator.PaymentWithoutInterest | components/calculators/RealEstateCalculator.tsx:140 | at a zero rate the payments of the term add up to the loan |
| ClassicCalculator.AnnualOperatingCosts | components/calculators/RealEstateCalculator.tsx:145-148 | defines the yearly operating costs as a share of the price; its twelfth enters `ClassicCalculator.CashFlowAtYearShape` |
| ClassicCalculator.CashFlowAtYear | components/calculators/RealEstateCalculator.tsx:158-165 | defines `cashFlowAtYear`; `ClassicCalculator.CashFlowAtYearShape` and `ClassicCalculator.CrossoverMatchesCashFlowAtYear` state its properties |
| ClassicCalculator.TodayCashFlow | components/calculators/RealEstateCalculator.tsx:155 | defines `cashFlowData.today`; `ClassicCalculator.CashFlowAtYearShape` states that it is the cash flow of year 0 |
| ClassicCalculator.CashFlowAtYearShape | components/calculators/RealEstateCalculator.tsx:151-172 | a year's cash flow is the grown net operating income, less the payment exactly while the term runs; today's cash flow is that of year 0 |
| ClassicCalculator.EquityBuildingPerMonth | components/calculators/RealEstateCalculator.tsx:175-180 | defines the principal part of the first payment; `ClassicCalculator.EquityBuildingIsFirstPaydown` states its properties |
| ClassicCalculator.EquityBuildingIsFirstPaydown | components/calculators/RealEstateCalculator.tsx:175-180 | the principal of the first payment is what the first month takes off a positive loan, and it is positive at a positive rate |
| ClassicCalculator.AppreciationPerMonth | components/calculators/RealEstateCalculator.tsx:183-186 | defines a month's appreciation; `ClassicCalculator.LeverageMultipliesAppreciation` states that it is a twelfth of the year's |
| ClassicCalculator.ClassicStepIsAmortizeMonth | components/calculators/RealEstateCalculator.tsx:222-226 | the inner loop's update on a positive balance is the later engine's monthly step |
| ClassicCalculator.PayDownYear | components/calculators/RealEstateCalculator.tsx:222-226 | the inner loop leaves the running balance of twelve months later, stopping early once the loan is repaid |
| ClassicCalculator.YearCashFlow | components/calculators/RealEstateCalculator.tsx:214-218 | the loop's yearly cash flow is twelve months of `cashFlowAtYear` |
| ClassicCalculator.WealthYear | components/calculators/RealEstateCalculator.tsx:198-226 | one pass of the outer loop stores the year's specified point and moves the running cash flow and balance on to the next year |
| ClassicCalculator.WealthPointAt | components/calculators/RealEstateCalculator.tsx:198-211 | defines the wealth point of a year from the accumulated cash flow, the principal paid and the appreciation; `ClassicCalculator.WealthChartData`, `ClassicCalculator.WealthEquityBounds` and `ClassicCalculator.WealthEquityAtTerm` state its properties |
| ClassicCalculator.WealthChartData | components/calculators/RealEstateCalculator.tsx:189-230 | the series has `mortgageTerm + 1` points, point y being year y's accumulated cash flow, principal paid and appreciation, each rounded, with their rounded sum |
| ClassicCalculator.AccumulatedNondecreasing | components/calculators/RealEstateCalculator.tsx:219 | the accumulated cash flow is never negative and never decreases |
| ClassicCalculator.BalanceNeverNegative | components/calculators/RealEstateCalculator.tsx:225 | from a loan that is not negative the running balance is never negative, whatever the rate and payment |
| ClassicCalculator.StepWithinLoan | components/calculators/RealEstateCalculator.tsx:222-226 | a month's step from a balance within the loan, with a payment covering the loan's interest, stays within [0, balance] |
| ClassicCalculator.BalanceWithinLoan | components/calculators/RealEstateCalculator.tsx:222-226 | while the payment covers the loan's interest the running balance stays in [0, loan] and never increases |
| ClassicCalculator.PaymentCoversInterest | components/calculators/RealEstateCalculator.tsx:137-143 | at a rate that is not negative the payment covers the interest on the whole loan |
| ClassicCalculator.WealthEquityBounds | components/calculators/RealEstateCalculator.tsx:203 | the chart's equity is within [0, loan] every year, and its rounded value is not negative |
| ClassicCalculator.WealthEquityAtTerm | components/calculators/RealEstateCalculator.tsx:203-208 | by the last year of the term the loan is repaid and the equity is the whole loan |
| ClassicCalculator.CrossoverPointAt | components/calculators/RealEstateCalculator.tsx:238-249 | defines the crossover point of a year; `ClassicCalculator.CrossoverChartData` and `ClassicCalculator.CrossoverMatchesCashFlowAtYear` state its properties |
| ClassicCalculator.CrossoverChartData | components/calculators/RealEstateCalculator.tsx:233-253 | the series has `mortgageTerm + 1` points, point y being year y's grown rent, costs line and difference, each rounded |
| ClassicCalculator.CrossoverMatchesCashFlowAtYear | components/calculators/RealEstateCalculator.tsx:240-248 | the crossover cash flow of a year is `cashFlowAtYear` rounded, so the costs line drops the payment exactly from the end of the term |
| ClassicCalculator.AccumulatedIsCrossoverSum | components/calculators/RealEstateCalculator.tsx:214-219 | each year the wealth chart adds twelve times the crossover chart's unrounded cash flow, where that is positive |
| ClassicCalculator.GetStatus | components/calculators/RealEstateCalculator.tsx:257-262 | defines the status classifier; `ClassicCalculator.GetStatusMeaning` states its properties |
| ClassicCalculator.GetStatusMeaning | components/calculators/RealEstateCalculator.tsx:257-262 | paid exactly from the end of the term; before it, strong at a cash flow of at least half the payment, comfortable at one that is not negative but below that, tight otherwise; a larger cash flow never gives a worse status |
| ClassicCalculator.FindYear | components/calculators/RealEstateCalculator.tsx:266 | the lookup finds the first point of the year, or reports that none has it |
| ClassicCalculator.MilestoneOf | components/calculators/RealEstateCalculator.tsx:265-271 | defines the milestone of a year, with the found point's cash flow, else the point at that index, else 0; `ClassicCalculator.MilestoneOfYearInTerm` states its properties |
| ClassicCalculator.MilestonesOf | components/calculators/RealEstateCalculator.tsx:265-271 | there is one milestone per listed year, in order |
| ClassicCalculator.Milestones | components/calculators/RealEstateCalculator.tsx:264-272 | defines the milestone list, de-duplicated by year; `ClassicCalculator.FirstOfEachYearSound`, `ClassicCalculator.FirstOfEachYearComplete`, `ClassicCalculator.FirstOfEachYearDistinct`, `ClassicCalculator.DedupMilestoneYears` and `ClassicCalculator.MilestonesOnSliders` state its properties |
| ClassicCalculator.FirstOfEachYearSound | components/calculators/RealEstateCalculator.tsx:272 | the filter keeps only milestones that are the first of their year |
| ClassicCalculator.FirstOfEachYearComplete | components/calculators/RealEstateCalculator.tsx:272 | the filter keeps every milestone that is the first of its year |
| ClassicCalculator.FirstOfEachYearDistinct | components/calculators/RealEstateCalculator.tsx:272 | the kept milestones have distinct years |
| ClassicCalculator.DedupMilestoneYears | components/calculators/RealEstateCalculator.tsx:264-272 | for a term of at least 10, the de-duplication of `[1, 5, 10, min(20, term), term]` keeps exactly the first occurrences, in order |
| ClassicCalculator.CrossoverSeries | components/calculators/RealEstateCalculator.tsx:237-250 | the crossover chart as a value: one point per year of the term |
| ClassicCalculator.MilestoneOfYearInTerm | components/calculators/RealEstateCalculator.tsx:265-271 | a milestone year within the term takes the crossover cash flow of that year, which is `cashFlowAtYear` rounded, and the status of that cash flow |
| ClassicCalculator.MilestonesOnSliders | components/calculators/RealEstateCalculator.tsx:264-272 | on the terms the slider offers, the milestones are for the years 1, 5, 10, then 20 and the term where those are further years; each is a year of the term with that year's `cashFlowAtYear`, rounded, and the status of that cash flow |
| ClassicCalculator.MilestoneYearsOf | components/calculators/RealEstateCalculator.tsx:267 | each milestone's year is listed, in order |
| ClassicCalculator.AnnualAppreciationDollars | components/calculators/RealEstateCalculator.tsx:283 | defines the first year's appreciation in currency; `ClassicCalculator.LeverageMultipliesAppreciation` and `ClassicCalculator.ClassicSummary` state its properties |
| ClassicCalculator.TotalRoi | components/calculators/RealEstateCalculator.tsx:279 | defines `totalROI`; `ClassicCalculator.ClassicSummary` states it of the total wealth |
| ClassicCalculator.LeverageReturn | components/calculators/RealEstateCalculator.tsx:283-284 | defines `leverageReturn`; `ClassicCalculator.LeverageMultipliesAppreciation` and `ClassicCalculator.ClassicSummary` state its properties |
| ClassicCalculator.LeverageMultipliesAppreciation | components/calculators/RealEstateCalculator.tsx:283-284 | the leverage return is the appreciation rate divided by the down-payment share; a month's appreciation is a twelfth of the year's |
| ClassicCalculator.ClassicSummary | components/calculators/RealEstateCalculator.tsx:276-296 | for every input with a defined payment and a non-zero down payment: the total wealth, final cash flow, final equity and final appreciation are those of the last wealth point, so the cash flow is the rounded accumulated cash flow and the appreciation the rounded growth of the price; the ROI is the total in percent of the down payment; the leverage figures are `leverageReturn` and `annualAppreciationDollars`; when the loan and the rate are not negative the final equity is the whole loan |
| ClassicCalculator.RoundNumber | components/calculators/RealEstateCalculator.tsx:329-333 | defines `roundNumber` by magnitude tier; `ClassicCalculator.RoundNumberIsNearest` and `ClassicCalculator.RoundNumberDiffersBelowThousand` state its properties |
| ClassicCalculator.RoundNumberUnit | components/calculators/RealEstateCalculator.tsx:329-333 | the unit of each tier is positive |
| ClassicCalculator.RoundNumberIsNearest | components/calculators/RealEstateCalculator.tsx:329-333 | the result is the nearest multiple of its tier's unit of 1000, 100 or 10, and from a thousand on it agrees with `roundForDisplay` |
| ClassicCalculator.RoundNumberDiffersBelowThousand | components/calculators/RealEstateCalculator.tsx:332 | there is no integer tier: below a thousand `roundNumber` and `roundForDisplay` differ (4 becomes 0 and 4) |

## Left out

- **User interface.** React rendering, charts, drawers, translation tables and the slider widget are UI. Typed values are not clamped to the slider ranges (see `slider-w-input.tsx`), so those ranges are assumptions of the lemmas, not guarantees.
- **Browser effects.** Clipboard copying (`copyShareUrl`), timers and the debounce hook are I/O. So are the `typeof window` guards; `history.replaceState` is modelled as an assignment to the address field.
- **URL encoding.** `URLSearchParams` percent-encoding and decoding are not modelled. The query is a list of `key=value` pairs.
- **String conversion.** `String` and `parseFloat` are parameters. The round trip assumes they are inverse.
- **Parameter order.** The share URL takes the input fields in the key order of the defaults. Object key order for inputs built in another order is not modelled.
- **Reverse-table lookups.** Inherited object properties (e.g. `"constructor"`) are not modelled: a key outside the table is unknown.
- **Number representation.** IEEE doubles, rounding error, Infinity and NaN are not modelled. Every division is guarded by a `requires` that its divisor is not zero, where the source would produce Infinity or NaN.
- **Fractional powers.** The fractional root `Math.pow(1 + a/100, 1/12)` is the parameter `g`. The classic calculator's `annualizedROI`, a `1/mortgageTerm` root, is left out.
- Amortization.MonthlyMortgage, Amortization.RemainingBalance: for a positive principal these require the term to be a whole, positive number of months, and `RemainingBalance` takes a whole, non-negative number of payments made (`calculateRemainingBalance` accepts any number, but nothing in the engine calls it with another). Fractional exponents are not modelled; a zero term divides by zero (Infinity); a negative term gives a negative exponent, which `Pow` does not cover, and `generateProjectionData` would throw at `new Array(TOTAL_MONTHS + 1)` for it anyway. `Calculations.CalculateDerivedValues` inherits this requirement through its payment.
- Projection.GenerateProjectionData: this requires a whole, non-negative number of months (`new Array` throws otherwise) and a defined payment.
- **String formatting.** The `"year.MM"` label, `formatAxisValue`, `toFixed`, currency formatting and number abbreviation are presentation only.
- **Unfilled fields.** `netWorth`, `totalCashRequired` and `averageAnnualROI` are declared but never computed by the engine, so the records leave them out. Instead, `ProjectionProperties.NetWorth` states the documented net worth formula. Reading `summary.year30.netWorth` in `RealEstateCalculatorV2.tsx` gives `undefined` there.
- **Closing costs.** `closingCosts` is carried in the inputs and URL but used by no calculation.
- **Pro-calculator imports.** The `realestate-pro` components import `../types` and `../utils/calculations`, which are not part of this model. They are taken to be the version-2 files.
- ClassicCalculator.MonthlyPayment: this requires a positive whole term and a defined formula. A zero term (division by zero, Infinity) is not modelled.
- ClassicCalculator.TotalRoi and ClassicCalculator.LeverageReturn: these require a non-zero down payment. Infinity/NaN for a zero down payment is not modelled.
- ClassicCalculator.DedupMilestoneYears: this is stated for terms of at least 10, the slider's minimum. The filter itself is modelled for every term (`ClassicCalculator.FirstOfEachYearSound`, `ClassicCalculator.FirstOfEachYearComplete` and `ClassicCalculator.FirstOfEachYearDistinct`).
- **Wrapper components.** The result panels, input panels, the chart components other than the wealth breakdown, `useCalculations` and the header are display or orchestration code.
