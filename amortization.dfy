/** The amortization primitives of the version-2 engine (components/calculators/realestate-v2/
    utils/calculations.ts, "CORE MORTGAGE CALCULATIONS"): the fixed monthly payment, the closed
    form of the remaining balance, and the month-by-month balance update the projection uses
    instead. Over exact reals the two balance computations agree at every month. */
module Amortization {
  import opened Numerics

  /** Annual percentage rate to monthly fraction: `annualRate / 100 / 12`. */
  function MonthlyRate(annualRate: real): real
  {
    annualRate / 100.0 / 12.0
  }

  /** `termYears * 12`, as a whole number of months (rounded down). */
  function NumPayments(termYears: real): int
  {
    (termYears * 12.0).Floor
  }

  /** The term is a whole number of months, so that `termYears * 12` is a valid exponent and array length. */
  predicate WholeMonths(termYears: real)
  {
    NumPayments(termYears) as real == termYears * 12.0
  }

  /** The payment formula's divisions are defined: at least one payment, and when the rate is
      not zero the denominator `(1+r)^n - 1` is not zero. */
  predicate PaymentDefined(annualRate: real, termYears: real)
  {
    && WholeMonths(termYears)
    && NumPayments(termYears) > 0
    && (annualRate == 0.0 || Pow(1.0 + MonthlyRate(annualRate), NumPayments(termYears)) != 1.0)
  }

  /** Any rate above -1200% a year (a monthly factor above zero) gives a defined payment. */
  lemma PaymentDefinedForRate(annualRate: real, termYears: real)
    requires WholeMonths(termYears) && NumPayments(termYears) > 0
    requires annualRate > -1200.0
    ensures PaymentDefined(annualRate, termYears)
  {
    var x := 1.0 + MonthlyRate(annualRate);
    var n := NumPayments(termYears);
    if annualRate > 0.0 {
      PowAboveOne(x, n);
    } else if annualRate < 0.0 {
      PowBelowOne(x, n);
    }
  }

  /** The fixed payment of a loan whose n-th power of the monthly factor is `a`:
      p r a / (a - 1). */
  function AnnuityPayment(p: real, r: real, a: real): real
    requires a != 1.0
  {
    p * r * a / (a - 1.0)
  }

  /** The closed-form share of the principal still owed when the monthly factor's powers are
      `a` at the end of the term and `b` now: p (a - b) / (a - 1). */
  function OwedFraction(p: real, a: real, b: real): real
    requires a != 1.0
  {
    p * (a - b) / (a - 1.0)
  }

  /** What is still owed after k of n equal interest-free payments: p - (p / n) k. */
  function LinearOwed(p: real, n: int, k: int): real
    requires n > 0
  {
    p - (p / n as real) * k as real
  }

  /** `calculateMonthlyMortgage`: M = P r (1+r)^n / ((1+r)^n - 1), with r the monthly rate and
      n the number of payments; `P / n` at a zero rate and 0 for a principal that is not positive. */
  function MonthlyMortgage(principal: real, annualRate: real, termYears: real): (m: real)
    requires principal <= 0.0 || PaymentDefined(annualRate, termYears)
    ensures principal <= 0.0 ==> m == 0.0
    ensures principal > 0.0 && annualRate == 0.0 ==> m * (NumPayments(termYears) as real) == principal
  {
    if principal <= 0.0 then 0.0
    else if MonthlyRate(annualRate) == 0.0 then
      DivMulCancel(principal, NumPayments(termYears) as real);
      principal / NumPayments(termYears) as real
    else
      AnnuityPayment(principal, MonthlyRate(annualRate),
                     Pow(1.0 + MonthlyRate(annualRate), NumPayments(termYears)))
  }

  /** The payment is more than one month's interest on the principal when a > 1 and r > 0. */
  lemma AnnuityExceedsInterest(p: real, r: real, a: real)
    requires p > 0.0 && r > 0.0 && a > 1.0
    ensures AnnuityPayment(p, r, a) > p * r
  {
    var d := a - 1.0;
    var m := AnnuityPayment(p, r, a);
    DivMulCancel(p * r * a, d);
    assert m * d == p * r * a;
    assert (m - p * r) * d == p * r;
  }

  /** With a positive rate the payment is more than the first month's interest, so the first
      payment already reduces the principal. */
  lemma PaymentExceedsInterest(principal: real, annualRate: real, termYears: real)
    requires principal > 0.0 && annualRate > 0.0 && PaymentDefined(annualRate, termYears)
    ensures MonthlyMortgage(principal, annualRate, termYears) > principal * MonthlyRate(annualRate)
  {
    var r := MonthlyRate(annualRate);
    PowAboveOne(1.0 + r, NumPayments(termYears));
    AnnuityExceedsInterest(principal, r, Pow(1.0 + r, NumPayments(termYears)));
  }

  /** The closed form B(k) = P((1+r)^n - (1+r)^k) / ((1+r)^n - 1), or P - (P/n)k at a zero rate,
      before the clamp at zero. */
  function ClosedFormBalance(principal: real, annualRate: real, termYears: real, k: nat): real
    requires PaymentDefined(annualRate, termYears)
  {
    if MonthlyRate(annualRate) == 0.0 then LinearOwed(principal, NumPayments(termYears), k)
    else OwedFraction(principal, Pow(1.0 + MonthlyRate(annualRate), NumPayments(termYears)),
                      Pow(1.0 + MonthlyRate(annualRate), k))
  }

  /** `calculateRemainingBalance`: 0 for a principal that is not positive or once every payment
      is made, otherwise the closed form, clamped at zero. */
  function RemainingBalance(principal: real, annualRate: real, termYears: real, monthsPaid: nat): (b: real)
    requires principal <= 0.0 || monthsPaid as real >= termYears * 12.0 || PaymentDefined(annualRate, termYears)
    ensures b >= 0.0
    ensures principal <= 0.0 || monthsPaid as real >= termYears * 12.0 ==> b == 0.0
  {
    if principal <= 0.0 || monthsPaid as real >= termYears * 12.0 then 0.0
    else if MonthlyRate(annualRate) == 0.0 then
      LinearBounds(principal, NumPayments(termYears), monthsPaid);
      LinearOwed(principal, NumPayments(termYears), monthsPaid)
    else
      Max(0.0, OwedFraction(principal, Pow(1.0 + MonthlyRate(annualRate), NumPayments(termYears)),
                            Pow(1.0 + MonthlyRate(annualRate), monthsPaid)))
  }

  /** The unclamped one-month recurrence of a fixed-payment loan: accrue interest, subtract the payment. */
  function Amortized(balance: real, r: real, payment: real, k: nat): real
  {
    if k == 0 then balance else Amortized(balance, r, payment, k - 1) * (1.0 + r) - payment
  }

  /** One month of interest and payment moves the owed fraction from b to b (1 + r). */
  lemma OwedFractionStep(p: real, r: real, a: real, b: real)
    requires a != 1.0
    ensures OwedFraction(p, a, b) * (1.0 + r) - AnnuityPayment(p, r, a) == OwedFraction(p, a, b * (1.0 + r))
  {
    var d := a - 1.0;
    var lhs := OwedFraction(p, a, b) * (1.0 + r) - AnnuityPayment(p, r, a);
    DivMulCancel(p * (a - b), d);
    DivMulCancel(p * r * a, d);
    assert lhs * d == p * (a - b) * (1.0 + r) - p * r * a;
    assert p * (a - b) * (1.0 + r) - p * r * a == p * (a - b * (1.0 + r));
    DivUnique(lhs, p * (a - b * (1.0 + r)), d);
  }

  /** One interest-free payment of p / n moves the linear balance from k to k + 1. */
  lemma LinearOwedStep(p: real, n: int, k: int)
    requires n > 0
    ensures LinearOwed(p, n, k) - p / n as real == LinearOwed(p, n, k + 1)
  {
    var step := p / n as real;
    assert step * (k + 1) as real == step * k as real + step;
  }

  /** The closed form satisfies the loan recurrence B(k+1) = B(k)(1+r) - M. */
  lemma ClosedFormStep(principal: real, annualRate: real, termYears: real, k: nat)
    requires principal > 0.0 && PaymentDefined(annualRate, termYears)
    ensures ClosedFormBalance(principal, annualRate, termYears, k) * (1.0 + MonthlyRate(annualRate))
              - MonthlyMortgage(principal, annualRate, termYears)
            == ClosedFormBalance(principal, annualRate, termYears, k + 1)
  {
    if MonthlyRate(annualRate) != 0.0 {
      ClosedFormStepWithInterest(principal, annualRate, termYears, k);
    } else {
      ClosedFormStepWithoutInterest(principal, annualRate, termYears, k);
    }
  }

  lemma ClosedFormStepWithInterest(principal: real, annualRate: real, termYears: real, k: nat)
    requires principal > 0.0 && PaymentDefined(annualRate, termYears) && MonthlyRate(annualRate) != 0.0
    ensures ClosedFormBalance(principal, annualRate, termYears, k) * (1.0 + MonthlyRate(annualRate))
              - MonthlyMortgage(principal, annualRate, termYears)
            == ClosedFormBalance(principal, annualRate, termYears, k + 1)
  {
    var r := MonthlyRate(annualRate);
    var c := ClosedFormBalance(principal, annualRate, termYears, k);
    var c1 := ClosedFormBalance(principal, annualRate, termYears, k + 1);
    var m := MonthlyMortgage(principal, annualRate, termYears);
    PowSucc(1.0 + r, k);
    ClosedFormWithInterest(principal, annualRate, termYears, k);
    ClosedFormWithInterest(principal, annualRate, termYears, k + 1);
    OwedFractionStepAt(principal, r, Pow(1.0 + r, NumPayments(termYears)), Pow(1.0 + r, k), Pow(1.0 + r, k + 1), c, c1, m);
    assert c * (1.0 + r) - m == c1;
  }

  /** At a rate other than zero the closed form is the owed fraction for the powers (1+r)^n and (1+r)^k. */
  lemma ClosedFormWithInterest(principal: real, annualRate: real, termYears: real, k: nat)
    requires PaymentDefined(annualRate, termYears) && MonthlyRate(annualRate) != 0.0
    ensures ClosedFormBalance(principal, annualRate, termYears, k)
            == OwedFraction(principal, Pow(1.0 + MonthlyRate(annualRate), NumPayments(termYears)),
                            Pow(1.0 + MonthlyRate(annualRate), k))
  {
  }

  lemma OwedFractionStepAt(p: real, r: real, a: real, b: real, b1: real, c: real, c1: real, m: real)
    requires a != 1.0 && b1 == b * (1.0 + r)
    requires c == OwedFraction(p, a, b) && c1 == OwedFraction(p, a, b1) && m == AnnuityPayment(p, r, a)
    ensures c * (1.0 + r) - m == c1
  {
    OwedFractionStep(p, r, a, b);
  }

  lemma ClosedFormStepWithoutInterest(principal: real, annualRate: real, termYears: real, k: nat)
    requires principal > 0.0 && PaymentDefined(annualRate, termYears) && MonthlyRate(annualRate) == 0.0
    ensures ClosedFormBalance(principal, annualRate, termYears, k) * (1.0 + MonthlyRate(annualRate))
              - MonthlyMortgage(principal, annualRate, termYears)
            == ClosedFormBalance(principal, annualRate, termYears, k + 1)
  {
    LinearOwedStep(principal, NumPayments(termYears), k);
  }

  /** The owed fraction is the whole principal when b = 1 and nothing when b = a. */
  lemma OwedFractionEnds(p: real, a: real)
    requires a != 1.0
    ensures OwedFraction(p, a, 1.0) == p
    ensures OwedFraction(p, a, a) == 0.0
  {
    MulDivCancel(p, a - 1.0);
  }

  /** Before any payment the closed form is the principal. */
  lemma ClosedFormAtZero(principal: real, annualRate: real, termYears: real)
    requires PaymentDefined(annualRate, termYears)
    ensures ClosedFormBalance(principal, annualRate, termYears, 0) == principal
  {
    var r := MonthlyRate(annualRate);
    if r != 0.0 {
      assert Pow(1.0 + r, 0) == 1.0;
      OwedFractionEnds(principal, Pow(1.0 + r, NumPayments(termYears)));
    }
  }

  lemma {:induction false} AmortizedIsClosedForm(principal: real, annualRate: real, termYears: real, k: nat)
    requires principal > 0.0 && PaymentDefined(annualRate, termYears)
    ensures Amortized(principal, MonthlyRate(annualRate), MonthlyMortgage(principal, annualRate, termYears), k)
            == ClosedFormBalance(principal, annualRate, termYears, k)
  {
    if k == 0 {
      ClosedFormAtZero(principal, annualRate, termYears);
    } else {
      AmortizedIsClosedForm(principal, annualRate, termYears, k - 1);
      ClosedFormStep(principal, annualRate, termYears, k - 1);
    }
  }

  /** The payment is exactly the one that retires the loan: n months of interest-then-payment
      take the principal to zero (for any rate at which the payment is defined). */
  lemma PaymentRepaysLoan(principal: real, annualRate: real, termYears: real)
    requires principal > 0.0 && PaymentDefined(annualRate, termYears)
    ensures Amortized(principal, MonthlyRate(annualRate), MonthlyMortgage(principal, annualRate, termYears),
                      NumPayments(termYears)) == 0.0
  {
    AmortizedIsClosedForm(principal, annualRate, termYears, NumPayments(termYears));
    var r := MonthlyRate(annualRate);
    if r != 0.0 {
      OwedFractionEnds(principal, Pow(1.0 + r, NumPayments(termYears)));
    } else {
      LinearBounds(principal, NumPayments(termYears), NumPayments(termYears));
    }
  }

  /** For 1 <= b <= b1 <= a the owed fraction lies in [0, p] and shrinks as b grows; it is
      positive while b < a. */
  lemma OwedFractionBounds(p: real, a: real, b: real, b1: real)
    requires p > 0.0 && 1.0 <= b <= b1 <= a && a > 1.0
    ensures 0.0 <= OwedFraction(p, a, b1) <= OwedFraction(p, a, b) <= p
    ensures b < a ==> OwedFraction(p, a, b) > 0.0
  {
    var d := a - 1.0;
    assert 0.0 <= (a - b1) / d <= (a - b) / d <= 1.0;
    assert p * (a - b) / d == p * ((a - b) / d);
    assert p * (a - b1) / d == p * ((a - b1) / d);
  }

  /** After k of n interest-free payments the balance lies in [0, p]; it is zero at k = n and
      positive before. */
  lemma LinearBounds(p: real, n: int, k: int)
    requires p > 0.0 && n > 0 && 0 <= k <= n
    ensures 0.0 <= LinearOwed(p, n, k) <= p
    ensures k == n ==> LinearOwed(p, n, k) == 0.0
    ensures k < n ==> LinearOwed(p, n, k) > 0.0
  {
    var step := p / n as real;
    assert step > 0.0;
    DivMulCancel(p, n as real);
    assert step * n as real == p;
    assert step * k as real <= step * n as real;
    assert k < n ==> step * k as real < step * n as real;
  }

  /** For a non-negative rate the closed form stays in [0, principal], is zero at the last
      payment and positive before it. */
  lemma ClosedFormBounds(principal: real, annualRate: real, termYears: real, k: nat)
    requires principal > 0.0 && annualRate >= 0.0 && PaymentDefined(annualRate, termYears)
    requires k <= NumPayments(termYears)
    ensures 0.0 <= ClosedFormBalance(principal, annualRate, termYears, k) <= principal
    ensures k == NumPayments(termYears) ==> ClosedFormBalance(principal, annualRate, termYears, k) == 0.0
    ensures k < NumPayments(termYears) ==> ClosedFormBalance(principal, annualRate, termYears, k) > 0.0
  {
    var r := MonthlyRate(annualRate);
    var n := NumPayments(termYears);
    if r == 0.0 {
      LinearBounds(principal, n, k);
    } else {
      var x := 1.0 + r;
      PowAboveOne(x, n);
      PowAtLeastOne(x, k);
      PowMonotone(x, k, n);
      OwedFractionBounds(principal, Pow(x, n), Pow(x, k), Pow(x, k));
      OwedFractionEnds(principal, Pow(x, n));
      if k < n {
        PowStrictMonotone(x, k, n);
      }
    }
  }

  /** For a non-negative rate the closed form never increases from one month to the next. */
  lemma ClosedFormNonIncreasing(principal: real, annualRate: real, termYears: real, k: nat)
    requires principal > 0.0 && annualRate >= 0.0 && PaymentDefined(annualRate, termYears)
    requires k < NumPayments(termYears)
    ensures ClosedFormBalance(principal, annualRate, termYears, k + 1)
            <= ClosedFormBalance(principal, annualRate, termYears, k)
  {
    var r := MonthlyRate(annualRate);
    var n := NumPayments(termYears);
    if r == 0.0 {
      LinearOwedStep(principal, n, k);
      assert principal / n as real > 0.0;
    } else {
      var x := 1.0 + r;
      PowAboveOne(x, n);
      PowAtLeastOne(x, k);
      PowMonotone(x, k, k + 1);
      PowMonotone(x, k + 1, n);
      OwedFractionBounds(principal, Pow(x, n), Pow(x, k), Pow(x, k + 1));
    }
  }

  /** Before the last payment one month of the projection's update takes the closed form at k
      to the closed form at k + 1. */
  lemma ClosedFormMonth(principal: real, annualRate: real, termYears: real, k: nat)
    requires principal > 0.0 && annualRate >= 0.0 && PaymentDefined(annualRate, termYears)
    requires k < NumPayments(termYears)
    ensures AmortizeMonth(ClosedFormBalance(principal, annualRate, termYears, k), MonthlyRate(annualRate),
                          MonthlyMortgage(principal, annualRate, termYears))
            == ClosedFormBalance(principal, annualRate, termYears, k + 1)
  {
    var c := ClosedFormBalance(principal, annualRate, termYears, k);
    var c1 := ClosedFormBalance(principal, annualRate, termYears, k + 1);
    var r := MonthlyRate(annualRate);
    var m := MonthlyMortgage(principal, annualRate, termYears);
    ClosedFormBounds(principal, annualRate, termYears, k);
    ClosedFormBounds(principal, annualRate, termYears, k + 1);
    ClosedFormStep(principal, annualRate, termYears, k);
    assert c * (1.0 + r) - m == c1;
    AmortizeMonthIsClampedStep(c, r, m);
  }

  /** Before the last payment the clamp in `calculateRemainingBalance` is inactive, and at the
      last payment its early return gives the closed form's value, zero. */
  lemma RemainingBalanceIsClosedForm(principal: real, annualRate: real, termYears: real, k: nat)
    requires principal > 0.0 && annualRate >= 0.0 && PaymentDefined(annualRate, termYears)
    requires k <= NumPayments(termYears)
    ensures RemainingBalance(principal, annualRate, termYears, k) == ClosedFormBalance(principal, annualRate, termYears, k)
  {
    ClosedFormBounds(principal, annualRate, termYears, k);
  }

  /** One month of the projection's running balance (calculations.ts:325-329): interest at the
      monthly rate, principal `min(payment - interest, balance)`, new balance clamped at zero;
      nothing happens while the balance is not positive. */
  function AmortizeMonth(balance: real, r: real, payment: real): (b: real)
    ensures balance > 0.0 ==> b >= 0.0
    ensures balance <= 0.0 ==> b == balance
  {
    if balance > 0.0 then Max(0.0, balance - Min(payment - balance * r, balance)) else balance
  }

  /** A positive balance moves to the loan recurrence's value, clamped at zero. */
  lemma AmortizeMonthIsClampedStep(balance: real, r: real, payment: real)
    requires balance > 0.0
    ensures AmortizeMonth(balance, r, payment) == Max(0.0, balance * (1.0 + r) - payment)
  {
  }

  /** The running balance after k months of the projection, starting from the loan amount. */
  function BalanceAfter(loan: real, r: real, payment: real, k: nat): real
  {
    if k == 0 then loan else AmortizeMonth(BalanceAfter(loan, r, payment, k - 1), r, payment)
  }

  /** The central cross-check: with a non-negative rate and loan, the projection's incremental
      balance equals `calculateRemainingBalance` at every month of the term. */
  lemma {:induction false} IncrementalMatchesClosedForm(loan: real, annualRate: real, termYears: real, k: nat)
    requires loan >= 0.0 && annualRate >= 0.0 && PaymentDefined(annualRate, termYears)
    requires k <= NumPayments(termYears)
    ensures BalanceAfter(loan, MonthlyRate(annualRate), MonthlyMortgage(loan, annualRate, termYears), k)
            == RemainingBalance(loan, annualRate, termYears, k)
  {
    if k == 0 {
      if loan > 0.0 {
        RemainingBalanceIsClosedForm(loan, annualRate, termYears, 0);
        ClosedFormAtZero(loan, annualRate, termYears);
      }
    } else {
      IncrementalMatchesClosedForm(loan, annualRate, termYears, k - 1);
      if loan > 0.0 {
        RemainingBalanceIsClosedForm(loan, annualRate, termYears, k - 1);
        RemainingBalanceIsClosedForm(loan, annualRate, termYears, k);
        ClosedFormMonth(loan, annualRate, termYears, k - 1);
      }
    }
  }

  /** Consequences for the running balance: it stays in [0, loan], never increases and is
      exactly zero after the last payment. */
  lemma BalanceAfterBounds(loan: real, annualRate: real, termYears: real, k: nat)
    requires loan >= 0.0 && annualRate >= 0.0 && PaymentDefined(annualRate, termYears)
    requires k <= NumPayments(termYears)
    ensures 0.0 <= BalanceAfter(loan, MonthlyRate(annualRate), MonthlyMortgage(loan, annualRate, termYears), k) <= loan
    ensures k == NumPayments(termYears) ==>
              BalanceAfter(loan, MonthlyRate(annualRate), MonthlyMortgage(loan, annualRate, termYears), k) == 0.0
    ensures k < NumPayments(termYears) ==>
              BalanceAfter(loan, MonthlyRate(annualRate), MonthlyMortgage(loan, annualRate, termYears), k + 1)
              <= BalanceAfter(loan, MonthlyRate(annualRate), MonthlyMortgage(loan, annualRate, termYears), k)
  {
    IncrementalMatchesClosedForm(loan, annualRate, termYears, k);
    if k < NumPayments(termYears) {
      IncrementalMatchesClosedForm(loan, annualRate, termYears, k + 1);
    }
    if loan > 0.0 {
      RemainingBalanceIsClosedForm(loan, annualRate, termYears, k);
      ClosedFormBounds(loan, annualRate, termYears, k);
      if k < NumPayments(termYears) {
        RemainingBalanceIsClosedForm(loan, annualRate, termYears, k + 1);
        ClosedFormNonIncreasing(loan, annualRate, termYears, k);
      }
    }
  }
}
