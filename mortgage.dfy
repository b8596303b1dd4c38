/**
 * The arithmetic shared by the three `useExpenseCalculations` hooks: the loan left after the
 * deposit, the standard level-payment mortgage formula, and the monthly and weekly totals that
 * add a third of each quarterly fee to the mortgage payment.
 */
module Mortgage {
  import opened Wrappers
  import opened JsMath

  /** The amount borrowed: the price less a deposit given as a percentage of it. */
  function LoanAmount(propertyPrice: real, depositPercentage: real): (loan: real)
    ensures loan + propertyPrice * depositPercentage / 100.0 == propertyPrice
  {
    propertyPrice * (1.0 - depositPercentage / 100.0)
  }

  /** For a positive price the loan is positive exactly below a 100% deposit and negative above it. */
  lemma LoanAmountSign(propertyPrice: real, depositPercentage: real)
    requires propertyPrice > 0.0
    ensures LoanAmount(propertyPrice, depositPercentage) > 0.0 <==> depositPercentage < 100.0
    ensures LoanAmount(propertyPrice, depositPercentage) < 0.0 <==> depositPercentage > 100.0
  {
    var share := 1.0 - depositPercentage / 100.0;
    assert share > 0.0 ==> propertyPrice * share > 0.0;
    assert share < 0.0 ==> propertyPrice * share < 0.0;
    assert share == 0.0 ==> propertyPrice * share == 0.0;
  }

  /** A 5% deposit leaves 95% of the price to borrow, the factor the fixed variants hardcode. */
  lemma FivePercentDeposit(propertyPrice: real)
    ensures LoanAmount(propertyPrice, 5.0) == propertyPrice * 0.95
  {
  }

  /** The periodic rate: an annual percentage spread over twelve months. */
  function MonthlyRate(annualRate: real): (r: real)
    ensures r * 1200.0 == annualRate
  {
    annualRate / 100.0 / 12.0
  }

  /**
   * The level payment M = P·r·(1+r)^n / ((1+r)^n − 1), written as the hooks evaluate it; it is
   * undefined exactly where the denominator vanishes.
   */
  function LevelPayment(principal: real, r: real, n: nat): real
    requires Pow(1.0 + r, n) != 1.0
  {
    var growth := Pow(1.0 + r, n);
    principal * (r * growth) / (growth - 1.0)
  }

  /** The payment is linear in the principal. */
  lemma LevelPaymentLinear(c: real, principal: real, r: real, n: nat)
    requires Pow(1.0 + r, n) != 1.0
    ensures LevelPayment(c * principal, r, n) == c * LevelPayment(principal, r, n)
  {
    var growth := Pow(1.0 + r, n);
    var d := growth - 1.0;
    assert (c * principal) * (r * growth) == c * (principal * (r * growth));
    assert (c * principal) * (r * growth) / d == c * (principal * (r * growth) / d);
  }

  /**
   * The defining identity of the formula: n payments of M settle P at compound rate r,
   * P·(1+r)^n == M·((1+r)^n − 1)/r.
   */
  lemma FullAmortizationIdentity(principal: real, r: real, n: nat)
    requires r > 0.0 && n >= 1
    ensures Pow(1.0 + r, n) > 1.0
    ensures principal * Pow(1.0 + r, n) == LevelPayment(principal, r, n) * (Pow(1.0 + r, n) - 1.0) / r
  {
    PowAboveOne(1.0 + r, n);
    var growth := Pow(1.0 + r, n);
    var d := growth - 1.0;
    var m := LevelPayment(principal, r, n);
    assert m * d == principal * (r * growth);
    assert m * d / r == principal * growth;
    assert principal * Pow(1.0 + r, n) == LevelPayment(principal, r, n) * (Pow(1.0 + r, n) - 1.0) / r;
  }

  /** With a positive rate the payment is more than the first month's interest P·r. */
  lemma LevelPaymentExceedsInterest(principal: real, r: real, n: nat)
    requires principal > 0.0 && r > 0.0 && n >= 1
    ensures Pow(1.0 + r, n) > 1.0
    ensures LevelPayment(principal, r, n) > principal * r
  {
    PowAboveOne(1.0 + r, n);
    var growth := Pow(1.0 + r, n);
    var d := growth - 1.0;
    var m := LevelPayment(principal, r, n);
    assert m * d == principal * r * growth;
    assert principal * r * growth == principal * r * d + principal * r;
    assert principal * r > 0.0;
    assert m * d > (principal * r) * d;
  }

  /**
   * The payment effect of a hook: the formula when the loan is positive, 0 otherwise. None
   * stands for the non-finite number JavaScript produces when (1+r)^n − 1 is zero.
   */
  function MortgagePayment(loanAmount: real, annualRate: real, numberOfPayments: nat): (payment: Option<real>)
    ensures loanAmount <= 0.0 ==> payment == Some(0.0)
    ensures payment.None? <==> loanAmount > 0.0 && Pow(1.0 + MonthlyRate(annualRate), numberOfPayments) == 1.0
  {
    if loanAmount > 0.0 then
      var r := MonthlyRate(annualRate);
      if Pow(1.0 + r, numberOfPayments) - 1.0 == 0.0 then None
      else Some(LevelPayment(loanAmount, r, numberOfPayments))
    else
      Some(0.0)
  }

  /** No positive loan, no payment. */
  lemma MortgageWithoutLoan(loanAmount: real, annualRate: real, numberOfPayments: nat)
    requires loanAmount <= 0.0
    ensures MortgagePayment(loanAmount, annualRate, numberOfPayments) == Some(0.0)
  {
  }

  /** A positive loan at a positive rate gets the level payment, which exceeds the first interest. */
  lemma MortgageAtPositiveRate(loanAmount: real, annualRate: real, numberOfPayments: nat)
    requires loanAmount > 0.0 && annualRate > 0.0 && numberOfPayments >= 1
    ensures Pow(1.0 + MonthlyRate(annualRate), numberOfPayments) > 1.0
    ensures MortgagePayment(loanAmount, annualRate, numberOfPayments)
         == Some(LevelPayment(loanAmount, MonthlyRate(annualRate), numberOfPayments))
    ensures MortgagePayment(loanAmount, annualRate, numberOfPayments).value > loanAmount * MonthlyRate(annualRate)
  {
    LevelPaymentExceedsInterest(loanAmount, MonthlyRate(annualRate), numberOfPayments);
  }

  /** There is no zero-rate branch: at rate 0 the formula divides 0 by 0 (NaN). */
  lemma MortgageAtZeroRate(loanAmount: real, numberOfPayments: nat)
    requires loanAmount > 0.0
    ensures MortgagePayment(loanAmount, 0.0, numberOfPayments) == None
  {
    PowOfOne(numberOfPayments);
  }

  /** The perpetuity value q = M / r of the level payment exceeds P, and q + (P − q)·(1+r)^n is 0. */
  lemma PerpetuityFacts(principal: real, r: real, growth: real, m: real)
    requires principal > 0.0 && r > 0.0 && growth > 1.0
    requires m * (growth - 1.0) == principal * (r * growth)
    ensures m / r > principal
    ensures m / r + (principal - m / r) * growth == 0.0
  {
    var d := growth - 1.0;
    var q := m / r;
    assert q * r == m;
    assert q * r * d == principal * r * growth;
    assert q * d == principal * growth;
    assert (q - principal) * d == principal;
    assert q + (principal - q) * growth == q - q * growth + principal * growth;
  }

  /** How far the balance falls short of q after k months: c grown by (1+r) each month. */
  function Shortfall(c: real, r: real, k: nat): real {
    if k == 0 then c else Shortfall(c, r, k - 1) * (1.0 + r)
  }

  lemma {:induction false} ShortfallIsScaledPow(c: real, r: real, k: nat)
    ensures Shortfall(c, r, k) == c * Pow(1.0 + r, k)
  {
    if k > 0 {
      ShortfallIsScaledPow(c, r, k - 1);
      var p := Pow(1.0 + r, k - 1);
      assert Shortfall(c, r, k) == (c * p) * (1.0 + r);
      assert Pow(1.0 + r, k) == (1.0 + r) * p;
    }
  }

  lemma {:induction false} ShortfallPositive(c: real, r: real, k: nat)
    requires c > 0.0 && r > 0.0
    ensures Shortfall(c, r, k) > 0.0
  {
    if k > 0 {
      ShortfallPositive(c, r, k - 1);
      var d := Shortfall(c, r, k - 1);
      assert d * (1.0 + r) > 0.0;
    }
  }

  lemma {:induction false} ShortfallIncreasing(c: real, r: real, i: nat, j: nat)
    requires c > 0.0 && r > 0.0 && i < j
    ensures 0.0 < Shortfall(c, r, i) < Shortfall(c, r, j)
  {
    if i < j - 1 {
      ShortfallIncreasing(c, r, i, j - 1);
    }
    ShortfallPositive(c, r, i);
    ShortfallPositive(c, r, j - 1);
    var d := Shortfall(c, r, j - 1);
    assert d * (1.0 + r) - d == d * r;
    assert d * r > 0.0;
  }

  /** The shortfall up to month n is at most its value at n, and below it before n. */
  lemma ShortfallAtMost(c: real, r: real, k: nat, n: nat)
    requires c > 0.0 && r > 0.0 && k <= n
    ensures Shortfall(c, r, k) <= Shortfall(c, r, n)
    ensures k < n ==> Shortfall(c, r, k) < Shortfall(c, r, n)
  {
    if k < n {
      ShortfallIncreasing(c, r, k, n);
    }
  }

  /** With M = q·r, one unclamped month takes a balance q − d to q − d·(1+r). */
  lemma ShortfallStep(b: real, q: real, d: real, r: real, m: real)
    requires b == q - d && m == q * r
    ensures b - (m - b * r + 0.0) == q - d * (1.0 + r)
  {
    assert b * r == q * r - d * r;
  }

  /** The balance recurrence without the clamp at 0 and without the paid-off guard. */
  function Unclamped(start: real, payment: real, r: real, months: nat): real {
    if months == 0 then start
    else
      var b := Unclamped(start, payment, r, months - 1);
      b - (payment - b * r + 0.0)
  }

  /** With M = q·r the unclamped balance is q − Shortfall(q − P, r, k). */
  lemma {:induction false} UnclampedClosedForm(principal: real, r: real, m: real, q: real, k: nat)
    requires m == q * r
    ensures Unclamped(principal, m, r, k) == q - Shortfall(q - principal, r, k)
  {
    if k > 0 {
      UnclampedClosedForm(principal, r, m, q, k - 1);
      ShortfallStep(Unclamped(principal, m, r, k - 1), q, Shortfall(q - principal, r, k - 1), r, m);
    }
  }

  /**
   * The level payment clears the loan exactly: the balance recurrence without any clamp stays
   * positive before month n and is 0 at month n.
   */
  lemma LevelPaymentUnclamped(principal: real, r: real, n: nat)
    requires principal > 0.0 && r > 0.0 && n >= 1
    ensures Pow(1.0 + r, n) > 1.0
    ensures forall j :: 0 <= j < n ==> Unclamped(principal, LevelPayment(principal, r, n), r, j) > 0.0
    ensures Unclamped(principal, LevelPayment(principal, r, n), r, n) == 0.0
  {
    PowAboveOne(1.0 + r, n);
    var m := LevelPayment(principal, r, n);
    var xn := Pow(1.0 + r, n);
    assert m * (xn - 1.0) == principal * (r * xn);
    PerpetuityFacts(principal, r, xn, m);
    var q := m / r;
    assert m == q * r;
    ShortfallIsScaledPow(q - principal, r, n);
    assert Shortfall(q - principal, r, n) == q;
    forall j | 0 <= j < n
      ensures Unclamped(principal, m, r, j) > 0.0
    {
      UnclampedClosedForm(principal, r, m, q, j);
      ShortfallAtMost(q - principal, r, j, n);
    }
    UnclampedClosedForm(principal, r, m, q, n);
  }

  /** The payment grows with the principal. */
  lemma LevelPaymentMonotoneInPrincipal(low: real, high: real, r: real, n: nat)
    requires 0.0 <= low <= high && r > 0.0 && n >= 1
    ensures Pow(1.0 + r, n) > 1.0
    ensures LevelPayment(low, r, n) <= LevelPayment(high, r, n)
  {
    PowAboveOne(1.0 + r, n);
    var growth := Pow(1.0 + r, n);
    var factor := (r * growth) / (growth - 1.0);
    ProductPositive(r, growth);
    assert factor > 0.0;
    ScaleThenDivide(low, r * growth, growth - 1.0);
    ScaleThenDivide(high, r * growth, growth - 1.0);
    ProductNonNegative(high - low, factor);
    assert high * factor - low * factor == (high - low) * factor;
  }

  /** Scaling before dividing is scaling the quotient. */
  lemma ScaleThenDivide(c: real, x: real, d: real)
    requires d != 0.0
    ensures c * x / d == c * (x / d)
  {
  }

  /**
   * One unclamped month from ordered balances, at ordered rates and with ordered payments: the gap
   * between the two balances grows by at least the gap between the payments.
   */
  lemma UnclampedStepOrdered(b1: real, b2: real, r1: real, r2: real, m1: real, m2: real)
    requires 0.0 <= b1 <= b2 && 0.0 <= r1 <= r2 && m2 <= m1
    ensures (b2 - (m2 - b2 * r2 + 0.0)) - (b1 - (m1 - b1 * r1 + 0.0)) >= (b2 - b1) + (m1 - m2)
  {
    ProductNonNegative(b2 - b1, r2);
    ProductNonNegative(b1, r2 - r1);
    assert b2 * r2 - b1 * r1 == (b2 - b1) * r2 + b1 * (r2 - r1);
  }

  /**
   * A higher rate with a smaller payment never owes less, as long as the lower-rate balance has not
   * gone negative; from the first month on it owes at least the payment gap more.
   */
  lemma {:induction false} UnclampedOrdered(principal: real, r1: real, r2: real, m1: real, m2: real, k: nat)
    requires 0.0 <= r1 <= r2 && m2 <= m1
    requires forall j :: 0 <= j < k ==> Unclamped(principal, m1, r1, j) >= 0.0
    ensures Unclamped(principal, m2, r2, k) >= Unclamped(principal, m1, r1, k)
    ensures k >= 1 ==> Unclamped(principal, m2, r2, k) - Unclamped(principal, m1, r1, k) >= m1 - m2
  {
    if k > 0 {
      UnclampedOrdered(principal, r1, r2, m1, m2, k - 1);
      UnclampedOrderedStep(principal, r1, r2, m1, m2, k);
    }
  }

  /** The inductive step of `UnclampedOrdered`. */
  lemma UnclampedOrderedStep(principal: real, r1: real, r2: real, m1: real, m2: real, k: nat)
    requires 0.0 <= r1 <= r2 && m2 <= m1 && k > 0
    requires Unclamped(principal, m1, r1, k - 1) >= 0.0
    requires Unclamped(principal, m2, r2, k - 1) >= Unclamped(principal, m1, r1, k - 1)
    ensures Unclamped(principal, m2, r2, k) - Unclamped(principal, m1, r1, k) >= m1 - m2
  {
    var b1 := Unclamped(principal, m1, r1, k - 1);
    var b2 := Unclamped(principal, m2, r2, k - 1);
    UnclampedStepOrdered(b1, b2, r1, r2, m1, m2);
  }

  /**
   * The payment grows with the rate: were the payment at the higher rate smaller, the higher-rate
   * balance would still be owing at month n, where both level payments leave exactly 0.
   */
  lemma LevelPaymentMonotoneInRate(principal: real, r1: real, r2: real, n: nat)
    requires principal > 0.0 && 0.0 < r1 <= r2 && n >= 1
    ensures Pow(1.0 + r1, n) > 1.0 && Pow(1.0 + r2, n) > 1.0
    ensures LevelPayment(principal, r1, n) <= LevelPayment(principal, r2, n)
  {
    LevelPaymentUnclamped(principal, r1, n);
    LevelPaymentUnclamped(principal, r2, n);
    var m1 := LevelPayment(principal, r1, n);
    var m2 := LevelPayment(principal, r2, n);
    if m2 < m1 {
      UnclampedOrdered(principal, r1, r2, m1, m2, n);
      assert false;
    }
  }

  /**
   * The hook's payment for a positive loan at a positive rate is finite and never falls when the
   * loan or the annual rate rises.
   */
  lemma MortgagePaymentMonotone(lowLoan: real, highLoan: real, lowRate: real, highRate: real, numberOfPayments: nat)
    requires 0.0 < lowLoan <= highLoan && 0.0 < lowRate <= highRate && numberOfPayments >= 1
    ensures MortgagePayment(lowLoan, lowRate, numberOfPayments).Some?
    ensures MortgagePayment(highLoan, highRate, numberOfPayments).Some?
    ensures MortgagePayment(lowLoan, lowRate, numberOfPayments).value
         <= MortgagePayment(highLoan, highRate, numberOfPayments).value
  {
    var n := numberOfPayments;
    MortgageAtPositiveRate(lowLoan, lowRate, n);
    MortgageAtPositiveRate(highLoan, highRate, n);
    MortgageAtPositiveRate(highLoan, lowRate, n);
    LevelPaymentMonotoneInPrincipal(lowLoan, highLoan, MonthlyRate(lowRate), n);
    LevelPaymentMonotoneInRate(highLoan, MonthlyRate(lowRate), MonthlyRate(highRate), n);
  }

  /** The monthly cost: the mortgage plus a third of each quarterly fee. */
  function MonthlyTotal(mortgage: real, strata: real, council: real, water: real): (total: real)
    ensures total - mortgage == (strata + council + water) / 3.0
  {
    mortgage + strata / 3.0 + council / 3.0 + water / 3.0
  }

  /** The weekly cost: twelve months spread over fifty-two weeks. */
  function WeeklyTotal(monthly: real): (weekly: real)
    ensures weekly * 52.0 == monthly * 12.0
    ensures weekly >= 0.0 <==> monthly >= 0.0
  {
    monthly * 12.0 / 52.0
  }

  /**
   * The monthly total as the parameterised hook computes it, where the payment may be non-finite:
   * a non-finite payment makes the total non-finite, and a finite one is handled by `MonthlyTotal`.
   */
  function MonthlyTotalOf(mortgage: Option<real>, strata: real, council: real, water: real): (total: Option<real>)
    ensures total.Some? <==> mortgage.Some?
    ensures total.Some? ==> total.value - mortgage.value == (strata + council + water) / 3.0
  {
    match mortgage
    case Some(m) => Some(MonthlyTotal(m, strata, council, water))
    case None => None
  }

  /** The weekly total of a possibly non-finite monthly total. */
  function WeeklyTotalOf(monthly: Option<real>): (weekly: Option<real>)
    ensures weekly.Some? <==> monthly.Some?
    ensures weekly.Some? ==> weekly.value * 52.0 == monthly.value * 12.0
  {
    match monthly
    case Some(m) => Some(WeeklyTotal(m))
    case None => None
  }
}
