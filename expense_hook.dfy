/**
 * The parameterised `useExpenseCalculations` hook: the user sets the price, the quarterly fees,
 * the deposit percentage, the interest rate and the additional repayment; two effects derive the
 * loan, the monthly payment over a fixed 30-year term, and the monthly and weekly totals.
 * The payment and the totals may be non-finite in JavaScript (`None` here).
 */
module ExpenseHook {
  import opened Wrappers
  import opened JsMath
  import opened Mortgage

  /** The term is fixed at 30 years. */
  const LoanTermYears: nat := 30

  const DefaultDepositPercentage: real := 5.0
  const DefaultInterestRate: real := 5.93

  /** The hook's state: one field per `useState`. */
  class ExpenseCalculations {
    var propertyPrice: real
    var strata: real
    var council: real
    var water: real
    var depositPercentage: real
    var interestRate: real
    var additionalRepayment: real
    var loanAmount: real
    var monthlyMortgage: Option<real>
    var monthlyTotal: Option<real>
    var weeklyTotal: Option<real>

    /** The initial state: the inputs at their defaults and every derived value 0. */
    constructor ()
      ensures propertyPrice == 0.0 && strata == 0.0 && council == 0.0 && water == 0.0
      ensures depositPercentage == DefaultDepositPercentage && interestRate == DefaultInterestRate
      ensures additionalRepayment == 0.0
      ensures loanAmount == 0.0 && monthlyMortgage == Some(0.0)
      ensures monthlyTotal == Some(0.0) && weeklyTotal == Some(0.0)
    {
      propertyPrice := 0.0;
      strata := 0.0;
      council := 0.0;
      water := 0.0;
      depositPercentage := DefaultDepositPercentage;
      interestRate := DefaultInterestRate;
      additionalRepayment := 0.0;
      loanAmount := 0.0;
      monthlyMortgage := Some(0.0);
      monthlyTotal := Some(0.0);
      weeklyTotal := Some(0.0);
    }

    /** The derived values are the ones both effects compute from the current inputs. */
    predicate Settled()
      reads this
    {
      && loanAmount == LoanAmount(propertyPrice, depositPercentage)
      && monthlyMortgage == MortgagePayment(loanAmount, interestRate, LoanTermYears * 12)
      && monthlyTotal == MonthlyTotalOf(monthlyMortgage, strata, council, water)
      && weeklyTotal == WeeklyTotalOf(monthlyTotal)
    }

    /** The effect on price, deposit and rate: the loan, then the payment (0 without a positive loan). */
    method RecomputeMortgage()
      modifies this
      ensures loanAmount == LoanAmount(propertyPrice, depositPercentage)
      ensures monthlyMortgage == MortgagePayment(loanAmount, interestRate, LoanTermYears * 12)
      ensures propertyPrice == old(propertyPrice) && strata == old(strata) && council == old(council)
      ensures water == old(water) && depositPercentage == old(depositPercentage)
      ensures interestRate == old(interestRate) && additionalRepayment == old(additionalRepayment)
      ensures monthlyTotal == old(monthlyTotal) && weeklyTotal == old(weeklyTotal)
    {
      var calculatedLoanAmount := LoanAmount(propertyPrice, depositPercentage);
      loanAmount := calculatedLoanAmount;
      monthlyMortgage := MortgagePayment(calculatedLoanAmount, interestRate, LoanTermYears * 12);
    }

    /** The effect on the payment and the fees: the monthly total, then the weekly one. */
    method RecomputeTotals()
      modifies this
      ensures monthlyTotal == MonthlyTotalOf(monthlyMortgage, strata, council, water)
      ensures weeklyTotal == WeeklyTotalOf(monthlyTotal)
      ensures propertyPrice == old(propertyPrice) && strata == old(strata) && council == old(council)
      ensures water == old(water) && depositPercentage == old(depositPercentage)
      ensures interestRate == old(interestRate) && additionalRepayment == old(additionalRepayment)
      ensures loanAmount == old(loanAmount) && monthlyMortgage == old(monthlyMortgage)
    {
      var monthly := MonthlyTotalOf(monthlyMortgage, strata, council, water);
      monthlyTotal := monthly;
      weeklyTotal := WeeklyTotalOf(monthly);
    }

    /** Both effects in dependency order leave the state settled, with the inputs untouched. */
    method Settle()
      modifies this
      ensures Settled()
      ensures propertyPrice == old(propertyPrice) && strata == old(strata) && council == old(council)
      ensures water == old(water) && depositPercentage == old(depositPercentage)
      ensures interestRate == old(interestRate) && additionalRepayment == old(additionalRepayment)
    {
      RecomputeMortgage();
      RecomputeTotals();
    }

    /** `resetAll`: every input back to its default; the effects then recompute the rest. */
    method ResetAll()
      modifies this
      ensures propertyPrice == 0.0 && strata == 0.0 && council == 0.0 && water == 0.0
      ensures depositPercentage == DefaultDepositPercentage && interestRate == DefaultInterestRate
      ensures additionalRepayment == 0.0
      ensures loanAmount == old(loanAmount) && monthlyMortgage == old(monthlyMortgage)
      ensures monthlyTotal == old(monthlyTotal) && weeklyTotal == old(weeklyTotal)
    {
      propertyPrice := 0.0;
      strata := 0.0;
      council := 0.0;
      water := 0.0;
      depositPercentage := DefaultDepositPercentage;
      interestRate := DefaultInterestRate;
      additionalRepayment := 0.0;
    }
  }

  /** A settled hook without a positive loan shows no payment, and only the fees in its totals. */
  lemma SettledWithoutLoan(h: ExpenseCalculations)
    requires h.Settled() && h.loanAmount <= 0.0
    ensures h.monthlyMortgage == Some(0.0)
    ensures h.monthlyTotal == Some((h.strata + h.council + h.water) / 3.0)
  {
  }

  /**
   * A settled hook with a positive loan at a positive rate shows the level payment over 360 months,
   * which exceeds the first month's interest, and finite totals.
   */
  lemma SettledWithLoan(h: ExpenseCalculations)
    requires h.Settled() && h.loanAmount > 0.0 && h.interestRate > 0.0
    ensures Pow(1.0 + MonthlyRate(h.interestRate), 360) > 1.0
    ensures h.monthlyMortgage == Some(LevelPayment(h.loanAmount, MonthlyRate(h.interestRate), 360))
    ensures h.monthlyMortgage.value > h.loanAmount * MonthlyRate(h.interestRate)
    ensures h.monthlyTotal.Some? && h.weeklyTotal.Some?
  {
    MortgageAtPositiveRate(h.loanAmount, h.interestRate, 360);
  }

  /** Settled at the defaults (as after `ResetAll`), everything derived is 0. */
  lemma DefaultsDeriveZero()
    ensures LoanAmount(0.0, DefaultDepositPercentage) == 0.0
    ensures MortgagePayment(0.0, DefaultInterestRate, LoanTermYears * 12) == Some(0.0)
    ensures MonthlyTotalOf(Some(0.0), 0.0, 0.0, 0.0) == Some(0.0)
    ensures WeeklyTotalOf(Some(0.0)) == Some(0.0)
  {
  }
}
