/**
 * The `useExpenseCalculations` hook of the expense-calculator page: the user sets only the price
 * and the quarterly fees; the deposit (5%), the rate (5.93%) and the term (30 years) are fixed, so
 * the payment is always a finite number.
 */
module FixedRateHook {
  import opened Wrappers
  import opened JsMath
  import opened Mortgage

  const DepositPercentage: real := 5.0
  const InterestRate: real := 5.93
  const LoanTermYears: nat := 30

  /** At the fixed rate the payment formula is defined for every loan, and it exceeds the first interest. */
  lemma FixedRatePaymentIsFinite(loanAmount: real)
    ensures MortgagePayment(loanAmount, InterestRate, LoanTermYears * 12).Some?
    ensures loanAmount > 0.0 ==>
      MortgagePayment(loanAmount, InterestRate, LoanTermYears * 12).value > loanAmount * MonthlyRate(InterestRate)
  {
    if loanAmount > 0.0 {
      MortgageAtPositiveRate(loanAmount, InterestRate, LoanTermYears * 12);
    }
  }

  /** The hook's state: one field per `useState`; deposit, rate and term are the constants above. */
  class ExpenseCalculations {
    var propertyPrice: real
    var strata: real
    var council: real
    var water: real
    var loanAmount: real
    var monthlyMortgage: real
    var monthlyTotal: real
    var weeklyTotal: real

    /** The initial state: every field 0. */
    constructor ()
      ensures propertyPrice == 0.0 && strata == 0.0 && council == 0.0 && water == 0.0
      ensures loanAmount == 0.0 && monthlyMortgage == 0.0 && monthlyTotal == 0.0 && weeklyTotal == 0.0
    {
      propertyPrice := 0.0;
      strata := 0.0;
      council := 0.0;
      water := 0.0;
      loanAmount := 0.0;
      monthlyMortgage := 0.0;
      monthlyTotal := 0.0;
      weeklyTotal := 0.0;
    }

    /** The derived values are the ones both effects compute from the current inputs. */
    predicate Settled()
      reads this
    {
      && loanAmount == propertyPrice * 0.95
      && Some(monthlyMortgage) == MortgagePayment(loanAmount, InterestRate, LoanTermYears * 12)
      && monthlyTotal == MonthlyTotal(monthlyMortgage, strata, council, water)
      && weeklyTotal == WeeklyTotal(monthlyTotal)
    }

    /**
     * The effect on the price: 95% of it is borrowed, and the payment is the formula at the fixed
     * rate and term when the loan is positive, 0 otherwise.
     */
    method RecomputeMortgage()
      modifies this
      ensures loanAmount == LoanAmount(propertyPrice, DepositPercentage) == propertyPrice * 0.95
      ensures Some(monthlyMortgage) == MortgagePayment(loanAmount, InterestRate, LoanTermYears * 12)
      ensures propertyPrice == old(propertyPrice) && strata == old(strata) && council == old(council)
      ensures water == old(water) && monthlyTotal == old(monthlyTotal) && weeklyTotal == old(weeklyTotal)
    {
      FivePercentDeposit(propertyPrice);
      var calculatedLoanAmount := LoanAmount(propertyPrice, DepositPercentage);
      loanAmount := calculatedLoanAmount;
      if calculatedLoanAmount > 0.0 {
        MortgageAtPositiveRate(calculatedLoanAmount, InterestRate, LoanTermYears * 12);
        monthlyMortgage := LevelPayment(calculatedLoanAmount, MonthlyRate(InterestRate), LoanTermYears * 12);
      } else {
        monthlyMortgage := 0.0;
      }
    }

    /** The effect on the payment and the fees: the monthly total, then the weekly one. */
    method RecomputeTotals()
      modifies this
      ensures monthlyTotal == MonthlyTotal(monthlyMortgage, strata, council, water)
      ensures weeklyTotal == WeeklyTotal(monthlyTotal)
      ensures propertyPrice == old(propertyPrice) && strata == old(strata) && council == old(council)
      ensures water == old(water) && loanAmount == old(loanAmount) && monthlyMortgage == old(monthlyMortgage)
    {
      var monthly := MonthlyTotal(monthlyMortgage, strata, council, water);
      monthlyTotal := monthly;
      weeklyTotal := WeeklyTotal(monthly);
    }

    /** Both effects in dependency order leave the state settled, with the inputs untouched. */
    method Settle()
      modifies this
      ensures Settled()
      ensures propertyPrice == old(propertyPrice) && strata == old(strata) && council == old(council)
      ensures water == old(water)
    {
      RecomputeMortgage();
      RecomputeTotals();
    }

    /** `resetAll`: exactly the price and the three fees go back to 0. */
    method ResetAll()
      modifies this
      ensures propertyPrice == 0.0 && strata == 0.0 && council == 0.0 && water == 0.0
      ensures loanAmount == old(loanAmount) && monthlyMortgage == old(monthlyMortgage)
      ensures monthlyTotal == old(monthlyTotal) && weeklyTotal == old(weeklyTotal)
    {
      propertyPrice := 0.0;
      strata := 0.0;
      council := 0.0;
      water := 0.0;
    }
  }

  /**
   * In a settled state the payment is 0 exactly when nothing is borrowed, and otherwise exceeds the
   * first month's interest; the weekly total is non-negative whenever the monthly one is.
   */
  lemma SettledFacts(h: ExpenseCalculations)
    requires h.Settled()
    ensures h.loanAmount <= 0.0 ==> h.monthlyMortgage == 0.0
    ensures h.loanAmount > 0.0 ==> h.monthlyMortgage > h.loanAmount * MonthlyRate(InterestRate)
    ensures h.monthlyTotal - h.monthlyMortgage == (h.strata + h.council + h.water) / 3.0
    ensures h.weeklyTotal >= 0.0 <==> h.monthlyTotal >= 0.0
  {
    FixedRatePaymentIsFinite(h.loanAmount);
  }
}
