/**
 * The earliest `useExpenseCalculations` hook: the user sets the price and the quarterly fees; the
 * loan is 95% of the price and the rate (5.93%) and term (30 years) are fixed.
 */
module BasicHook {
  import opened Wrappers
  import opened JsMath
  import opened Mortgage

  const InterestRate: real := 5.93
  const LoanTermYears: nat := 30

  /** The hook's state: one field per `useState`. */
  class ExpenseCalculations {
    var propertyPrice: real
    var strata: real
    var council: real
    var water: real
    var loanAmount: real
    var monthlyMortgage: real
    var monthlyTotal: real
    var weeklyTotal: real

    /** The initial state: every field 0. */
    constructor ()
      ensures propertyPrice == 0.0 && strata == 0.0 && council == 0.0 && water == 0.0
      ensures loanAmount == 0.0 && monthlyMortgage == 0.0 && monthlyTotal == 0.0 && weeklyTotal == 0.0
    {
      propertyPrice := 0.0;
      strata := 0.0;
      council := 0.0;
      water := 0.0;
      loanAmount := 0.0;
      monthlyMortgage := 0.0;
      monthlyTotal := 0.0;
      weeklyTotal := 0.0;
    }

    /** The effect on the price: 95% of it is borrowed, and the payment follows the formula or is 0. */
    method RecomputeMortgage()
      modifies this
      ensures loanAmount == propertyPrice * 0.95
      ensures Some(monthlyMortgage) == MortgagePayment(loanAmount, InterestRate, LoanTermYears * 12)
      ensures loanAmount <= 0.0 ==> monthlyMortgage == 0.0
      ensures loanAmount > 0.0 ==> monthlyMortgage > loanAmount * MonthlyRate(InterestRate)
      ensures propertyPrice == old(propertyPrice) && strata == old(strata) && council == old(council)
      ensures water == old(water) && monthlyTotal == old(monthlyTotal) && weeklyTotal == old(weeklyTotal)
    {
      var calculatedLoanAmount := propertyPrice * 0.95;
      loanAmount := calculatedLoanAmount;
      if calculatedLoanAmount > 0.0 {
        MortgageAtPositiveRate(calculatedLoanAmount, InterestRate, LoanTermYears * 12);
        monthlyMortgage := LevelPayment(calculatedLoanAmount, MonthlyRate(InterestRate), LoanTermYears * 12);
      } else {
        monthlyMortgage := 0.0;
      }
    }

    /** The effect on the payment and the fees: the monthly total, then the weekly one. */
    method RecomputeTotals()
      modifies this
      ensures monthlyTotal == MonthlyTotal(monthlyMortgage, strata, council, water)
      ensures weeklyTotal == WeeklyTotal(monthlyTotal)
      ensures weeklyTotal >= 0.0 <==> monthlyTotal >= 0.0
      ensures propertyPrice == old(propertyPrice) && strata == old(strata) && council == old(council)
      ensures water == old(water) && loanAmount == old(loanAmount) && monthlyMortgage == old(monthlyMortgage)
    {
      var monthly := MonthlyTotal(monthlyMortgage, strata, council, water);
      monthlyTotal := monthly;
      weeklyTotal := WeeklyTotal(monthly);
    }
  }
}
