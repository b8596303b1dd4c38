/**
 * The two computations behind the repayment chart: a yearly balance schedule for a standard and
 * an "extra repayment" track, and a month-by-month simulation of both tracks that yields the
 * totals, the interest saved and the time saved.
 */
module RepaymentGraph {
  import opened JsMath
  import opened Wrappers
  import opened Mortgage

  /** One point of the chart: the two balances, rounded, at the start of a year. */
  datatype RepaymentData = RepaymentData(year: int, standardBalance: int, withExtraBalance: int)

  /**
   * One month of the yearly schedule for a track: interest accrues at `r`, the payment (plus any
   * additional repayment) comes off, and the result is floored at 0; a track at 0 stays there.
   * Nothing stops the balance from growing when the payment is below the interest.
   */
  function Step(balance: real, payment: real, r: real, additional: real): (next: real)
    ensures balance >= 0.0 ==> next >= 0.0
    ensures balance <= 0.0 ==> next == balance
    ensures balance > 0.0 && payment - balance * r + additional > 0.0 ==> next < balance
    ensures balance > 0.0 && payment - balance * r + additional < 0.0 ==> next > balance
  {
    if balance > 0.0 then
      var interestPayment := balance * r;
      var principalPayment := payment - interestPayment + additional;
      Max(0.0, balance - principalPayment)
    else
      balance
  }

  /** A month of a positive balance, with the principal portion computed as the component does. */
  lemma StepUnfolds(balance: real, payment: real, r: real, additional: real, principalPayment: real)
    requires balance > 0.0 && principalPayment == payment - balance * r + additional
    ensures Step(balance, payment, r, additional) == Max(0.0, balance - principalPayment)
  {
  }

  /** The running balance of a track after `months` steps. */
  function Balance(start: real, payment: real, r: real, additional: real, months: nat): (b: real)
    ensures start <= 0.0 ==> b == start
  {
    if months == 0 then start else Step(Balance(start, payment, r, additional, months - 1), payment, r, additional)
  }

  /** A balance that starts non-negative stays non-negative. */
  lemma {:induction false} BalanceNonNegative(start: real, payment: real, r: real, additional: real, months: nat)
    requires start >= 0.0
    ensures Balance(start, payment, r, additional, months) >= 0.0
  {
    if months > 0 {
      BalanceNonNegative(start, payment, r, additional, months - 1);
    }
  }

  /** Once a track's balance reaches 0 it stays 0 for every later month. */
  lemma {:induction false} ZeroIsAbsorbing(start: real, payment: real, r: real, additional: real, months: nat, later: nat)
    requires Balance(start, payment, r, additional, months) == 0.0
    ensures Balance(start, payment, r, additional, months + later) == 0.0
  {
    if later > 0 {
      ZeroIsAbsorbing(start, payment, r, additional, months, later - 1);
    }
  }

  /** The clamped step is monotone in the balance when the rate is not negative. */
  lemma StepMonotone(low: real, high: real, payment: real, r: real, additional: real)
    requires 0.0 <= low <= high && r >= 0.0
    ensures Step(low, payment, r, additional) <= Step(high, payment, r, additional)
  {
    if low > 0.0 {
      ProductNonNegative(high - low, 1.0 + r);
      assert high * r - low * r == (high - low) * r;
      assert high - (payment - high * r + additional) >= low - (payment - low * r + additional);
    }
  }

  /** With the same balance, a larger additional repayment never leaves more owing. */
  lemma StepWithExtraBelow(balance: real, payment: real, r: real, less: real, more: real)
    requires balance >= 0.0 && less <= more
    ensures Step(balance, payment, r, more) <= Step(balance, payment, r, less)
  {
  }

  /** The extra-repayment track never owes more than the standard one. */
  lemma {:induction false} ExtraNeverAboveStandard(start: real, payment: real, r: real, additional: real, months: nat)
    requires start >= 0.0 && r >= 0.0 && additional >= 0.0
    ensures 0.0 <= Balance(start, payment, r, additional, months) <= Balance(start, payment, r, 0.0, months)
  {
    if months > 0 {
      ExtraNeverAboveStandard(start, payment, r, additional, months - 1);
      var extra := Balance(start, payment, r, additional, months - 1);
      var standard := Balance(start, payment, r, 0.0, months - 1);
      StepWithExtraBelow(extra, payment, r, 0.0, additional);
      StepMonotone(extra, standard, payment, r, 0.0);
    }
  }

  /** The chart point for `year`: both balances after `12 * year` months, rounded and floored at 0. */
  function Point(loanAmount: real, payment: real, r: real, additional: real, year: nat): (p: RepaymentData)
    ensures p.year == year && p.standardBalance >= 0 && p.withExtraBalance >= 0
    ensures var b := Balance(loanAmount, payment, r, 0.0, 12 * year);
      b >= 0.0 ==> -0.5 < p.standardBalance as real - b <= 0.5
    ensures var b := Balance(loanAmount, payment, r, additional, 12 * year);
      b >= 0.0 ==> -0.5 < p.withExtraBalance as real - b <= 0.5
  {
    RepaymentData(
      year,
      MaxInt(0, Round(Balance(loanAmount, payment, r, 0.0, 12 * year))),
      MaxInt(0, Round(Balance(loanAmount, payment, r, additional, 12 * year))))
  }

  /** How many points the schedule has: one per year from 0 through the term. */
  function PointCount(loanTermYears: int): nat {
    if loanTermYears >= 0 then loanTermYears + 1 else 0
  }

  /** The yearly schedule: empty without a positive loan and payment, otherwise a point per year. */
  function Schedule(loanAmount: real, monthlyMortgage: real, interestRate: real, loanTermYears: int,
                    additionalRepayment: real): (s: seq<RepaymentData>)
    ensures |s| == 0 <==> loanAmount <= 0.0 || monthlyMortgage <= 0.0 || loanTermYears < 0
    ensures |s| > 0 ==> |s| == loanTermYears + 1
    ensures forall i :: 0 <= i < |s| ==> s[i].year == i
  {
    if loanAmount <= 0.0 || monthlyMortgage <= 0.0 then []
    else
      seq(PointCount(loanTermYears), i requires 0 <= i =>
        Point(loanAmount, monthlyMortgage, MonthlyRate(interestRate), additionalRepayment, i))
  }

  /**
   * The chart data, stepped as the component does: a point per year, then twelve months of both
   * tracks (none after the last year).
   */
  method RepaymentSchedule(loanAmount: real, monthlyMortgage: real, interestRate: real, loanTermYears: int,
                           additionalRepayment: real) returns (data: seq<RepaymentData>)
    ensures data == Schedule(loanAmount, monthlyMortgage, interestRate, loanTermYears, additionalRepayment)
  {
    if loanAmount <= 0.0 || monthlyMortgage <= 0.0 {
      return [];
    }
    var monthlyRate := interestRate / 100.0 / 12.0;
    data := [];
    var standardBalance := loanAmount;
    var withExtraBalance := loanAmount;
    var year := 0;
    while year <= loanTermYears
      invariant 0 <= year <= PointCount(loanTermYears)
      invariant |data| == year
      invariant forall i :: 0 <= i < year ==>
        data[i] == Point(loanAmount, monthlyMortgage, monthlyRate, additionalRepayment, i)
      invariant year <= loanTermYears ==>
        standardBalance == Balance(loanAmount, monthlyMortgage, monthlyRate, 0.0, 12 * year) &&
        withExtraBalance == Balance(loanAmount, monthlyMortgage, monthlyRate, additionalRepayment, 12 * year)
    {
      data := data + [RepaymentData(year, MaxInt(0, Round(standardBalance)), MaxInt(0, Round(withExtraBalance)))];
      var month := 0;
      while month < 12 && year < loanTermYears
        invariant 0 <= month <= 12
        invariant year < loanTermYears || month == 0
        invariant standardBalance == Balance(loanAmount, monthlyMortgage, monthlyRate, 0.0, 12 * year + month)
        invariant withExtraBalance == Balance(loanAmount, monthlyMortgage, monthlyRate, additionalRepayment, 12 * year + month)
      {
        ghost var k := 12 * year + month;
        ghost var nextStandard := Step(standardBalance, monthlyMortgage, monthlyRate, 0.0);
        ghost var nextExtra := Step(withExtraBalance, monthlyMortgage, monthlyRate, additionalRepayment);
        assert nextStandard == Balance(loanAmount, monthlyMortgage, monthlyRate, 0.0, k + 1);
        assert nextExtra == Balance(loanAmount, monthlyMortgage, monthlyRate, additionalRepayment, k + 1);
        if standardBalance > 0.0 {
          var standardInterestPayment := standardBalance * monthlyRate;
          var standardPrincipalPayment := monthlyMortgage - standardInterestPayment;
          StepUnfolds(standardBalance, monthlyMortgage, monthlyRate, 0.0, standardPrincipalPayment);
          standardBalance := Max(0.0, standardBalance - standardPrincipalPayment);
        }
        if withExtraBalance > 0.0 {
          var extraInterestPayment := withExtraBalance * monthlyRate;
          var extraPrincipalPayment := monthlyMortgage - extraInterestPayment + additionalRepayment;
          StepUnfolds(withExtraBalance, monthlyMortgage, monthlyRate, additionalRepayment, extraPrincipalPayment);
          withExtraBalance := Max(0.0, withExtraBalance - extraPrincipalPayment);
        }
        assert standardBalance == nextStandard && withExtraBalance == nextExtra;
        month := month + 1;
      }
      year := year + 1;
    }
    ghost var spec := Schedule(loanAmount, monthlyMortgage, interestRate, loanTermYears, additionalRepayment);
    assert |data| == |spec|;
    forall i | 0 <= i < |data|
      ensures data[i] == spec[i]
    {
    }
  }

  /** Empty without a positive loan and payment. */
  lemma ScheduleEmpty(loanAmount: real, monthlyMortgage: real, interestRate: real, loanTermYears: int,
                      additionalRepayment: real)
    requires loanAmount <= 0.0 || monthlyMortgage <= 0.0
    ensures Schedule(loanAmount, monthlyMortgage, interestRate, loanTermYears, additionalRepayment) == []
  {
  }

  /**
   * Otherwise a term of T years gives T + 1 points, point i is year i, and the first point shows
   * the whole loan, rounded, on both tracks.
   */
  lemma ScheduleShape(loanAmount: real, monthlyMortgage: real, interestRate: real, loanTermYears: int,
                      additionalRepayment: real)
    requires loanAmount > 0.0 && monthlyMortgage > 0.0 && loanTermYears >= 0
    ensures var s := Schedule(loanAmount, monthlyMortgage, interestRate, loanTermYears, additionalRepayment);
      && |s| == loanTermYears + 1
      && (forall i :: 0 <= i < |s| ==> s[i].year == i && s[i].standardBalance >= 0 && s[i].withExtraBalance >= 0)
      && s[0].standardBalance == s[0].withExtraBalance == MaxInt(0, Round(loanAmount))
  {
  }

  /** With a non-negative rate and additional repayment, the extra track is never above the standard one. */
  lemma ScheduleTracksOrdered(loanAmount: real, monthlyMortgage: real, interestRate: real, loanTermYears: int,
                              additionalRepayment: real)
    requires interestRate >= 0.0 && additionalRepayment >= 0.0
    ensures var s := Schedule(loanAmount, monthlyMortgage, interestRate, loanTermYears, additionalRepayment);
      forall i :: 0 <= i < |s| ==> s[i].withExtraBalance <= s[i].standardBalance
  {
    var s := Schedule(loanAmount, monthlyMortgage, interestRate, loanTermYears, additionalRepayment);
    var r := MonthlyRate(interestRate);
    forall i | 0 <= i < |s|
      ensures s[i].withExtraBalance <= s[i].standardBalance
    {
      ExtraNeverAboveStandard(loanAmount, monthlyMortgage, r, additionalRepayment, 12 * i);
    }
  }

  /** Once a track's running balance reaches 0 at the start of a year, every later point shows 0. */
  lemma ScheduleZeroStays(loanAmount: real, monthlyMortgage: real, interestRate: real, loanTermYears: int,
                          additionalRepayment: real, i: nat, j: nat)
    requires loanAmount > 0.0 && monthlyMortgage > 0.0 && i <= j <= loanTermYears
    ensures var s := Schedule(loanAmount, monthlyMortgage, interestRate, loanTermYears, additionalRepayment);
      var r := MonthlyRate(interestRate);
      && (Balance(loanAmount, monthlyMortgage, r, 0.0, 12 * i) == 0.0 ==> s[j].standardBalance == 0)
      && (Balance(loanAmount, monthlyMortgage, r, additionalRepayment, 12 * i) == 0.0 ==> s[j].withExtraBalance == 0)
  {
    var r := MonthlyRate(interestRate);
    assert 12 * j == 12 * i + 12 * (j - i);
    if Balance(loanAmount, monthlyMortgage, r, 0.0, 12 * i) == 0.0 {
      ZeroIsAbsorbing(loanAmount, monthlyMortgage, r, 0.0, 12 * i, 12 * (j - i));
    }
    if Balance(loanAmount, monthlyMortgage, r, additionalRepayment, 12 * i) == 0.0 {
      ZeroIsAbsorbing(loanAmount, monthlyMortgage, r, additionalRepayment, 12 * i, 12 * (j - i));
    }
  }

  /**
   * While the unclamped balance is positive before month n and not negative at month n, the
   * schedule's guard and clamp never fire, so the standard track follows it exactly.
   */
  lemma {:induction false} ClampIdle(start: real, payment: real, r: real, n: nat, k: nat)
    requires k <= n
    requires forall j :: 0 <= j < n ==> Unclamped(start, payment, r, j) > 0.0
    requires Unclamped(start, payment, r, n) >= 0.0
    ensures Balance(start, payment, r, 0.0, k) == Unclamped(start, payment, r, k)
  {
    if k > 0 {
      ClampIdle(start, payment, r, n, k - 1);
      var b := Unclamped(start, payment, r, k - 1);
      assert b > 0.0;
      StepUnfolds(b, payment, r, 0.0, payment - b * r + 0.0);
      assert Unclamped(start, payment, r, k) >= 0.0;
    }
  }

  /**
   * The level payment pays the loan off exactly: the standard balance is positive before month n
   * and 0 at month n.
   */
  lemma LevelPaymentPaysOff(principal: real, r: real, n: nat, k: nat)
    requires principal > 0.0 && r > 0.0 && n >= 1 && k <= n
    ensures Pow(1.0 + r, n) > 1.0
    ensures k < n ==> Balance(principal, LevelPayment(principal, r, n), r, 0.0, k) > 0.0
    ensures Balance(principal, LevelPayment(principal, r, n), r, 0.0, n) == 0.0
  {
    LevelPaymentUnclamped(principal, r, n);
    var m := LevelPayment(principal, r, n);
    ClampIdle(principal, m, r, n, k);
    ClampIdle(principal, m, r, n, n);
  }

  /**
   * When the payment is the hook's level payment for the same term at a positive rate, the last
   * point of the schedule shows the standard track paid off.
   */
  lemma ScheduleEndsAtZero(loanAmount: real, monthlyMortgage: real, interestRate: real, loanTermYears: int,
                           additionalRepayment: real)
    requires loanAmount > 0.0 && interestRate > 0.0 && loanTermYears >= 1
    requires MortgagePayment(loanAmount, interestRate, 12 * loanTermYears) == Some(monthlyMortgage)
    ensures var s := Schedule(loanAmount, monthlyMortgage, interestRate, loanTermYears, additionalRepayment);
      |s| == loanTermYears + 1 && s[loanTermYears].standardBalance == 0
  {
    var r := MonthlyRate(interestRate);
    var n := 12 * loanTermYears;
    MortgageAtPositiveRate(loanAmount, interestRate, n);
    LevelPaymentPaysOff(loanAmount, r, n, n);
    assert monthlyMortgage > 0.0;
  }

  /** A month of the schedule taken first is the same as one taken last. */
  lemma {:induction false} BalanceShift(start: real, payment: real, r: real, additional: real, months: nat)
    ensures Balance(Step(start, payment, r, additional), payment, r, additional, months)
         == Balance(start, payment, r, additional, months + 1)
    decreases months
  {
    if months > 0 {
      BalanceShift(start, payment, r, additional, months - 1);
    }
  }

  // ---------------------------------------------------------------------------------------------
  // The loan metrics
  // ---------------------------------------------------------------------------------------------

  /** What the simulation of one track sums up: months paid, interest, additional repayments. */
  datatype TrackResult = TrackResult(months: nat, interestPaid: real, additionalPaid: real, balance: real)

  /**
   * The month-by-month loop behind the metrics, for at most `remaining` months: it runs while the
   * balance is positive, and stops early (the "safety check") once a month's payment no longer
   * covers that month's interest.
   */
  function Simulate(balance: real, payment: real, r: real, additional: real, remaining: nat): (t: TrackResult)
    ensures t.months <= remaining
    decreases remaining
  {
    if balance > 0.0 && remaining > 0 then
      var interestPayment := balance * r;
      var principalPayment := payment - interestPayment + additional;
      if principalPayment <= 0.0 then
        TrackResult(0, 0.0, 0.0, balance)
      else
        var rest := Simulate(Max(0.0, balance - principalPayment), payment, r, additional, remaining - 1);
        TrackResult(rest.months + 1, interestPayment + rest.interestPaid, additional + rest.additionalPaid, rest.balance)
    else
      TrackResult(0, 0.0, 0.0, balance)
  }

  /** One month of a track as the metrics loop takes it, when the principal portion is positive. */
  lemma SimulateUnfolds(balance: real, payment: real, r: real, additional: real, remaining: nat,
                        interestPayment: real, principalPayment: real)
    requires balance > 0.0 && remaining > 0
    requires interestPayment == balance * r && principalPayment == payment - interestPayment + additional
    requires principalPayment > 0.0
    ensures var rest := Simulate(Max(0.0, balance - principalPayment), payment, r, additional, remaining - 1);
      Simulate(balance, payment, r, additional, remaining)
      == TrackResult(rest.months + 1, interestPayment + rest.interestPaid, additional + rest.additionalPaid, rest.balance)
  {
  }

  /** The largest number of months the metrics loop may run: `loanTermYears * 12`, or none. */
  function MonthCap(loanTermYears: int): (cap: nat)
    ensures loanTermYears >= 0 ==> cap == 12 * loanTermYears
    ensures loanTermYears < 0 ==> cap == 0
  {
    if loanTermYears * 12 > 0 then loanTermYears * 12 else 0
  }

  /** One track's loop, as the component runs it, proved to compute `Simulate`. */
  method SimulateTrack(loanAmount: real, payment: real, r: real, additional: real, cap: nat) returns (t: TrackResult)
    ensures t == Simulate(loanAmount, payment, r, additional, cap)
  {
    var balance := loanAmount;
    var totalInterestPaid := 0.0;
    var totalAdditionalPayments := 0.0;
    var months: nat := 0;
    while balance > 0.0 && months < cap
      invariant months <= cap
      invariant var rest := Simulate(balance, payment, r, additional, cap - months);
        Simulate(loanAmount, payment, r, additional, cap)
        == TrackResult(months + rest.months, totalInterestPaid + rest.interestPaid,
                       totalAdditionalPayments + rest.additionalPaid, rest.balance)
      decreases cap - months
    {
      var interestPayment := balance * r;
      var principalPayment := payment - interestPayment + additional;
      if principalPayment <= 0.0 {
        break;
      }
      SimulateUnfolds(balance, payment, r, additional, cap - months, interestPayment, principalPayment);
      totalInterestPaid := totalInterestPaid + interestPayment;
      totalAdditionalPayments := totalAdditionalPayments + additional;
      balance := Max(0.0, balance - principalPayment);
      months := months + 1;
    }
    t := TrackResult(months, totalInterestPaid, totalAdditionalPayments, balance);
  }

  /** The figures shown under the chart. */
  datatype LoanMetrics = LoanMetrics(
    standardTotalRepayments: real,
    standardTotalInterest: real,
    extraTotalRepayments: real,
    extraTotalInterest: real,
    timeSavedYears: int,
    timeSavedMonths: int,
    interestSaved: real,
    standardTermMonths: int,
    extraTermMonths: int)

  /**
   * `months * payment`, the total of the regular payments, written as repeated addition so that
   * the solver does not meet a product of a whole and a real number; `RepaidIsProduct` relates the two.
   */
  function Repaid(months: nat, payment: real): real {
    if months == 0 then 0.0 else Repaid(months - 1, payment) + payment
  }

  lemma {:induction false} RepaidIsProduct(months: nat, payment: real)
    ensures Repaid(months, payment) == months as real * payment
  {
    if months > 0 {
      RepaidIsProduct(months - 1, payment);
      assert months as real * payment == (months - 1) as real * payment + payment;
    }
  }

  /** The standard track of the metrics: the loan paid at the monthly payment alone. */
  function StandardTrack(loanAmount: real, monthlyMortgage: real, interestRate: real, loanTermYears: int): (t: TrackResult)
    ensures t.months <= MonthCap(loanTermYears)
    ensures interestRate >= 0.0 ==> t.interestPaid >= 0.0
  {
    if interestRate >= 0.0 then
      SimulateInterestNonNegative(loanAmount, monthlyMortgage, MonthlyRate(interestRate), 0.0, MonthCap(loanTermYears));
      Simulate(loanAmount, monthlyMortgage, MonthlyRate(interestRate), 0.0, MonthCap(loanTermYears))
    else
      Simulate(loanAmount, monthlyMortgage, MonthlyRate(interestRate), 0.0, MonthCap(loanTermYears))
  }

  /** The additional repayment was paid once for every month of the track. */
  predicate PaysAdditionalMonthly(t: TrackResult, additional: real) {
    t.additionalPaid == t.months as real * additional
  }

  /** The extra track of the metrics: simulated only when the additional repayment is positive. */
  function ExtraTrack(loanAmount: real, monthlyMortgage: real, interestRate: real, loanTermYears: int,
                      additionalRepayment: real): (t: TrackResult)
    ensures t.months <= MonthCap(loanTermYears)
    ensures additionalRepayment <= 0.0 ==> t.months == 0 && t.interestPaid == 0.0 && t.additionalPaid == 0.0
    ensures PaysAdditionalMonthly(t, additionalRepayment)
  {
    if additionalRepayment > 0.0 then
      SimulateAdditional(loanAmount, monthlyMortgage, MonthlyRate(interestRate), additionalRepayment,
                         MonthCap(loanTermYears));
      Simulate(loanAmount, monthlyMortgage, MonthlyRate(interestRate), additionalRepayment, MonthCap(loanTermYears))
    else
      TrackResult(0, 0.0, 0.0, loanAmount)
  }

  /**
   * The figures derived from the two tracks: totals, the months saved split with `Math.floor` and
   * JavaScript's `%`, and the interest saved floored at 0.
   */
  function Summary(standard: TrackResult, extra: TrackResult, monthlyMortgage: real): (m: LoanMetrics)
    ensures m.standardTermMonths == standard.months && m.extraTermMonths == extra.months
    ensures m.standardTotalInterest == standard.interestPaid && m.extraTotalInterest == extra.interestPaid
    ensures m.interestSaved >= 0.0 && m.interestSaved >= m.standardTotalInterest - m.extraTotalInterest
    ensures m.standardTermMonths >= m.extraTermMonths ==>
      m.timeSavedYears * 12 + m.timeSavedMonths == m.standardTermMonths - m.extraTermMonths && 0 <= m.timeSavedMonths < 12
  {
    var monthsSaved := standard.months - extra.months;
    FloorTwelfth(monthsSaved);
    LoanMetrics(
      Repaid(standard.months, monthlyMortgage),
      standard.interestPaid,
      Repaid(extra.months, monthlyMortgage) + extra.additionalPaid,
      extra.interestPaid,
      Floor(monthsSaved as real / 12.0),
      TruncRem(monthsSaved, 12),
      Max(0.0, standard.interestPaid - extra.interestPaid),
      standard.months,
      extra.months)
  }

  /** The metrics as the component derives them: all zero without a loan or a payment. */
  function Metrics(loanAmount: real, monthlyMortgage: real, interestRate: real, loanTermYears: int,
                   additionalRepayment: real): (m: LoanMetrics)
    ensures loanAmount <= 0.0 || monthlyMortgage <= 0.0 ==> m == LoanMetrics(0.0, 0.0, 0.0, 0.0, 0, 0, 0.0, 0, 0)
    ensures 0 <= m.standardTermMonths <= MonthCap(loanTermYears) && 0 <= m.extraTermMonths <= MonthCap(loanTermYears)
    ensures m.interestSaved >= 0.0
    ensures RepaymentsArePayments(m, monthlyMortgage, additionalRepayment)
  {
    if loanAmount <= 0.0 || monthlyMortgage <= 0.0 then
      LoanMetrics(0.0, 0.0, 0.0, 0.0, 0, 0, 0.0, 0, 0)
    else
      var standard := StandardTrack(loanAmount, monthlyMortgage, interestRate, loanTermYears);
      var extra := ExtraTrack(loanAmount, monthlyMortgage, interestRate, loanTermYears, additionalRepayment);
      SummaryRepayments(standard, extra, monthlyMortgage, additionalRepayment);
      Summary(standard, extra, monthlyMortgage)
  }

  /**
   * The repayment totals shown under the chart: the payment times the standard term, and the
   * payment plus the additional repayment times the extra term.
   */
  predicate RepaymentsArePayments(m: LoanMetrics, payment: real, additional: real) {
    && m.standardTotalRepayments == m.standardTermMonths as real * payment
    && m.extraTotalRepayments == m.extraTermMonths as real * (payment + additional)
  }

  /** The component's `loanMetrics` computation, proved to compute `Metrics`. */
  method ComputeLoanMetrics(loanAmount: real, monthlyMortgage: real, interestRate: real, loanTermYears: int,
                            additionalRepayment: real) returns (m: LoanMetrics)
    ensures m == Metrics(loanAmount, monthlyMortgage, interestRate, loanTermYears, additionalRepayment)
  {
    if loanAmount <= 0.0 || monthlyMortgage <= 0.0 {
      return LoanMetrics(0.0, 0.0, 0.0, 0.0, 0, 0, 0.0, 0, 0);
    }
    var monthlyRate := MonthlyRate(interestRate);
    var standard := SimulateTrack(loanAmount, monthlyMortgage, monthlyRate, 0.0, MonthCap(loanTermYears));
    var standardTotalRepayments := Repaid(standard.months, monthlyMortgage);
    var extra := TrackResult(0, 0.0, 0.0, loanAmount);
    if additionalRepayment > 0.0 {
      extra := SimulateTrack(loanAmount, monthlyMortgage, monthlyRate, additionalRepayment, MonthCap(loanTermYears));
    }
    assert standard == StandardTrack(loanAmount, monthlyMortgage, interestRate, loanTermYears);
    assert extra == ExtraTrack(loanAmount, monthlyMortgage, interestRate, loanTermYears, additionalRepayment);
    var extraTotalRepayments := Repaid(extra.months, monthlyMortgage) + extra.additionalPaid;
    var monthsSaved := standard.months - extra.months;
    var timeSavedYears := Floor(monthsSaved as real / 12.0);
    var timeSavedMonths := TruncRem(monthsSaved, 12);
    var interestSaved := standard.interestPaid - extra.interestPaid;
    m := LoanMetrics(standardTotalRepayments, standard.interestPaid, extraTotalRepayments, extra.interestPaid,
                     timeSavedYears, timeSavedMonths, Max(0.0, interestSaved), standard.months, extra.months);
  }

  // ---------------------------------------------------------------------------------------------
  // Properties of one simulated track
  // ---------------------------------------------------------------------------------------------

  /** The additional repayments summed are one per month paid. */
  lemma {:induction false} SimulateAdditional(balance: real, payment: real, r: real, additional: real, remaining: nat)
    ensures var t := Simulate(balance, payment, r, additional, remaining);
      t.additionalPaid == t.months as real * additional
    decreases remaining
  {
    if balance > 0.0 && remaining > 0 && payment - balance * r + additional > 0.0 {
      SimulateAdditional(Max(0.0, balance - (payment - balance * r + additional)), payment, r, additional, remaining - 1);
    }
  }

  /** At a non-negative rate no interest is ever negative. */
  lemma {:induction false} SimulateInterestNonNegative(balance: real, payment: real, r: real, additional: real,
                                                       remaining: nat)
    requires r >= 0.0
    ensures Simulate(balance, payment, r, additional, remaining).interestPaid >= 0.0
    decreases remaining
  {
    if balance > 0.0 && remaining > 0 && payment - balance * r + additional > 0.0 {
      ProductNonNegative(balance, r);
      SimulateInterestNonNegative(Max(0.0, balance - (payment - balance * r + additional)), payment, r, additional,
                                  remaining - 1);
    }
  }

  /**
   * A track never ends below 0 and never above where it started, and every month paid lowers it.
   */
  lemma {:induction false} SimulateLowersBalance(balance: real, payment: real, r: real, additional: real, remaining: nat)
    requires balance >= 0.0
    ensures var t := Simulate(balance, payment, r, additional, remaining);
      0.0 <= t.balance <= balance && (t.months > 0 ==> t.balance < balance)
    decreases remaining
  {
    var principalPayment := payment - balance * r + additional;
    if balance > 0.0 && remaining > 0 && principalPayment > 0.0 {
      SimulateLowersBalance(Max(0.0, balance - principalPayment), payment, r, additional, remaining - 1);
    }
  }

  /**
   * Why a track stopped: it is paid off, it used every month allowed, or its payment no longer
   * covers the interest on what is left.
   */
  lemma {:induction false} SimulateStopReason(balance: real, payment: real, r: real, additional: real, remaining: nat)
    ensures var t := Simulate(balance, payment, r, additional, remaining);
      t.balance <= 0.0 || t.months == remaining || payment - t.balance * r + additional <= 0.0
    decreases remaining
  {
    var principalPayment := payment - balance * r + additional;
    if balance > 0.0 && remaining > 0 && principalPayment > 0.0 {
      SimulateStopReason(Max(0.0, balance - principalPayment), payment, r, additional, remaining - 1);
    }
  }

  /**
   * At a non-negative rate, a payment that covers the first month's interest covers every later
   * month's, so the safety check never stops the track.
   */
  lemma SimulateNeverStalls(balance: real, payment: real, r: real, additional: real, remaining: nat)
    requires balance >= 0.0 && r >= 0.0 && payment - balance * r + additional > 0.0
    ensures var t := Simulate(balance, payment, r, additional, remaining);
      t.balance <= 0.0 || t.months == remaining
  {
    var t := Simulate(balance, payment, r, additional, remaining);
    SimulateStopReason(balance, payment, r, additional, remaining);
    SimulateLowersBalance(balance, payment, r, additional, remaining);
    ProductNonNegative(balance - t.balance, r);
    assert balance * r - t.balance * r == (balance - t.balance) * r;
  }

  /**
   * What a track pays covers the interest it was charged plus the principal it cleared (the last
   * month may overpay, since the balance is floored at 0).
   */
  lemma {:induction false} SimulatePaymentsCover(balance: real, payment: real, r: real, additional: real, remaining: nat)
    ensures var t := Simulate(balance, payment, r, additional, remaining);
      t.months as real * payment + t.additionalPaid >= t.interestPaid + (balance - t.balance)
    decreases remaining
  {
    var principalPayment := payment - balance * r + additional;
    if balance > 0.0 && remaining > 0 && principalPayment > 0.0 {
      var next := Max(0.0, balance - principalPayment);
      SimulatePaymentsCover(next, payment, r, additional, remaining - 1);
      var rest := Simulate(next, payment, r, additional, remaining - 1);
      assert (rest.months + 1) as real * payment == rest.months as real * payment + payment;
    }
  }

  /** The metrics loop and the chart's schedule agree: a track ends where the schedule is after as many months. */
  lemma {:induction false} SimulateFollowsSchedule(balance: real, payment: real, r: real, additional: real,
                                                   remaining: nat)
    ensures var t := Simulate(balance, payment, r, additional, remaining);
      t.balance == Balance(balance, payment, r, additional, t.months)
    decreases remaining
  {
    var principalPayment := payment - balance * r + additional;
    if balance > 0.0 && remaining > 0 && principalPayment > 0.0 {
      var next := Max(0.0, balance - principalPayment);
      SimulateFollowsSchedule(next, payment, r, additional, remaining - 1);
      StepUnfolds(balance, payment, r, additional, principalPayment);
      BalanceShift(balance, payment, r, additional, Simulate(next, payment, r, additional, remaining - 1).months);
    }
  }

  /**
   * A track that starts no higher and adds at least as much each month finishes no later than one
   * that ran to 0 or to the cap. With `less` = 0 the second track is the standard one.
   */
  lemma {:induction false} ExtraFinishesNoLater(low: real, high: real, payment: real, r: real, less: real, more: real,
                                                remaining: nat)
    requires 0.0 <= low <= high && r >= 0.0 && 0.0 <= less <= more
    requires var s := Simulate(high, payment, r, less, remaining); s.balance <= 0.0 || s.months == remaining
    ensures Simulate(low, payment, r, more, remaining).months <= Simulate(high, payment, r, less, remaining).months
    decreases remaining
  {
    if low > 0.0 && remaining > 0 {
      var slowPrincipal := payment - high * r + less;
      var fastPrincipal := payment - low * r + more;
      PrincipalOrdered(low, high, payment, r, less, more);
      TrackSteps(high, payment, r, less, remaining);
      var nextLow := Max(0.0, low - fastPrincipal);
      var nextHigh := Max(0.0, high - slowPrincipal);
      NextBalancesOrdered(low, high, payment, r, less, more, fastPrincipal, slowPrincipal);
      SimulateUnfolds(high, payment, r, less, remaining, high * r, slowPrincipal);
      SimulateUnfolds(low, payment, r, more, remaining, low * r, fastPrincipal);
      ExtraFinishesNoLater(nextLow, nextHigh, payment, r, less, more, remaining - 1);
    }
  }

  /**
   * Under the same conditions, the track that starts no higher and adds at least as much each month
   * is charged no more interest in total.
   */
  lemma {:induction false} ExtraPaysNoMoreInterest(low: real, high: real, payment: real, r: real, less: real,
                                                   more: real, remaining: nat)
    requires 0.0 <= low <= high && r >= 0.0 && 0.0 <= less <= more
    requires var s := Simulate(high, payment, r, less, remaining); s.balance <= 0.0 || s.months == remaining
    ensures Simulate(low, payment, r, more, remaining).interestPaid
         <= Simulate(high, payment, r, less, remaining).interestPaid
    decreases remaining
  {
    if low <= 0.0 || remaining == 0 {
      SimulateInterestNonNegative(high, payment, r, less, remaining);
    } else {
      var slowPrincipal := payment - high * r + less;
      var fastPrincipal := payment - low * r + more;
      PrincipalOrdered(low, high, payment, r, less, more);
      TrackSteps(high, payment, r, less, remaining);
      var nextLow := Max(0.0, low - fastPrincipal);
      var nextHigh := Max(0.0, high - slowPrincipal);
      NextBalancesOrdered(low, high, payment, r, less, more, fastPrincipal, slowPrincipal);
      SimulateUnfolds(high, payment, r, less, remaining, high * r, slowPrincipal);
      ExtraPaysNoMoreInterest(nextLow, nextHigh, payment, r, less, more, remaining - 1);
      ExtraInterestStep(low, high, payment, r, less, more, remaining);
    }
  }

  /** The inductive step of `ExtraPaysNoMoreInterest`: the first month adds no more interest to the faster track. */
  lemma ExtraInterestStep(low: real, high: real, payment: real, r: real, less: real, more: real, remaining: nat)
    requires 0.0 < low <= high && r >= 0.0 && 0.0 <= less <= more && remaining > 0
    requires payment - high * r + less > 0.0
    requires Simulate(Max(0.0, low - (payment - low * r + more)), payment, r, more, remaining - 1).interestPaid
          <= Simulate(Max(0.0, high - (payment - high * r + less)), payment, r, less, remaining - 1).interestPaid
    ensures Simulate(low, payment, r, more, remaining).interestPaid
         <= Simulate(high, payment, r, less, remaining).interestPaid
  {
    PrincipalOrdered(low, high, payment, r, less, more);
    FirstMonthInterest(high, payment, r, less, remaining);
    FirstMonthInterest(low, payment, r, more, remaining);
    SumOrdered(low, high, r, Simulate(low, payment, r, more, remaining).interestPaid,
               Simulate(Max(0.0, low - (payment - low * r + more)), payment, r, more, remaining - 1).interestPaid,
               Simulate(high, payment, r, less, remaining).interestPaid,
               Simulate(Max(0.0, high - (payment - high * r + less)), payment, r, less, remaining - 1).interestPaid);
  }

  /** The interest of a track that takes its first month: that month's interest plus the rest's. */
  lemma FirstMonthInterest(balance: real, payment: real, r: real, additional: real, remaining: nat)
    requires balance > 0.0 && remaining > 0 && payment - balance * r + additional > 0.0
    ensures Simulate(balance, payment, r, additional, remaining).interestPaid
         == balance * r
          + Simulate(Max(0.0, balance - (payment - balance * r + additional)), payment, r, additional, remaining - 1).interestPaid
  {
    SimulateUnfolds(balance, payment, r, additional, remaining, balance * r, payment - balance * r + additional);
  }

  /**
   * Two interest totals, each a first month's interest plus the rest, are ordered when the balances
   * and the rests are (kept apart so the solver meets it without the tracks).
   */
  lemma SumOrdered(low: real, high: real, r: real, lowTotal: real, lowRest: real, highTotal: real, highRest: real)
    requires 0.0 <= low <= high && r >= 0.0
    requires lowTotal == low * r + lowRest && highTotal == high * r + highRest && lowRest <= highRest
    ensures lowTotal <= highTotal
  {
    InterestOrdered(low, high, r);
  }

  /** A track that runs to 0 or to the cap takes its first month if it has one to take. */
  lemma TrackSteps(high: real, payment: real, r: real, additional: real, remaining: nat)
    requires high > 0.0 && remaining > 0
    requires var s := Simulate(high, payment, r, additional, remaining); s.balance <= 0.0 || s.months == remaining
    ensures payment - high * r + additional > 0.0
  {
  }

  /** After one month the track that adds more still owes no more than the other. */
  lemma NextBalancesOrdered(low: real, high: real, payment: real, r: real, less: real, more: real,
                            fastPrincipal: real, slowPrincipal: real)
    requires 0.0 < low <= high && r >= 0.0 && less <= more
    requires fastPrincipal == payment - low * r + more && slowPrincipal == payment - high * r + less
    ensures 0.0 <= Max(0.0, low - fastPrincipal) <= Max(0.0, high - slowPrincipal)
  {
    StepUnfolds(low, payment, r, more, fastPrincipal);
    StepUnfolds(low, payment, r, less, payment - low * r + less);
    StepUnfolds(high, payment, r, less, slowPrincipal);
    StepWithExtraBelow(low, payment, r, less, more);
    StepMonotone(low, high, payment, r, less);
  }

  /** A smaller balance with a larger additional repayment pays off at least as much principal. */
  lemma PrincipalOrdered(low: real, high: real, payment: real, r: real, less: real, more: real)
    requires 0.0 <= low <= high && r >= 0.0 && less <= more
    ensures payment - low * r + more >= payment - high * r + less
  {
    InterestOrdered(low, high, r);
  }

  /** At a non-negative rate a smaller balance is charged no more interest. */
  lemma InterestOrdered(low: real, high: real, r: real)
    requires 0.0 <= low <= high && r >= 0.0
    ensures low * r <= high * r
  {
    ProductNonNegative(high - low, r);
    assert high * r - low * r == (high - low) * r;
  }

  // ---------------------------------------------------------------------------------------------
  // Properties of the metrics
  // ---------------------------------------------------------------------------------------------

  /** Without a loan or without a payment every figure is 0. */
  lemma MetricsWithoutLoan(loanAmount: real, monthlyMortgage: real, interestRate: real, loanTermYears: int,
                           additionalRepayment: real)
    requires loanAmount <= 0.0 || monthlyMortgage <= 0.0
    ensures Metrics(loanAmount, monthlyMortgage, interestRate, loanTermYears, additionalRepayment)
         == LoanMetrics(0.0, 0.0, 0.0, 0.0, 0, 0, 0.0, 0, 0)
  {
  }

  /**
   * The terms stay within `loanTermYears * 12` months, the extra track is all zero unless the
   * additional repayment is positive, and the interest saved is never negative nor below the
   * difference of the two interest totals.
   */
  lemma MetricsBounds(loanAmount: real, monthlyMortgage: real, interestRate: real, loanTermYears: int,
                      additionalRepayment: real)
    requires loanAmount > 0.0 && monthlyMortgage > 0.0
    ensures var m := Metrics(loanAmount, monthlyMortgage, interestRate, loanTermYears, additionalRepayment);
      && 0 <= m.standardTermMonths <= MonthCap(loanTermYears)
      && 0 <= m.extraTermMonths <= MonthCap(loanTermYears)
      && (additionalRepayment <= 0.0 ==>
            m.extraTermMonths == 0 && m.extraTotalRepayments == 0.0 && m.extraTotalInterest == 0.0)
      && m.interestSaved >= 0.0
      && m.interestSaved >= m.standardTotalInterest - m.extraTotalInterest
  {
  }

  /** The standard total of `Summary` is the payment times the months paid. */
  lemma SummaryStandardRepayments(standard: TrackResult, extra: TrackResult, payment: real)
    ensures var m := Summary(standard, extra, payment);
      m.standardTotalRepayments == m.standardTermMonths as real * payment
  {
    var m := Summary(standard, extra, payment);
    assert m.standardTotalRepayments == Repaid(standard.months, payment) && m.standardTermMonths == standard.months;
    RepaidIsProduct(standard.months, payment);
  }

  /**
   * The extra total of `Summary` is the payment plus the additional repayment, times the months
   * paid, given one additional repayment per month (which `SimulateAdditional` proves of a track).
   */
  lemma SummaryExtraRepayments(standard: TrackResult, extra: TrackResult, payment: real, additional: real)
    requires PaysAdditionalMonthly(extra, additional)
    ensures var m := Summary(standard, extra, payment);
      m.extraTotalRepayments == m.extraTermMonths as real * (payment + additional)
  {
    var m := Summary(standard, extra, payment);
    assert m.extraTotalRepayments == Repaid(extra.months, payment) + extra.additionalPaid;
    assert m.extraTermMonths == extra.months;
    RepaidWithExtra(extra.months, payment, additional);
  }

  /** Both totals of `Summary`, given one additional repayment per month of the extra track. */
  lemma SummaryRepayments(standard: TrackResult, extra: TrackResult, payment: real, additional: real)
    requires PaysAdditionalMonthly(extra, additional)
    ensures RepaymentsArePayments(Summary(standard, extra, payment), payment, additional)
  {
    SummaryStandardRepayments(standard, extra, payment);
    SummaryExtraRepayments(standard, extra, payment, additional);
  }

  /** `months` regular payments plus `months` additional repayments. */
  lemma RepaidWithExtra(months: nat, payment: real, additional: real)
    ensures Repaid(months, payment) + months as real * additional == months as real * (payment + additional)
  {
    RepaidIsProduct(months, payment);
    assert months as real * payment + months as real * additional == months as real * (payment + additional);
  }

  /** Whenever the standard track took at least as long, the time saved splits into whole years and months. */
  lemma TimeSavedSplit(loanAmount: real, monthlyMortgage: real, interestRate: real, loanTermYears: int,
                       additionalRepayment: real)
    ensures var m := Metrics(loanAmount, monthlyMortgage, interestRate, loanTermYears, additionalRepayment);
      m.standardTermMonths >= m.extraTermMonths ==>
        && m.timeSavedYears >= 0 && 0 <= m.timeSavedMonths < 12
        && m.timeSavedYears * 12 + m.timeSavedMonths == m.standardTermMonths - m.extraTermMonths
  {
    var m := Metrics(loanAmount, monthlyMortgage, interestRate, loanTermYears, additionalRepayment);
    var monthsSaved := m.standardTermMonths - m.extraTermMonths;
    if monthsSaved >= 0 && loanAmount > 0.0 && monthlyMortgage > 0.0 {
      FloorTwelfth(monthsSaved);
    }
  }

  /** `Math.floor(a / 12)` is the quotient of Euclidean division by 12, for either sign of `a`. */
  lemma FloorTwelfth(a: int)
    ensures Floor(a as real / 12.0) == a / 12
  {
    var q := a / 12;
    assert 12 * q <= a < 12 * q + 12;
    assert q as real <= a as real / 12.0 < q as real + 1.0;
  }

  /**
   * With a positive additional repayment, a non-negative rate and a payment that covers the first
   * month's interest, the extra track finishes no later and pays no more interest than the standard
   * one: the time saved is a genuine split into years and months, and the interest saved is the
   * plain difference.
   */
  lemma ExtraRepaymentSaves(loanAmount: real, monthlyMortgage: real, interestRate: real, loanTermYears: int,
                            additionalRepayment: real)
    requires loanAmount > 0.0 && interestRate >= 0.0 && additionalRepayment > 0.0
    requires monthlyMortgage > loanAmount * MonthlyRate(interestRate)
    ensures var m := Metrics(loanAmount, monthlyMortgage, interestRate, loanTermYears, additionalRepayment);
      && m.extraTermMonths <= m.standardTermMonths
      && m.timeSavedYears * 12 + m.timeSavedMonths == m.standardTermMonths - m.extraTermMonths
      && 0 <= m.timeSavedMonths < 12
      && m.extraTotalInterest <= m.standardTotalInterest
      && m.interestSaved == m.standardTotalInterest - m.extraTotalInterest
  {
    var r := MonthlyRate(interestRate);
    var cap := MonthCap(loanTermYears);
    ProductNonNegative(loanAmount, r);
    SimulateNeverStalls(loanAmount, monthlyMortgage, r, 0.0, cap);
    ExtraFinishesNoLater(loanAmount, loanAmount, monthlyMortgage, r, 0.0, additionalRepayment, cap);
    ExtraPaysNoMoreInterest(loanAmount, loanAmount, monthlyMortgage, r, 0.0, additionalRepayment, cap);
    TimeSavedSplit(loanAmount, monthlyMortgage, interestRate, loanTermYears, additionalRepayment);
  }

  /**
   * Raising a positive additional repayment never lengthens the extra track nor adds to its interest,
   * so the months saved and the interest saved never fall, as long as the payment covers the first
   * month's interest.
   */
  lemma LargerExtraSavesMore(loanAmount: real, monthlyMortgage: real, interestRate: real, loanTermYears: int,
                             less: real, more: real)
    requires loanAmount > 0.0 && interestRate >= 0.0 && 0.0 < less <= more
    requires monthlyMortgage > loanAmount * MonthlyRate(interestRate)
    ensures var m1 := Metrics(loanAmount, monthlyMortgage, interestRate, loanTermYears, less);
      var m2 := Metrics(loanAmount, monthlyMortgage, interestRate, loanTermYears, more);
      && m2.extraTermMonths <= m1.extraTermMonths
      && m2.standardTermMonths - m2.extraTermMonths >= m1.standardTermMonths - m1.extraTermMonths
      && m2.extraTotalInterest <= m1.extraTotalInterest
      && m2.interestSaved >= m1.interestSaved
  {
    var r := MonthlyRate(interestRate);
    var cap := MonthCap(loanTermYears);
    ProductNonNegative(loanAmount, r);
    SimulateNeverStalls(loanAmount, monthlyMortgage, r, less, cap);
    ExtraFinishesNoLater(loanAmount, loanAmount, monthlyMortgage, r, less, more, cap);
    ExtraPaysNoMoreInterest(loanAmount, loanAmount, monthlyMortgage, r, less, more, cap);
  }

  /**
   * Without a positive additional repayment the extra track is not simulated at all, so the figures
   * report the whole standard interest and the whole standard term as saved.
   */
  lemma NoExtraCountsAllSaved(loanAmount: real, monthlyMortgage: real, interestRate: real, loanTermYears: int,
                              additionalRepayment: real)
    requires loanAmount > 0.0 && monthlyMortgage > 0.0 && interestRate >= 0.0 && additionalRepayment <= 0.0
    ensures var m := Metrics(loanAmount, monthlyMortgage, interestRate, loanTermYears, additionalRepayment);
      && m.extraTermMonths == 0 && m.extraTotalRepayments == 0.0 && m.extraTotalInterest == 0.0
      && m.interestSaved == m.standardTotalInterest
      && m.timeSavedYears * 12 + m.timeSavedMonths == m.standardTermMonths
  {
    SimulateInterestNonNegative(loanAmount, monthlyMortgage, MonthlyRate(interestRate), 0.0, MonthCap(loanTermYears));
    TimeSavedSplit(loanAmount, monthlyMortgage, interestRate, loanTermYears, additionalRepayment);
  }

  /**
   * The time saved is not clamped: when the standard track stops at once on the safety check but
   * the extra track pays the loan off, the split is −1 year and −1 month.
   */
  lemma NegativeTimeSaved()
    ensures var m := Metrics(100.0, 0.5, 12.0, 1, 200.0);
      m.standardTermMonths == 0 && m.extraTermMonths == 1 && m.timeSavedYears == -1 && m.timeSavedMonths == -1
  {
    var r := MonthlyRate(12.0);
    assert r == 0.01;
    assert MonthCap(1) == 12;
    assert StandardTrack(100.0, 0.5, 12.0, 1) == TrackResult(0, 0.0, 0.0, 100.0);
    SimulateUnfolds(100.0, 0.5, r, 200.0, 12, 1.0, 199.5);
    assert Max(0.0, 100.0 - 199.5) == 0.0;
    assert Simulate(0.0, 0.5, r, 200.0, 11) == TrackResult(0, 0.0, 0.0, 0.0);
    assert ExtraTrack(100.0, 0.5, 12.0, 1, 200.0) == TrackResult(1, 1.0, 200.0, 0.0);
    FloorTwelfth(-1);
  }

  /**
   * At a positive rate with the level payment for `n` months, the metrics loop runs all `n` months:
   * the loan is not paid off earlier and the safety check never fires.
   */
  lemma LevelPaymentRunsFullTerm(principal: real, r: real, n: nat)
    requires principal > 0.0 && r > 0.0 && n >= 1
    ensures Pow(1.0 + r, n) > 1.0
    ensures Simulate(principal, LevelPayment(principal, r, n), r, 0.0, n).months == n
  {
    PowAboveOne(1.0 + r, n);
    var m := LevelPayment(principal, r, n);
    LevelPaymentExceedsInterest(principal, r, n);
    var s := Simulate(principal, m, r, 0.0, n);
    SimulateNeverStalls(principal, m, r, 0.0, n);
    SimulateFollowsSchedule(principal, m, r, 0.0, n);
    LevelPaymentPaysOff(principal, r, n, s.months);
  }

  /**
   * At a positive rate with the hook's level payment for the same term, the standard track runs the
   * whole term of `loanTermYears * 12` months.
   */
  lemma StandardTrackRunsFullTerm(loanAmount: real, monthlyMortgage: real, interestRate: real, loanTermYears: int,
                                  additionalRepayment: real)
    requires loanAmount > 0.0 && interestRate > 0.0 && loanTermYears >= 1
    requires MortgagePayment(loanAmount, interestRate, 12 * loanTermYears) == Some(monthlyMortgage)
    ensures Metrics(loanAmount, monthlyMortgage, interestRate, loanTermYears, additionalRepayment).standardTermMonths
         == 12 * loanTermYears
  {
    var n := 12 * loanTermYears;
    MortgageAtPositiveRate(loanAmount, interestRate, n);
    assert monthlyMortgage > 0.0;
    LevelPaymentRunsFullTerm(loanAmount, MonthlyRate(interestRate), n);
  }
}
