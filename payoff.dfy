/**
 * Month-by-month amortization estimate for one debt (`_estimate_debt_payoff`).
 *
 * Amounts are exact reals; `_estimate_debt_payoff`'s month loop is the method
 * `EstimateDebtPayoff`, specified by the function `DebtPayoff`, which is in
 * turn defined through the closed-form balance sequence `BalanceAfter`.
 */
module Payoff {
  import opened Wrappers
  import Text

  datatype Status = PaidOff | NoPayment | NonAmortizing | TooLong

  /** The dictionary the estimator returns. */
  datatype Estimate = Estimate(
    status: Status,
    months: Option<nat>,
    totalInterest: Option<real>,
    monthlyInterest: real,
    minPaymentToAmortize: real,
    reason: Option<string>)

  /** Default cap on simulated months. */
  const DefaultMaxMonths: nat := 600

  const NoPaymentReason := "No monthly payment entered."
  const NonAmortizingReason := "Payment is less than (or equal to) monthly interest, so the balance will grow."
  const PrincipalReason := "Payment doesn't reduce principal."

  function TooLongReason(maxMonths: nat): string {
    "Not paid off within " + Text.NatToString(maxMonths) + " months."
  }

  /** Monthly rate from an APR in percent; a negative APR counts as 0. */
  function MonthlyRate(aprPct: real): (r: real)
    ensures r >= 0.0
    ensures r > 0.0 <==> aprPct > 0.0
    ensures aprPct >= 0.0 ==> r * 1200.0 == aprPct
  {
    (if aprPct > 0.0 then aprPct else 0.0) / 100.0 / 12.0
  }

  /** `math.ceil`. */
  function Ceil(x: real): (n: int)
    ensures n as real - 1.0 < x <= n as real
  {
    -((-x).Floor)
  }

  /** Balance after `k` months: each month adds `b * rate` and subtracts `payment`. */
  function BalanceAfter(balance: real, rate: real, payment: real, k: nat): real {
    if k == 0 then balance
    else
      var b := BalanceAfter(balance, rate, payment, k - 1);
      b - (payment - b * rate)
  }

  /** Interest charged during the first `k` months. */
  function InterestAfter(balance: real, rate: real, payment: real, k: nat): real {
    if k == 0 then 0.0
    else InterestAfter(balance, rate, payment, k - 1) + BalanceAfter(balance, rate, payment, k - 1) * rate
  }

  /** The month at which the loop started at month `k` stops: a non-positive balance or the cap. */
  function StopMonth(balance: real, rate: real, payment: real, maxMonths: nat, k: nat): nat
    requires k <= maxMonths
    decreases maxMonths - k
  {
    if BalanceAfter(balance, rate, payment, k) <= 0.0 || k == maxMonths then k
    else StopMonth(balance, rate, payment, maxMonths, k + 1)
  }

  /** What `_estimate_debt_payoff(balance, apr_pct, payment, max_months)` returns. */
  function DebtPayoff(balance: real, aprPct: real, payment: real, maxMonths: nat): Estimate {
    if balance <= 0.0 then
      Estimate(PaidOff, Some(0), Some(0.0), 0.0, 0.0, None)
    else
      var rate := MonthlyRate(aprPct);
      var mi := if rate > 0.0 then balance * rate else 0.0;
      if payment <= 0.0 then
        Estimate(NoPayment, None, None, mi, if rate > 0.0 then mi + 1.0 else 0.0, Some(NoPaymentReason))
      else if rate <= 0.0 then
        Estimate(PaidOff, Some(CeilMonths(balance, payment)), Some(0.0), 0.0, 0.0, None)
      else if payment <= mi then
        Estimate(NonAmortizing, None, None, mi, mi + 1.0, Some(NonAmortizingReason))
      else
        Amortized(balance, rate, payment, maxMonths)
  }

  /** What the estimator reports once the month loop has stopped at month `k`. */
  function LoopOutcome(balance: real, rate: real, payment: real, maxMonths: nat, k: nat): Estimate {
    var mi := balance * rate;
    var interest := InterestAfter(balance, rate, payment, k);
    if BalanceAfter(balance, rate, payment, k) > 0.0 then
      Estimate(TooLong, None, Some(interest), mi, mi + 1.0, Some(TooLongReason(maxMonths)))
    else
      Estimate(PaidOff, Some(k), Some(interest), mi, mi + 1.0, None)
  }

  /** The outcome of the month loop entered at month `k`, run up to the cap. */
  function AmortizedFrom(balance: real, rate: real, payment: real, maxMonths: nat, k: nat): (e: Estimate)
    requires k <= maxMonths
    ensures e.status == PaidOff || e.status == TooLong
    ensures e.months.Some? <==> e.status == PaidOff
    ensures e.reason.None? <==> e.status == PaidOff
    ensures e.totalInterest.Some?
    ensures e.monthlyInterest == balance * rate && e.minPaymentToAmortize == e.monthlyInterest + 1.0
    decreases maxMonths - k
  {
    if BalanceAfter(balance, rate, payment, k) <= 0.0 || k == maxMonths then
      LoopOutcome(balance, rate, payment, maxMonths, k)
    else
      AmortizedFrom(balance, rate, payment, maxMonths, k + 1)
  }

  /** The outcome of the month loop, run from the opening balance up to the cap. */
  function Amortized(balance: real, rate: real, payment: real, maxMonths: nat): Estimate {
    AmortizedFrom(balance, rate, payment, maxMonths, 0)
  }

  /** `int(math.ceil(balance / payment))` for a positive balance and payment. */
  function CeilMonths(balance: real, payment: real): (n: nat)
    requires balance > 0.0 && payment > 0.0
    ensures n >= 1
    ensures (n - 1) as real * payment < balance <= n as real * payment
  {
    CeilBounds(balance, payment);
    Ceil(balance / payment)
  }

  lemma CeilBounds(balance: real, payment: real)
    requires balance > 0.0 && payment > 0.0
    ensures var c := Ceil(balance / payment);
      c >= 1 && (c - 1) as real * payment < balance <= c as real * payment
  {
    var q := balance / payment;
    Quotient(balance, payment);
    var c := Ceil(q);
    assert (c - 1) as real == c as real - 1.0;
    ScaleBracket((c - 1) as real, q, c as real, payment);
  }

  /** Scaling by a positive factor keeps a bracket. */
  lemma ScaleBracket(lo: real, x: real, hi: real, p: real)
    requires lo < x <= hi && p > 0.0
    ensures lo * p < x * p <= hi * p
  {
    MulLeft(x, hi, p);
    MulLeftStrict(lo, x, p);
  }

  /** A quotient of positive numbers is positive and multiplies back. */
  lemma Quotient(x: real, d: real)
    requires x > 0.0 && d > 0.0
    ensures x / d > 0.0 && x / d * d == x
  {
    if x / d <= 0.0 {
      MulLeft(x / d, 0.0, d);
    }
  }

  lemma MulLeft(a: real, b: real, c: real)
    requires a <= b && c >= 0.0
    ensures a * c <= b * c
  {
    assert b * c - a * c == (b - a) * c;
  }

  lemma MulLeftStrict(a: real, b: real, c: real)
    requires a < b && c > 0.0
    ensures a * c < b * c
  {
    assert b * c - a * c == (b - a) * c;
  }

  /** Computes `DebtPayoff` with `_estimate_debt_payoff`'s month loop. */
  method EstimateDebtPayoff(balance: real, aprPct: real, payment: real, maxMonths: nat) returns (e: Estimate)
    ensures e == DebtPayoff(balance, aprPct, payment, maxMonths)
  {
    if balance <= 0.0 {
      return Estimate(PaidOff, Some(0), Some(0.0), 0.0, 0.0, None);
    }
    var rate := MonthlyRate(aprPct);
    var mi := if rate > 0.0 then balance * rate else 0.0;
    if payment <= 0.0 {
      return Estimate(NoPayment, None, None, mi, if rate > 0.0 then mi + 1.0 else 0.0, Some(NoPaymentReason));
    }
    if rate <= 0.0 {
      var months := CeilMonths(balance, payment);
      return Estimate(PaidOff, Some(months), Some(0.0), 0.0, 0.0, None);
    }
    if payment <= mi {
      return Estimate(NonAmortizing, None, None, mi, mi + 1.0, Some(NonAmortizingReason));
    }
    e := Amortize(balance, rate, payment, maxMonths);
  }

  /** The month loop of the estimator, entered only once the payment beats the first month's interest. */
  method Amortize(balance: real, rate: real, payment: real, maxMonths: nat) returns (e: Estimate)
    requires balance > 0.0 && rate > 0.0 && payment > balance * rate
    ensures e == Amortized(balance, rate, payment, maxMonths)
  {
    var mi := balance * rate;
    var months: nat := 0;
    var totalInterest := 0.0;
    var b := balance;
    while b > 0.0 && months < maxMonths
      invariant months <= maxMonths
      invariant b == BalanceAfter(balance, rate, payment, months)
      invariant totalInterest == InterestAfter(balance, rate, payment, months)
      invariant forall j :: 0 <= j < months ==> BalanceAfter(balance, rate, payment, j) > 0.0
      decreases maxMonths - months
    {
      var interest := b * rate;
      var principal := payment - interest;
      LoopStep(balance, rate, payment, months);
      if principal <= 0.0 {
        assert false;
        return Estimate(NonAmortizing, None, None, interest, interest + 1.0, Some(PrincipalReason));
      }
      b := b - principal;
      totalInterest := totalInterest + interest;
      months := months + 1;
    }
    LoopExit(balance, rate, payment, maxMonths, months);
    if b > 0.0 {
      return Estimate(TooLong, None, Some(totalInterest), mi, mi + 1.0, Some(TooLongReason(maxMonths)));
    }
    return Estimate(PaidOff, Some(months), Some(totalInterest), mi, mi + 1.0, None);
  }

  /** Where the month loop has stopped, its result is `Amortized`. */
  lemma LoopExit(balance: real, rate: real, payment: real, maxMonths: nat, k: nat)
    requires k <= maxMonths
    requires BalanceAfter(balance, rate, payment, k) <= 0.0 || k == maxMonths
    requires forall j :: 0 <= j < k ==> BalanceAfter(balance, rate, payment, j) > 0.0
    ensures Amortized(balance, rate, payment, maxMonths) == LoopOutcome(balance, rate, payment, maxMonths, k)
  {
    StopsAt(balance, rate, payment, maxMonths, 0, k);
    AmortizedAtStop(balance, rate, payment, maxMonths, 0);
  }

  /** The loop entered at month `k` reports the outcome at the month it stops. */
  lemma {:induction false} AmortizedAtStop(balance: real, rate: real, payment: real, maxMonths: nat, k: nat)
    requires k <= maxMonths
    ensures AmortizedFrom(balance, rate, payment, maxMonths, k)
      == LoopOutcome(balance, rate, payment, maxMonths, StopMonth(balance, rate, payment, maxMonths, k))
    decreases maxMonths - k
  {
    if !(BalanceAfter(balance, rate, payment, k) <= 0.0 || k == maxMonths) {
      AmortizedAtStop(balance, rate, payment, maxMonths, k + 1);
    }
  }

  /** The loop started at month `i` runs to month `k` if every balance in between is positive and it stops at `k`. */
  lemma {:induction false} StopsAt(balance: real, rate: real, payment: real, maxMonths: nat, i: nat, k: nat)
    requires i <= k <= maxMonths
    requires BalanceAfter(balance, rate, payment, k) <= 0.0 || k == maxMonths
    requires forall j :: i <= j < k ==> BalanceAfter(balance, rate, payment, j) > 0.0
    ensures StopMonth(balance, rate, payment, maxMonths, i) == k
    decreases k - i
  {
    if i < k {
      StopsAt(balance, rate, payment, maxMonths, i + 1, k);
    }
  }

  /** One pass of the month loop, stated on the balance sequence. */
  lemma LoopStep(balance: real, rate: real, payment: real, k: nat)
    requires balance > 0.0 && rate > 0.0 && payment > balance * rate
    ensures var b := BalanceAfter(balance, rate, payment, k);
      && payment - b * rate > 0.0
      && BalanceAfter(balance, rate, payment, k + 1) == b - (payment - b * rate)
      && InterestAfter(balance, rate, payment, k + 1) == InterestAfter(balance, rate, payment, k) + b * rate
  {
    PrincipalPositive(balance, rate, payment, k);
  }

  // ---------------------------------------------------------------------------
  // Properties of the balance sequence
  // ---------------------------------------------------------------------------

  /** What was paid equals what was borrowed plus interest, minus what is still owed. */
  lemma {:induction false} LedgerIdentity(balance: real, rate: real, payment: real, k: nat)
    ensures BalanceAfter(balance, rate, payment, k)
            == balance - k as real * payment + InterestAfter(balance, rate, payment, k)
  {
    if k > 0 {
      LedgerIdentity(balance, rate, payment, k - 1);
    }
  }

  /**
   * When the payment exceeds the first month's interest, every month cuts the
   * balance by at least `payment - balance * rate`.
   */
  lemma {:induction false} ProgressBound(balance: real, rate: real, payment: real, k: nat)
    requires balance > 0.0 && rate > 0.0 && payment > balance * rate
    ensures BalanceAfter(balance, rate, payment, k) <= balance - k as real * (payment - balance * rate)
  {
    if k > 0 {
      var d := payment - balance * rate;
      ProgressBound(balance, rate, payment, k - 1);
      var b0 := BalanceAfter(balance, rate, payment, k - 1);
      MulLeft(0.0, (k - 1) as real, d);
      MulLeft(b0, balance, rate);
      assert (k - 1) as real * d + d == k as real * d by {
        assert (k - 1) as real == k as real - 1.0;
      }
      assert BalanceAfter(balance, rate, payment, k) == b0 - (payment - b0 * rate);
    }
  }

  /**
   * Under the same assumption the loop's guard against a non-positive principal
   * never fires, and the balance strictly falls every month.
   */
  lemma PrincipalPositive(balance: real, rate: real, payment: real, k: nat)
    requires balance > 0.0 && rate > 0.0 && payment > balance * rate
    ensures payment - BalanceAfter(balance, rate, payment, k) * rate > 0.0
    ensures BalanceAfter(balance, rate, payment, k + 1) < BalanceAfter(balance, rate, payment, k)
  {
    ProgressBound(balance, rate, payment, k);
    var d := payment - balance * rate;
    MulLeft(0.0, k as real, d);
    StepShrinks(balance, rate, payment, BalanceAfter(balance, rate, payment, k), k as real * d);
  }

  /** One month from a balance `b` no larger than the opening one pays down principal. */
  lemma StepShrinks(balance: real, rate: real, payment: real, b: real, paid: real)
    requires rate > 0.0 && payment > balance * rate
    requires paid >= 0.0 && b <= balance - paid
    ensures payment - b * rate > 0.0
    ensures b - (payment - b * rate) < b
  {
    var interest := b * rate;
    var opening := balance * rate;
    MulLeft(b, balance, rate);
    assert interest <= opening;
    Below(interest, opening, payment);
  }

  lemma Below(y: real, z: real, payment: real)
    requires y <= z < payment
    ensures payment - y > 0.0
  {
  }

  /** One month from a smaller balance with a larger payment ends no higher. */
  lemma StepMono(b1: real, b2: real, rate: real, p1: real, p2: real)
    requires b2 <= b1 && rate >= 0.0 && p1 <= p2
    ensures b2 - (p2 - b2 * rate) <= b1 - (p1 - b1 * rate)
  {
    var y1 := b1 * rate;
    var y2 := b2 * rate;
    MulLeft(b2, b1, rate);
    assert y2 <= y1;
    LinearStep(b1, b2, y1, y2, p1, p2);
  }

  lemma LinearStep(x1: real, x2: real, y1: real, y2: real, p1: real, p2: real)
    requires x2 <= x1 && y2 <= y1 && p1 <= p2
    ensures x2 - (p2 - y2) <= x1 - (p1 - y1)
  {
  }

  /** Interest charged so far is non-negative as long as every balance so far was. */
  lemma {:induction false} InterestNonNegative(balance: real, rate: real, payment: real, k: nat)
    requires rate >= 0.0
    requires forall j :: 0 <= j < k ==> BalanceAfter(balance, rate, payment, j) >= 0.0
    ensures InterestAfter(balance, rate, payment, k) >= 0.0
  {
    if k > 0 {
      InterestNonNegative(balance, rate, payment, k - 1);
      MulLeft(0.0, BalanceAfter(balance, rate, payment, k - 1), rate);
    }
  }

  /** Where the loop stops: the first month from `k` on with a non-positive balance, or the cap. */
  lemma {:induction false} StopMonthSpec(balance: real, rate: real, payment: real, maxMonths: nat, k: nat)
    requires k <= maxMonths
    ensures var m := StopMonth(balance, rate, payment, maxMonths, k);
      k <= m <= maxMonths
      && (BalanceAfter(balance, rate, payment, m) <= 0.0 || m == maxMonths)
      && forall j :: k <= j < m ==> BalanceAfter(balance, rate, payment, j) > 0.0
    decreases maxMonths - k
  {
    if !(BalanceAfter(balance, rate, payment, k) <= 0.0 || k == maxMonths) {
      StopMonthSpec(balance, rate, payment, maxMonths, k + 1);
    }
  }

  // ---------------------------------------------------------------------------
  // Properties of the estimate
  // ---------------------------------------------------------------------------

  /** Which status each input gets. */
  lemma StatusCases(balance: real, aprPct: real, payment: real, maxMonths: nat)
    ensures var e := DebtPayoff(balance, aprPct, payment, maxMonths);
      var rate := MonthlyRate(aprPct);
      && (balance <= 0.0 ==> e == Estimate(PaidOff, Some(0), Some(0.0), 0.0, 0.0, None))
      && (e.status == NoPayment <==> balance > 0.0 && payment <= 0.0)
      && (e.status == NonAmortizing <==> balance > 0.0 && payment > 0.0 && aprPct > 0.0 && payment <= balance * rate)
      && (e.status == TooLong ==> balance > 0.0 && aprPct > 0.0 && payment > balance * rate)
      && (e.months.Some? <==> e.status == PaidOff)
      && (e.totalInterest.Some? <==> e.status == PaidOff || e.status == TooLong)
      && (e.reason.None? <==> e.status == PaidOff)
  {
    if balance > 0.0 && aprPct > 0.0 && payment > balance * MonthlyRate(aprPct) {
      AmortizingBranch(balance, aprPct, payment, maxMonths);
    }
  }

  /** Any verdict other than "no payment" and "non-amortizing" means a positive payment above the opening interest. */
  lemma PaymentBeatsInterest(balance: real, aprPct: real, payment: real, maxMonths: nat)
    requires balance > 0.0
    ensures var s := DebtPayoff(balance, aprPct, payment, maxMonths).status;
      s != NoPayment && s != NonAmortizing ==>
        payment > 0.0 && (aprPct > 0.0 ==> payment > balance * MonthlyRate(aprPct))
  {
  }

  /**
   * The two verdicts without a month count: "no payment" reports the opening
   * interest and, when there is interest, one more than it as the suggested
   * minimum; "non-amortizing" always suggests one more than the interest.
   */
  lemma UnpaidCases(balance: real, aprPct: real, payment: real, maxMonths: nat)
    requires balance > 0.0
    ensures var e := DebtPayoff(balance, aprPct, payment, maxMonths);
      var mi := balance * MonthlyRate(aprPct);
      && (payment <= 0.0 ==>
            && e.months.None? && e.totalInterest.None? && e.monthlyInterest == mi
            && e.minPaymentToAmortize == (if aprPct > 0.0 then mi + 1.0 else 0.0)
            && e.reason == Some(NoPaymentReason))
      && (e.status == NonAmortizing ==>
            && e.months.None? && e.totalInterest.None? && e.monthlyInterest == mi
            && e.minPaymentToAmortize == mi + 1.0 && e.minPaymentToAmortize > payment
            && e.reason == Some(NonAmortizingReason))
  {
    StatusCases(balance, aprPct, payment, maxMonths);
  }

  /**
   * In the amortizing case the reported months are the first month whose
   * balance is paid off, and a "too long" verdict means the balance is still
   * positive after every month up to the cap.
   */
  lemma AmortizedOutcome(balance: real, aprPct: real, payment: real, maxMonths: nat)
    requires balance > 0.0 && aprPct > 0.0 && payment > balance * MonthlyRate(aprPct)
    ensures var e := DebtPayoff(balance, aprPct, payment, maxMonths);
      var rate := MonthlyRate(aprPct);
      && (e.status == PaidOff || e.status == TooLong)
      && e.monthlyInterest == balance * rate
      && e.minPaymentToAmortize == e.monthlyInterest + 1.0
      && (e.status == PaidOff ==>
            var m := e.months.value;
            1 <= m <= maxMonths
            && BalanceAfter(balance, rate, payment, m) <= 0.0
            && (forall j :: 0 <= j < m ==> BalanceAfter(balance, rate, payment, j) > 0.0)
            && e.totalInterest == Some(InterestAfter(balance, rate, payment, m)))
      && (e.status == TooLong ==>
            forall j :: 0 <= j <= maxMonths ==> BalanceAfter(balance, rate, payment, j) > 0.0)
  {
    var rate := MonthlyRate(aprPct);
    AmortizingBranch(balance, aprPct, payment, maxMonths);
    StopMonthSpec(balance, rate, payment, maxMonths, 0);
  }

  /** Once the payment beats the first month's interest, the estimate is the month loop's outcome. */
  lemma AmortizingBranch(balance: real, aprPct: real, payment: real, maxMonths: nat)
    requires balance > 0.0 && aprPct > 0.0 && payment > balance * MonthlyRate(aprPct)
    ensures var rate := MonthlyRate(aprPct);
      DebtPayoff(balance, aprPct, payment, maxMonths)
      == LoopOutcome(balance, rate, payment, maxMonths, StopMonth(balance, rate, payment, maxMonths, 0))
  {
    AmortizedAtStop(balance, MonthlyRate(aprPct), payment, maxMonths, 0);
  }

  /** Payments over the first `m` months cover the balance plus interest when `m` is the first paid month. */
  lemma LedgerBounds(balance: real, rate: real, payment: real, m: nat)
    requires rate >= 0.0 && m >= 1
    requires BalanceAfter(balance, rate, payment, m) <= 0.0
    requires forall j :: 0 <= j < m ==> BalanceAfter(balance, rate, payment, j) > 0.0
    ensures var interest := InterestAfter(balance, rate, payment, m);
      && interest >= 0.0
      && m as real * payment >= balance + interest
      && (m - 1) as real * payment < balance + interest
  {
    InterestNonNegative(balance, rate, payment, m);
    LedgerIdentity(balance, rate, payment, m);
    LedgerIdentity(balance, rate, payment, m - 1);
    var before := BalanceAfter(balance, rate, payment, m - 1);
    MulLeft(0.0, before, rate);
    assert (m - 1) as real == m as real - 1.0;
  }

  /** A paid-off estimate accounts for every cent: `m` payments cover principal plus interest, `m - 1` do not. */
  lemma PaidOffLedger(balance: real, aprPct: real, payment: real, maxMonths: nat)
    requires balance > 0.0 && aprPct > 0.0 && payment > balance * MonthlyRate(aprPct)
    requires DebtPayoff(balance, aprPct, payment, maxMonths).status == PaidOff
    ensures var e := DebtPayoff(balance, aprPct, payment, maxMonths);
      var m := e.months.value;
      && e.totalInterest.value >= 0.0
      && m as real * payment >= balance + e.totalInterest.value
      && (m - 1) as real * payment < balance + e.totalInterest.value
  {
    AmortizedOutcome(balance, aprPct, payment, maxMonths);
    var e := DebtPayoff(balance, aprPct, payment, maxMonths);
    LedgerBounds(balance, MonthlyRate(aprPct), payment, e.months.value);
  }

  /**
   * The cap is never the reason for "too long" when it is generous: a cap of
   * at least `balance / (payment - monthly interest)` months always pays off.
   */
  lemma PaidOffWithinBound(balance: real, aprPct: real, payment: real, maxMonths: nat)
    requires balance > 0.0 && aprPct > 0.0
    requires payment > balance * MonthlyRate(aprPct)
    requires balance <= maxMonths as real * (payment - balance * MonthlyRate(aprPct))
    ensures DebtPayoff(balance, aprPct, payment, maxMonths).status == PaidOff
  {
    var rate := MonthlyRate(aprPct);
    PaidByCap(balance, rate, payment, maxMonths);
    AmortizingBranch(balance, aprPct, payment, maxMonths);
    StopMonthSpec(balance, rate, payment, maxMonths, 0);
  }

  /** Under the same bound the balance at the cap is paid off. */
  lemma PaidByCap(balance: real, rate: real, payment: real, maxMonths: nat)
    requires balance > 0.0 && rate > 0.0 && payment > balance * rate
    requires balance <= maxMonths as real * (payment - balance * rate)
    ensures BalanceAfter(balance, rate, payment, maxMonths) <= 0.0
  {
    ProgressBound(balance, rate, payment, maxMonths);
  }

  /** With no interest the month count is the least number of payments that covers the balance. */
  lemma ZeroRatePayoff(balance: real, aprPct: real, payment: real, maxMonths: nat)
    requires balance > 0.0 && aprPct <= 0.0 && payment > 0.0
    ensures var e := DebtPayoff(balance, aprPct, payment, maxMonths);
      && e.status == PaidOff && e.totalInterest == Some(0.0)
      && var m := e.months.value;
         (m - 1) as real * payment < balance <= m as real * payment
  {
  }

  /** At rate 0 the balance falls by exactly one payment a month. */
  lemma {:induction false} ZeroRateBalance(balance: real, payment: real, k: nat)
    ensures BalanceAfter(balance, 0.0, payment, k) == balance - k as real * payment
  {
    if k > 0 {
      ZeroRateBalance(balance, payment, k - 1);
    }
  }

  /**
   * The closed-form month count of the no-interest case agrees with what the
   * month loop would compute at rate 0 given enough months.
   */
  lemma ZeroRateAgreesWithLoop(balance: real, payment: real, maxMonths: nat)
    requires balance > 0.0 && payment > 0.0
    requires maxMonths >= CeilMonths(balance, payment)
    ensures StopMonth(balance, 0.0, payment, maxMonths, 0) == CeilMonths(balance, payment)
  {
    var n := CeilMonths(balance, payment);
    forall j | 0 <= j < n ensures BalanceAfter(balance, 0.0, payment, j) > 0.0 {
      ZeroRateBalance(balance, payment, j);
      MulLeft(j as real, (n - 1) as real, payment);
    }
    ZeroRateBalance(balance, payment, n);
    StopsAt(balance, 0.0, payment, maxMonths, 0, n);
  }

  /** A non-amortizing payment never reduces the balance below where it started. */
  lemma {:induction false} NonAmortizingMeansNoProgress(balance: real, rate: real, payment: real, k: nat)
    requires balance > 0.0 && rate > 0.0 && payment <= balance * rate
    ensures BalanceAfter(balance, rate, payment, k) >= balance
  {
    if k > 0 {
      NonAmortizingMeansNoProgress(balance, rate, payment, k - 1);
      MulLeft(balance, BalanceAfter(balance, rate, payment, k - 1), rate);
    }
  }

  /** The payment the estimate suggests for amortizing. */
  function MinPaymentFor(balance: real, aprPct: real, payment: real, maxMonths: nat): real {
    DebtPayoff(balance, aprPct, payment, maxMonths).minPaymentToAmortize
  }

  /** The suggested minimum payment does amortize. */
  lemma MinPaymentAmortizes(balance: real, aprPct: real, payment: real, maxMonths: nat)
    requires DebtPayoff(balance, aprPct, payment, maxMonths).status == NonAmortizing
    ensures var e := DebtPayoff(balance, aprPct, MinPaymentFor(balance, aprPct, payment, maxMonths), maxMonths);
      e.status == PaidOff || e.status == TooLong
  {
    var p := MinPaymentFor(balance, aprPct, payment, maxMonths);
    AmortizedOutcome(balance, aprPct, p, maxMonths);
  }

  /** A larger payment leaves a balance that is never larger, month by month. */
  lemma {:induction false} PayingMoreLowersBalance(balance: real, rate: real, p1: real, p2: real, k: nat)
    requires rate >= 0.0 && p1 <= p2
    ensures BalanceAfter(balance, rate, p2, k) <= BalanceAfter(balance, rate, p1, k)
  {
    if k > 0 {
      PayingMoreLowersBalance(balance, rate, p1, p2, k - 1);
      var b1 := BalanceAfter(balance, rate, p1, k - 1);
      var b2 := BalanceAfter(balance, rate, p2, k - 1);
      StepMono(b1, b2, rate, p1, p2);
    }
  }

  /** With no interest a larger payment needs no more months. */
  lemma CeilMonthsMono(balance: real, p1: real, p2: real)
    requires balance > 0.0 && 0.0 < p1 <= p2
    ensures CeilMonths(balance, p2) <= CeilMonths(balance, p1)
  {
    var n1 := CeilMonths(balance, p1);
    var n2 := CeilMonths(balance, p2);
    MulLeft(p1, p2, n1 as real);
    assert balance <= n1 as real * p2;
    if n2 > n1 {
      MulLeft(n1 as real, (n2 - 1) as real, p2);
    }
  }

  /** The amortizing case of `PayingMoreNeverTakesLonger`. */
  lemma PayingMoreAmortized(balance: real, aprPct: real, p1: real, p2: real, maxMonths: nat)
    requires balance > 0.0 && aprPct > 0.0 && p1 <= p2
    requires DebtPayoff(balance, aprPct, p1, maxMonths).status == PaidOff
    ensures var e2 := DebtPayoff(balance, aprPct, p2, maxMonths);
      e2.status == PaidOff && e2.months.value <= DebtPayoff(balance, aprPct, p1, maxMonths).months.value
  {
    var rate := MonthlyRate(aprPct);
    StatusCases(balance, aprPct, p1, maxMonths);
    AmortizedOutcome(balance, aprPct, p1, maxMonths);
    AmortizedOutcome(balance, aprPct, p2, maxMonths);
    var m1 := DebtPayoff(balance, aprPct, p1, maxMonths).months.value;
    PayingMoreLowersBalance(balance, rate, p1, p2, m1);
    StopMonthSpec(balance, rate, p2, maxMonths, 0);
  }

  /** Paying more never takes longer, and never turns a payoff into "too long". */
  lemma PayingMoreNeverTakesLonger(balance: real, aprPct: real, p1: real, p2: real, maxMonths: nat)
    requires p1 <= p2
    requires DebtPayoff(balance, aprPct, p1, maxMonths).status == PaidOff
    ensures var e2 := DebtPayoff(balance, aprPct, p2, maxMonths);
      e2.status == PaidOff && e2.months.value <= DebtPayoff(balance, aprPct, p1, maxMonths).months.value
  {
    if balance <= 0.0 {
    } else if aprPct <= 0.0 {
      StatusCases(balance, aprPct, p1, maxMonths);
      CeilMonthsMono(balance, p1, p2);
    } else {
      PayingMoreAmortized(balance, aprPct, p1, p2, maxMonths);
    }
  }
}
