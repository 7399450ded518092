/**
 * `compute_metrics`: the budget totals over the category tables, and the debt
 * figures over the debt rows (weighted APR, one payoff estimate per debt with
 * a positive balance, the non-amortizing flag, the combined estimate and the
 * debt burden).
 */
module Metrics {
  import opened Wrappers
  import opened Frames
  import Text
  import opened Payoff
  import opened Budget

  /** One row of the debt table; the numeric cells are already numbers, a missing one read as 0. */
  datatype DebtRow = DebtRow(debt: string, balance: real, aprPct: real, payment: real)

  /** When a debt is paid off: unknown, now, or after this many months from today. */
  datatype PayoffDate = NoDate | Now | InMonths(months: nat)

  /** One entry of `debt_payoff_rows`. */
  datatype PayoffRow = PayoffRow(
    debt: string,
    balance: real,
    aprPct: real,
    payment: real,
    status: Status,
    reason: Option<string>,
    monthlyInterest: real,
    minPaymentToAmortize: real,
    months: Option<nat>,
    years: Option<real>,
    totalInterest: Option<real>,
    payoffDate: PayoffDate)

  /** The tables and settings `compute_metrics` reads from the session. */
  datatype MetricsInputs = MetricsInputs(
    income: Option<Frame>,
    fixed: Option<Frame>,
    essential: Option<Frame>,
    nonessential: Option<Frame>,
    saving: Option<Frame>,
    investing: Option<Frame>,
    debts: seq<DebtRow>,
    assets: Option<Frame>,
    liabilities: Option<Frame>,
    settings: Settings)

  /** The budget half of the result. */
  datatype CashMetrics = CashMetrics(
    totalIncome: real,
    netIncome: real,
    manualDeductionsTotal: real,
    estTax: real,
    fixedTotal: real,
    essentialTotal: real,
    nonessentialTotal: real,
    expensesTotal: real,
    savingTotal: real,
    investingTotal: real,
    investingCashflow: real,
    investingDisplay: real,
    totalMonthlyDebtPayments: real,
    totalOutflow: real,
    remaining: real,
    hasDebt: bool,
    totalAssets: real,
    totalLiabilities: real,
    netWorth: real,
    employeeRetirement: real,
    companyMatch: real,
    totalRetirementContrib: real,
    investingRateOfGross: Option<real>,
    investingRateOfNet: Option<real>,
    debtMinimums: real,
    emergencyMinimumMonthly: real,
    split: Option<Split>)

  /** The debt half of the result. */
  datatype DebtMetrics = DebtMetrics(
    totalDebtBalance: real,
    weightedApr: Option<real>,
    payoffRows: seq<PayoffRow>,
    hasNonAmortizing: bool,
    overallMonths: Option<nat>,
    overallInterest: Option<real>,
    overallPayoffDate: Option<nat>,
    burdenPct: Option<real>)

  datatype Metrics = Metrics(cash: CashMetrics, debt: DebtMetrics)

  // ---------------------------------------------------------------------------
  // Sums over the debt rows
  // ---------------------------------------------------------------------------

  /** `sum_df(debt_df, "Balance")`. */
  function BalanceSum(rows: seq<DebtRow>): real {
    if |rows| == 0 then 0.0 else BalanceSum(rows[..|rows| - 1]) + rows[|rows| - 1].balance
  }

  /** `sum_df(debt_df, "Monthly Payment")`. */
  function PaymentSum(rows: seq<DebtRow>): real {
    if |rows| == 0 then 0.0 else PaymentSum(rows[..|rows| - 1]) + rows[|rows| - 1].payment
  }

  /** The numerator of the weighted APR: balance times APR, summed over the rows. */
  function AprNumerator(rows: seq<DebtRow>): real {
    if |rows| == 0 then 0.0
    else AprNumerator(rows[..|rows| - 1]) + rows[|rows| - 1].balance * rows[|rows| - 1].aprPct
  }

  /** The balance-weighted APR, when the total balance is positive. */
  function WeightedApr(rows: seq<DebtRow>): Option<real> {
    if BalanceSum(rows) > 0.0 then Some(AprNumerator(rows) / BalanceSum(rows)) else None
  }

  // ---------------------------------------------------------------------------
  // Per-debt payoff rows
  // ---------------------------------------------------------------------------

  /** The label of a debt: its trimmed name, or "Debt" when that is empty. */
  function DebtName(debt: string): string {
    if Text.Strip(debt) == "" then "Debt" else Text.Strip(debt)
  }

  /** The payoff date of an estimate's month count. */
  function DateOf(months: Option<nat>): PayoffDate {
    if months.Some? && months.value > 0 then InMonths(months.value)
    else if months == Some(0) then Now
    else NoDate
  }

  /** The statuses that raise the non-amortizing flag. */
  predicate Flagged(s: Status) {
    s == NonAmortizing || s == NoPayment || s == TooLong
  }

  /** The estimate for one debt, with the default month cap. */
  function EstimateOf(r: DebtRow): Estimate {
    DebtPayoff(r.balance, r.aprPct, r.payment, DefaultMaxMonths)
  }

  /** The payoff entry of one debt row. */
  function RowOf(r: DebtRow): PayoffRow {
    var e := EstimateOf(r);
    PayoffRow(DebtName(r.debt), r.balance, r.aprPct, r.payment, e.status, e.reason,
              e.monthlyInterest, e.minPaymentToAmortize, e.months,
              if e.months.Some? then Some(e.months.value as real / 12.0) else None,
              e.totalInterest, DateOf(e.months))
  }

  /** `payoff_rows` after the loop has seen `rows`. */
  function PayoffRows(rows: seq<DebtRow>): seq<PayoffRow> {
    if |rows| == 0 then []
    else
      var last := rows[|rows| - 1];
      PayoffRows(rows[..|rows| - 1]) + (if last.balance > 0.0 then [RowOf(last)] else [])
  }

  /** `has_non_amortizing` after the loop has seen `rows`. */
  predicate AnyFlagged(rows: seq<DebtRow>) {
    if |rows| == 0 then false
    else
      var last := rows[|rows| - 1];
      AnyFlagged(rows[..|rows| - 1]) || (last.balance > 0.0 && Flagged(EstimateOf(last).status))
  }

  // ---------------------------------------------------------------------------
  // The whole result
  // ---------------------------------------------------------------------------

  /** The straight-line budget figures of `compute_metrics`. */
  function CashFiguresOf(inp: MetricsInputs): CashMetrics {
    var s := inp.settings;
    var totalIncome := SumDf(inp.income, MonthlyAmount);
    var net := NetIncome(totalIncome, s);
    var fixedTotal := SumDf(inp.fixed, MonthlyAmount);
    var essentialTotal := SumDf(inp.essential, MonthlyAmount);
    var nonessentialTotal := SumDf(inp.nonessential, MonthlyAmount);
    var expenses := fixedTotal + essentialTotal + nonessentialTotal;
    var saving := SumDf(inp.saving, MonthlyAmount);
    var investing := SumDf(inp.investing, MonthlyAmount);
    var display := InvestingDisplay(investing, s);
    var payments := PaymentSum(inp.debts);
    var outflow := expenses + (saving + investing) + payments;
    var remaining := net - outflow;
    var assets := SumDf(inp.assets, Value);
    var liabilities := SumDf(inp.liabilities, Value);
    var emergency := fixedTotal + essentialTotal + payments;
    CashMetrics(
      totalIncome, net, DeductionsTotal(s), 0.0,
      fixedTotal, essentialTotal, nonessentialTotal, expenses,
      saving, investing, investing, display,
      payments, outflow, remaining, payments > 0.0,
      assets, liabilities, assets - liabilities,
      s.retirement, s.employerMatch, s.retirement + s.employerMatch,
      PercentOf(display, totalIncome), PercentOf(display, net),
      payments, emergency,
      SplitOf(emergency, nonessentialTotal, saving + investing, net))
  }

  /** The combined estimate, attempted only when no debt is flagged and there is a balance and a payment. */
  function OverallEstimate(rows: seq<DebtRow>): Option<Estimate> {
    var wapr := WeightedApr(rows);
    if !AnyFlagged(rows) && BalanceSum(rows) > 0.0 && PaymentSum(rows) > 0.0 && wapr.Some? then
      Some(DebtPayoff(BalanceSum(rows), wapr.value, PaymentSum(rows), DefaultMaxMonths))
    else None
  }

  /** The combined estimate when it is attempted and paid off; only then are its months and interest reported. */
  function OverallPaid(rows: seq<DebtRow>): Option<Estimate> {
    var o := OverallEstimate(rows);
    if o.Some? && o.value.status == PaidOff then o else None
  }

  /** `debt_burden_pct`: payments as a percentage of net income, when both are positive. */
  function Burden(payments: real, net: real): Option<real> {
    if net > 0.0 && payments > 0.0 then Some(payments / net * 100.0) else None
  }

  /** The debt figures of `compute_metrics`, given net income. */
  function DebtFiguresOf(rows: seq<DebtRow>, net: real): DebtMetrics {
    var paid := OverallPaid(rows);
    var months := if paid.Some? then paid.value.months else None;
    DebtMetrics(
      BalanceSum(rows), WeightedApr(rows), PayoffRows(rows), AnyFlagged(rows),
      months,
      if paid.Some? then paid.value.totalInterest else None,
      months,
      Burden(PaymentSum(rows), net))
  }

  /** What `compute_metrics` returns. */
  function MetricsOf(inp: MetricsInputs): Metrics {
    var cash := CashFiguresOf(inp);
    Metrics(cash, DebtFiguresOf(inp.debts, cash.netIncome))
  }

  // ---------------------------------------------------------------------------
  // The loops
  // ---------------------------------------------------------------------------

  /** Computes `MetricsOf` with `compute_metrics`' loops over the debt rows. */
  method ComputeMetrics(inp: MetricsInputs) returns (m: Metrics)
    ensures m == MetricsOf(inp)
  {
    var cash := CashFiguresOf(inp);
    var debt := DebtFigures(inp.debts, cash.netIncome);
    m := Metrics(cash, debt);
  }

  /** The debt half of `compute_metrics`: weighted APR, payoff rows, flag, overall estimate, burden. */
  method DebtFigures(debts: seq<DebtRow>, net: real) returns (d: DebtMetrics)
    ensures d == DebtFiguresOf(debts, net)
  {
    var payments := PaymentSum(debts);
    var totalBalance := BalanceSum(debts);

    var wapr: Option<real> := None;
    if totalBalance > 0.0 {
      var num := AprNumeratorLoop(debts);
      wapr := Some(num / totalBalance);
    }
    assert wapr == WeightedApr(debts);

    var rows, flag := PayoffLoop(debts);

    var overallMonths: Option<nat> := None;
    var overallInterest: Option<real> := None;
    var overallDate: Option<nat> := None;
    if !flag && totalBalance > 0.0 && payments > 0.0 && wapr.Some? {
      var est := EstimateDebtPayoff(totalBalance, wapr.value, payments, DefaultMaxMonths);
      assert OverallEstimate(debts) == Some(est);
      if est.status == PaidOff {
        overallMonths := est.months;
        overallInterest := est.totalInterest;
        if overallMonths.Some? {
          overallDate := Some(overallMonths.value);
        }
      }
    } else {
      assert OverallEstimate(debts) == None;
    }

    var burden: Option<real> := None;
    if net > 0.0 && payments > 0.0 {
      burden := Some(payments / net * 100.0);
    }
    d := DebtMetrics(totalBalance, wapr, rows, flag, overallMonths, overallInterest, overallDate, burden);
  }

  /** The loop accumulating `num` for the weighted APR. */
  method AprNumeratorLoop(debts: seq<DebtRow>) returns (num: real)
    ensures num == AprNumerator(debts)
  {
    num := 0.0;
    for i := 0 to |debts|
      invariant num == AprNumerator(debts[..i])
    {
      assert debts[..i + 1][..i] == debts[..i];
      num := num + debts[i].balance * debts[i].aprPct;
    }
    assert debts[..|debts|] == debts;
  }

  /** The loop building `payoff_rows` and `has_non_amortizing`. */
  method PayoffLoop(debts: seq<DebtRow>) returns (rows: seq<PayoffRow>, flag: bool)
    ensures rows == PayoffRows(debts)
    ensures flag == AnyFlagged(debts)
  {
    rows := [];
    flag := false;
    for i := 0 to |debts|
      invariant rows == PayoffRows(debts[..i])
      invariant flag == AnyFlagged(debts[..i])
    {
      PayoffRowsStep(debts, i);
      var r := debts[i];
      var name := DebtName(r.debt);
      var est := EstimateDebtPayoff(r.balance, r.aprPct, r.payment, DefaultMaxMonths);
      if r.balance > 0.0 {
        if Flagged(est.status) {
          flag := true;
        }
        var date := NoDate;
        if est.months.Some? && est.months.value > 0 {
          date := InMonths(est.months.value);
        } else if est.months == Some(0) {
          date := Now;
        }
        var years := if est.months.Some? then Some(est.months.value as real / 12.0) else None;
        var row := PayoffRow(name, r.balance, r.aprPct, r.payment, est.status, est.reason,
                             est.monthlyInterest, est.minPaymentToAmortize, est.months, years,
                             est.totalInterest, date);
        assert date == DateOf(est.months);
        RowOfEstimate(r, est);
        rows := rows + [row];
      }
    }
    assert debts[..|debts|] == debts;
  }

  /** The payoff entry of a debt row, in terms of its estimate. */
  lemma RowOfEstimate(r: DebtRow, est: Estimate)
    requires est == EstimateOf(r)
    ensures RowOf(r)
      == PayoffRow(DebtName(r.debt), r.balance, r.aprPct, r.payment, est.status, est.reason,
                   est.monthlyInterest, est.minPaymentToAmortize, est.months,
                   if est.months.Some? then Some(est.months.value as real / 12.0) else None,
                   est.totalInterest, DateOf(est.months))
  {
  }

  /** One pass of the loop over the debt rows. */
  lemma PayoffRowsStep(debts: seq<DebtRow>, i: nat)
    requires i < |debts|
    ensures var r := debts[i];
      && PayoffRows(debts[..i + 1]) == PayoffRows(debts[..i]) + (if r.balance > 0.0 then [RowOf(r)] else [])
      && AnyFlagged(debts[..i + 1]) == (AnyFlagged(debts[..i]) || (r.balance > 0.0 && Flagged(EstimateOf(r).status)))
  {
    assert debts[..i + 1][..i] == debts[..i];
  }

  // ---------------------------------------------------------------------------
  // Properties of the payoff rows and the flag
  // ---------------------------------------------------------------------------

  /** The rows are built debt by debt: the rows of two tables in sequence are the rows of each, in order. */
  lemma {:induction false} PayoffRowsAppend(a: seq<DebtRow>, b: seq<DebtRow>)
    ensures PayoffRows(a + b) == PayoffRows(a) + PayoffRows(b)
    ensures AnyFlagged(a + b) == (AnyFlagged(a) || AnyFlagged(b))
    decreases |b|
  {
    if |b| == 0 {
      assert a + b == a;
    } else {
      var b' := b[..|b| - 1];
      assert (a + b)[..|a + b| - 1] == a + b';
      PayoffRowsAppend(a, b');
    }
  }

  /** The rows of a table are those of all but its last debt row, then the last one's entry if it is listed. */
  lemma PayoffRowsSnoc(rows: seq<DebtRow>)
    requires |rows| > 0
    ensures var n := |rows| - 1;
      PayoffRows(rows) == PayoffRows(rows[..n]) + (if rows[n].balance > 0.0 then [RowOf(rows[n])] else [])
  {
  }

  /** Every listed entry comes from a debt row with a positive balance. */
  lemma {:induction false} ListedFromRow(rows: seq<DebtRow>, p: PayoffRow)
    requires p in PayoffRows(rows)
    ensures exists i :: 0 <= i < |rows| && rows[i].balance > 0.0 && p == RowOf(rows[i])
  {
    var n := |rows| - 1;
    var init := rows[..n];
    PayoffRowsSnoc(rows);
    if p in PayoffRows(init) {
      ListedFromRow(init, p);
      var i :| 0 <= i < |init| && init[i].balance > 0.0 && p == RowOf(init[i]);
      assert rows[i] == init[i];
    } else {
      assert rows[n].balance > 0.0 && p == RowOf(rows[n]);
    }
  }

  /** Every debt row with a positive balance has its entry listed. */
  lemma {:induction false} RowListed(rows: seq<DebtRow>, i: nat)
    requires i < |rows| && rows[i].balance > 0.0
    ensures RowOf(rows[i]) in PayoffRows(rows)
  {
    var n := |rows| - 1;
    var init := rows[..n];
    var x := RowOf(rows[i]);
    var pre := PayoffRows(init);
    var extra := if rows[n].balance > 0.0 then [RowOf(rows[n])] else [];
    PayoffRowsSnoc(rows);
    assert PayoffRows(rows) == pre + extra;
    if i < n {
      assert init[i] == rows[i];
      RowListed(init, i);
      assert x in pre;
    } else {
      assert extra == [x];
    }
  }

  /** A payoff row is exactly the entry of a debt row with a positive balance. */
  lemma PayoffRowsMembers(rows: seq<DebtRow>, p: PayoffRow)
    ensures p in PayoffRows(rows) <==> exists i :: 0 <= i < |rows| && rows[i].balance > 0.0 && p == RowOf(rows[i])
  {
    if p in PayoffRows(rows) {
      ListedFromRow(rows, p);
    }
    if exists i :: 0 <= i < |rows| && rows[i].balance > 0.0 && p == RowOf(rows[i]) {
      var i :| 0 <= i < |rows| && rows[i].balance > 0.0 && p == RowOf(rows[i]);
      RowListed(rows, i);
    }
  }

  /** The indices of the debt rows with a positive balance. */
  function PositiveIndices(rows: seq<DebtRow>): set<nat> {
    set i: nat | i < |rows| && rows[i].balance > 0.0
  }

  /** Appending a debt row adds its index exactly when its balance is positive. */
  lemma PositiveIndicesStep(rows: seq<DebtRow>)
    requires |rows| > 0
    ensures var n := |rows| - 1;
      |PositiveIndices(rows)| == |PositiveIndices(rows[..n])| + (if rows[n].balance > 0.0 then 1 else 0)
  {
    var n := |rows| - 1;
    var before := PositiveIndices(rows[..n]);
    var after := PositiveIndices(rows);
    assert n !in before;
    forall i: nat
      ensures i in after <==> i in before || (i == n && rows[n].balance > 0.0)
    {
      if i < n {
        assert rows[..n][i] == rows[i];
      }
    }
    if rows[n].balance > 0.0 {
      assert after == before + {n};
    } else {
      assert after == before;
    }
  }

  /** There is one payoff row per debt row with a positive balance, and none for the others. */
  lemma {:induction false} PayoffRowsCount(rows: seq<DebtRow>)
    ensures |PayoffRows(rows)| == |PositiveIndices(rows)|
  {
    if |rows| > 0 {
      PayoffRowsCount(rows[..|rows| - 1]);
      PositiveIndicesStep(rows);
    }
  }


  /** A raised flag means some listed entry is not paid off. */
  lemma {:induction false} FlagShowsUnpaid(rows: seq<DebtRow>)
    requires AnyFlagged(rows)
    ensures exists i :: 0 <= i < |PayoffRows(rows)| && PayoffRows(rows)[i].status != PaidOff
  {
    var n := |rows| - 1;
    var init := rows[..n];
    var last := rows[n];
    PayoffRowsSnoc(rows);
    var pre := PayoffRows(init);
    var all := PayoffRows(rows);
    if AnyFlagged(init) {
      FlagShowsUnpaid(init);
      var i :| 0 <= i < |pre| && pre[i].status != PaidOff;
      assert all[i] == pre[i];
    } else {
      assert last.balance > 0.0 && Flagged(EstimateOf(last).status);
      assert all[|pre|] == RowOf(last);
    }
  }

  /** A listed entry that is not paid off raises the flag. */
  lemma {:induction false} UnpaidRaisesFlag(rows: seq<DebtRow>, i: nat)
    requires i < |PayoffRows(rows)| && PayoffRows(rows)[i].status != PaidOff
    ensures AnyFlagged(rows)
  {
    var n := |rows| - 1;
    var init := rows[..n];
    var last := rows[n];
    PayoffRowsSnoc(rows);
    var pre := PayoffRows(init);
    var all := PayoffRows(rows);
    if i < |pre| {
      assert pre[i] == all[i];
      UnpaidRaisesFlag(init, i);
    } else {
      assert last.balance > 0.0 && all[i] == RowOf(last);
    }
  }

  /** The flag is raised exactly when some listed debt has a status other than paid off. */
  lemma FlagIff(rows: seq<DebtRow>)
    ensures AnyFlagged(rows) <==> exists i :: 0 <= i < |PayoffRows(rows)| && PayoffRows(rows)[i].status != PaidOff
  {
    if AnyFlagged(rows) {
      FlagShowsUnpaid(rows);
    }
    if exists i :: 0 <= i < |PayoffRows(rows)| && PayoffRows(rows)[i].status != PaidOff {
      var i :| 0 <= i < |PayoffRows(rows)| && PayoffRows(rows)[i].status != PaidOff;
      UnpaidRaisesFlag(rows, i);
    }
  }

  /** Every listed debt has a positive balance, its estimate's status, and a date exactly when it is paid off; none is dated "Now". */
  lemma PayoffRowFacts(r: DebtRow)
    requires r.balance > 0.0
    ensures var p := RowOf(r);
      && p.balance > 0.0
      && p.status == EstimateOf(r).status
      && p.payoffDate != Now
      && (p.payoffDate.InMonths? <==> p.status == PaidOff)
      && (p.payoffDate.InMonths? ==>
            p.months == Some(p.payoffDate.months) && p.years.Some?
            && p.years.value * 12.0 == p.payoffDate.months as real)
  {
    PositiveBalanceMonths(r.balance, r.aprPct, r.payment, DefaultMaxMonths);
  }

  /** `PayoffRowFacts` for every entry of the list, with the index `i` of the row it comes from. */
  lemma PayoffRowsFacts(rows: seq<DebtRow>, p: PayoffRow) returns (i: nat)
    requires p in PayoffRows(rows)
    ensures i < |rows| && rows[i].balance > 0.0 && p == RowOf(rows[i]) && p.status == EstimateOf(rows[i]).status
    ensures p.balance > 0.0 && p.payoffDate != Now
    ensures p.payoffDate.InMonths? <==> p.status == PaidOff
    ensures p.payoffDate.InMonths? ==>
      p.months == Some(p.payoffDate.months) && p.years.Some?
      && p.years.value * 12.0 == p.payoffDate.months as real
  {
    ListedFromRow(rows, p);
    i :| 0 <= i < |rows| && rows[i].balance > 0.0 && p == RowOf(rows[i]);
    PayoffRowFacts(rows[i]);
  }

  /** A positive balance never has a month count of 0: a reported payoff takes at least one month. */
  lemma PositiveBalanceMonths(balance: real, aprPct: real, payment: real, maxMonths: nat)
    requires balance > 0.0
    ensures var e := DebtPayoff(balance, aprPct, payment, maxMonths);
      e.months.Some? ==> e.status == PaidOff && e.months.value >= 1
  {
    StatusCases(balance, aprPct, payment, maxMonths);
    if aprPct > 0.0 && payment > balance * MonthlyRate(aprPct) {
      AmortizedOutcome(balance, aprPct, payment, maxMonths);
    }
  }

  // ---------------------------------------------------------------------------
  // Properties of the weighted APR and the combined estimate
  // ---------------------------------------------------------------------------

  /** Multiplication distributes over a sum. */
  lemma Distrib(a: real, s: real, x: real, y: real)
    requires s == x + y
    ensures a * s == a * x + a * y
  {
  }

  /** Adding two inequalities. */
  lemma AddLe(a: real, a1: real, a2: real, b: real, b1: real, b2: real)
    requires a == a1 + a2 && b == b1 + b2 && a1 <= b1 && a2 <= b2
    ensures a <= b
  {
  }

  /** The numerator is at most `hi` times the total balance when no APR exceeds `hi` and no balance is negative. */
  lemma {:induction false} AprNumeratorUpper(rows: seq<DebtRow>, hi: real)
    requires forall i :: 0 <= i < |rows| ==> rows[i].balance >= 0.0 && rows[i].aprPct <= hi
    ensures AprNumerator(rows) <= hi * BalanceSum(rows)
  {
    if |rows| == 0 {
      Distrib(hi, BalanceSum(rows), 0.0, 0.0);
    } else {
      var init := rows[..|rows| - 1];
      var last := rows[|rows| - 1];
      AprNumeratorUpper(init, hi);
      MulLeft(last.aprPct, hi, last.balance);
      assert last.aprPct * last.balance == last.balance * last.aprPct;
      Distrib(hi, BalanceSum(rows), BalanceSum(init), last.balance);
      assert AprNumerator(init) <= hi * BalanceSum(init);
      assert AprNumerator(rows) == AprNumerator(init) + last.balance * last.aprPct;
      assert hi * BalanceSum(rows) == hi * BalanceSum(init) + hi * last.balance;
      assert last.balance * last.aprPct <= hi * last.balance;
      AddLe(AprNumerator(rows), AprNumerator(init), last.balance * last.aprPct,
            hi * BalanceSum(rows), hi * BalanceSum(init), hi * last.balance);
    }
  }

  /** The numerator is at least `lo` times the total balance when no APR is below `lo` and no balance is negative. */
  lemma {:induction false} AprNumeratorLower(rows: seq<DebtRow>, lo: real)
    requires forall i :: 0 <= i < |rows| ==> rows[i].balance >= 0.0 && lo <= rows[i].aprPct
    ensures lo * BalanceSum(rows) <= AprNumerator(rows)
  {
    if |rows| == 0 {
      Distrib(lo, BalanceSum(rows), 0.0, 0.0);
    } else {
      var init := rows[..|rows| - 1];
      var last := rows[|rows| - 1];
      AprNumeratorLower(init, lo);
      MulLeft(lo, last.aprPct, last.balance);
      assert last.aprPct * last.balance == last.balance * last.aprPct;
      Distrib(lo, BalanceSum(rows), BalanceSum(init), last.balance);
      assert lo * BalanceSum(init) <= AprNumerator(init);
      assert AprNumerator(rows) == AprNumerator(init) + last.balance * last.aprPct;
      assert lo * BalanceSum(rows) == lo * BalanceSum(init) + lo * last.balance;
      assert lo * last.balance <= last.balance * last.aprPct;
      AddLe(lo * BalanceSum(rows), lo * BalanceSum(init), lo * last.balance,
            AprNumerator(rows), AprNumerator(init), last.balance * last.aprPct);
    }
  }

  /** A quotient by a positive divisor lies between the bounds its dividend has in multiples of the divisor. */
  lemma QuotientBounds(n: real, t: real, lo: real, hi: real)
    requires t > 0.0 && lo * t <= n <= hi * t
    ensures lo <= n / t <= hi
  {
    var q := n / t;
    DivMul(n, t);
    assert t * q == q * t;
    if q < lo {
      MulLeftStrict(q, lo, t);
    }
    if q > hi {
      MulLeftStrict(hi, q, t);
    }
  }

  /** The weighted APR lies between the smallest and the largest APR, when no balance is negative. */
  lemma WeightedAprBounds(rows: seq<DebtRow>, lo: real, hi: real)
    requires forall i :: 0 <= i < |rows| ==> rows[i].balance >= 0.0 && lo <= rows[i].aprPct <= hi
    ensures WeightedApr(rows).Some? <==> BalanceSum(rows) > 0.0
    ensures WeightedApr(rows).Some? ==> lo <= WeightedApr(rows).value <= hi
  {
    if BalanceSum(rows) > 0.0 {
      AprNumeratorLower(rows, lo);
      AprNumeratorUpper(rows, hi);
      QuotientBounds(AprNumerator(rows), BalanceSum(rows), lo, hi);
    }
  }

  /** Conversely, such a payment makes the estimate paid off or too long. */
  lemma PaysUnflagged(balance: real, aprPct: real, payment: real)
    requires balance > 0.0 && payment > 0.0 && (aprPct > 0.0 ==> payment > balance * MonthlyRate(aprPct))
    ensures var s := DebtPayoff(balance, aprPct, payment, DefaultMaxMonths).status;
      s == PaidOff || s == TooLong
  {
    StatusCases(balance, aprPct, payment, DefaultMaxMonths);
  }

  /** Paying more than the monthly interest, in terms of the APR numerator. */
  lemma CoverArith(balance: real, aprPct: real, payment: real)
    requires balance > 0.0
    ensures payment > 0.0 && (aprPct > 0.0 ==> payment > balance * MonthlyRate(aprPct))
      <==> payment * 1200.0 > balance * aprPct && payment > 0.0
  {
    if aprPct > 0.0 {
      var rate := MonthlyRate(aprPct);
      assert balance * aprPct == (balance * rate) * 1200.0;
    } else {
      MulLeft(aprPct, 0.0, balance);
    }
  }

  /**
   * A debt row with no negative amount whose payment, when its balance is
   * positive, is positive and above its opening monthly interest.
   */
  predicate RowPays(r: DebtRow) {
    && r.balance >= 0.0 && r.payment >= 0.0
    && (r.balance > 0.0 ==> r.payment > 0.0 && (r.aprPct > 0.0 ==> r.payment > r.balance * MonthlyRate(r.aprPct)))
  }

  /** A debt row that raises no flag pays as above. */
  lemma UnflaggedPays(r: DebtRow)
    requires r.balance >= 0.0 && r.payment >= 0.0
    requires !(r.balance > 0.0 && Flagged(EstimateOf(r).status))
    ensures RowPays(r)
  {
    if r.balance > 0.0 {
      PaymentBeatsInterest(r.balance, r.aprPct, r.payment, DefaultMaxMonths);
    }
  }

  /** With the flag down, every listed debt's estimate is paid off or too long, hence pays as above. */
  lemma {:induction false} UnflaggedRowsPay(rows: seq<DebtRow>)
    requires forall i :: 0 <= i < |rows| ==> rows[i].balance >= 0.0 && rows[i].payment >= 0.0
    requires !AnyFlagged(rows)
    ensures forall i :: 0 <= i < |rows| ==> RowPays(rows[i])
  {
    if |rows| > 0 {
      var init := rows[..|rows| - 1];
      var last := rows[|rows| - 1];
      assert forall i :: 0 <= i < |init| ==> init[i] == rows[i];
      UnflaggedRowsPay(init);
      UnflaggedPays(last);
      forall i | 0 <= i < |rows|
        ensures RowPays(rows[i])
      {
        if i < |init| {
          assert RowPays(init[i]);
        }
      }
    }
  }

  /**
   * A debt row that pays as above covers its APR numerator share (times
   * 1200), strictly when its balance is positive.
   */
  lemma RowCoversInterest(r: DebtRow)
    requires RowPays(r)
    ensures r.payment * 1200.0 >= r.balance * r.aprPct
    ensures r.balance > 0.0 ==> r.payment * 1200.0 > r.balance * r.aprPct
  {
    if r.balance > 0.0 {
      CoverArith(r.balance, r.aprPct, r.payment);
      assert r.payment * 1200.0 > r.balance * r.aprPct;
    } else {
      assert r.balance * r.aprPct == 0.0;
    }
  }

  /**
   * When every debt row pays as above, the payments (times 1200) cover the
   * balance-weighted APR numerator, strictly once some balance is positive,
   * and then the payments are positive.
   */
  lemma {:induction false} PaymentsCoverInterest(rows: seq<DebtRow>)
    requires forall i :: 0 <= i < |rows| ==> RowPays(rows[i])
    ensures PaymentSum(rows) * 1200.0 >= AprNumerator(rows)
    ensures BalanceSum(rows) > 0.0 ==> PaymentSum(rows) * 1200.0 > AprNumerator(rows)
    ensures BalanceSum(rows) >= 0.0 && PaymentSum(rows) >= 0.0
    ensures BalanceSum(rows) > 0.0 ==> PaymentSum(rows) > 0.0
  {
    if |rows| > 0 {
      var init := rows[..|rows| - 1];
      var last := rows[|rows| - 1];
      assert forall i :: 0 <= i < |init| ==> init[i] == rows[i];
      PaymentsCoverInterest(init);
      RowCoversInterest(last);
      assert AprNumerator(rows) == AprNumerator(init) + last.balance * last.aprPct;
      assert PaymentSum(rows) == PaymentSum(init) + last.payment;
      assert BalanceSum(rows) == BalanceSum(init) + last.balance;
      assert PaymentSum(rows) * 1200.0 == PaymentSum(init) * 1200.0 + last.payment * 1200.0;
    }
  }

  /** Multiplying a quotient back by its positive divisor. */
  lemma DivMul(x: real, d: real)
    requires d > 0.0
    ensures d * (x / d) == x
  {
  }

  /**
   * A combined payment above the combined interest, stated on the APR
   * numerator, pays off or runs too long at the weighted APR.
   */
  lemma CombinedAmortizes(total: real, num: real, pay: real)
    requires total > 0.0 && pay > 0.0 && pay * 1200.0 > num
    ensures var e := DebtPayoff(total, num / total, pay, DefaultMaxMonths);
      e.status == PaidOff || e.status == TooLong
  {
    DivMul(num, total);
    CoverArith(total, num / total, pay);
    PaysUnflagged(total, num / total, pay);
  }

  /** With the flag down and a positive total balance, the total payment is positive and covers the combined interest. */
  lemma CombinedCovers(rows: seq<DebtRow>)
    requires forall i :: 0 <= i < |rows| ==> rows[i].balance >= 0.0 && rows[i].payment >= 0.0
    requires !AnyFlagged(rows) && BalanceSum(rows) > 0.0
    ensures PaymentSum(rows) > 0.0 && PaymentSum(rows) * 1200.0 > AprNumerator(rows)
  {
    UnflaggedRowsPay(rows);
    PaymentsCoverInterest(rows);
  }

  /** The combined estimate is attempted once the flag is down and the totals are positive. */
  lemma OverallAttempted(rows: seq<DebtRow>)
    requires !AnyFlagged(rows) && BalanceSum(rows) > 0.0 && PaymentSum(rows) > 0.0
    ensures OverallEstimate(rows)
      == Some(DebtPayoff(BalanceSum(rows), AprNumerator(rows) / BalanceSum(rows), PaymentSum(rows), DefaultMaxMonths))
  {
  }

  /**
   * If every debt amortizes, so do all debts combined: with no flagged debt,
   * no negative balance or payment and a positive total balance, the combined
   * estimate is attempted and is either paid off or too long, never "no
   * payment" or "non-amortizing".
   */
  lemma OverallAmortizes(rows: seq<DebtRow>)
    requires forall i :: 0 <= i < |rows| ==> rows[i].balance >= 0.0 && rows[i].payment >= 0.0
    requires !AnyFlagged(rows) && BalanceSum(rows) > 0.0
    ensures OverallEstimate(rows).Some?
    ensures OverallEstimate(rows).value.status == PaidOff || OverallEstimate(rows).value.status == TooLong
  {
    CombinedCovers(rows);
    CombinedAmortizes(BalanceSum(rows), AprNumerator(rows), PaymentSum(rows));
    OverallAttempted(rows);
  }

  /**
   * The combined months are reported exactly when no debt is flagged, the
   * total balance and payments are positive, and the combined estimate is
   * paid off; the combined date is reported exactly with them.
   */
  lemma OverallIff(rows: seq<DebtRow>, net: real)
    ensures var d := DebtFiguresOf(rows, net);
      && (d.overallMonths.Some? <==>
            !AnyFlagged(rows) && BalanceSum(rows) > 0.0 && PaymentSum(rows) > 0.0
            && DebtPayoff(BalanceSum(rows), WeightedApr(rows).value, PaymentSum(rows), DefaultMaxMonths).status == PaidOff)
      && (d.overallInterest.Some? <==> d.overallMonths.Some?)
      && d.overallPayoffDate == d.overallMonths
      && (d.overallMonths.Some? ==> d.overallMonths.value >= 1)
  {
    var o := OverallEstimate(rows);
    assert DebtFiguresOf(rows, net).overallMonths == (if OverallPaid(rows).Some? then OverallPaid(rows).value.months else None);
    if o.Some? {
      StatusCases(BalanceSum(rows), WeightedApr(rows).value, PaymentSum(rows), DefaultMaxMonths);
      PositiveBalanceMonths(BalanceSum(rows), WeightedApr(rows).value, PaymentSum(rows), DefaultMaxMonths);
    }
  }

  /** The debt burden exists exactly when net income and payments are positive, and is then payments as a share of net income. */
  lemma BurdenSpec(payments: real, net: real)
    ensures Burden(payments, net).Some? <==> net > 0.0 && payments > 0.0
    ensures Burden(payments, net).Some? ==> ShareOf(Burden(payments, net).value, payments, net)
  {
    if net > 0.0 {
      MulDiv(payments, net);
    }
  }

  // ---------------------------------------------------------------------------
  // Properties of the budget figures
  // ---------------------------------------------------------------------------

  /**
   * The emergency minimum is fixed plus essential spending plus debt
   * payments; needs, wants and saving together are the whole outflow, so the
   * split's unallocated share is the leftover's share of net income.
   */
  lemma CashSplitCoversOutflow(inp: MetricsInputs)
    ensures var c := CashFiguresOf(inp);
      && c.emergencyMinimumMonthly == c.fixedTotal + c.essentialTotal + c.totalMonthlyDebtPayments
      && c.emergencyMinimumMonthly + c.nonessentialTotal + (c.savingTotal + c.investingCashflow) == c.totalOutflow
      && c.remaining == c.netIncome - c.totalOutflow
      && (c.split.None? <==> c.netIncome <= 0.0)
      && (c.netIncome > 0.0 ==>
            c.split.value.unallocatedPct >= 0.0
            && ShareOf(c.split.value.unallocatedPct, Max0(c.remaining), c.netIncome))
  {
    var c := CashFiguresOf(inp);
    SplitSpec(c.emergencyMinimumMonthly, c.nonessentialTotal, c.savingTotal + c.investingCashflow, c.netIncome);
  }

  /** Net income follows the toggle; the employer match reaches the investing display and the retirement total only. */
  lemma CashNetIncome(inp: MetricsInputs, newMatch: real)
    ensures var c := CashFiguresOf(inp);
      c.netIncome == (if inp.settings.useBreakdown then c.totalIncome - c.manualDeductionsTotal else c.totalIncome)
    ensures var c := CashFiguresOf(inp);
      var u := CashFiguresOf(inp.(settings := inp.settings.(employerMatch := newMatch)));
      && u.netIncome == c.netIncome
      && u.remaining == c.remaining
      && u.split == c.split
      && u.investingDisplay == c.investingDisplay + (newMatch - inp.settings.employerMatch)
      && u.totalRetirementContrib == c.totalRetirementContrib + (newMatch - inp.settings.employerMatch)
  {
    var c := CashFiguresOf(inp);
    EmployerMatchOnlyInvests(c.totalIncome, c.investingTotal, inp.settings, newMatch);
  }
}
