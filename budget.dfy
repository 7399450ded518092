/**
 * The monthly budget figures shared by the dashboard and `compute_metrics`
 * (net income, investing totals, the needs/wants/save split), and the
 * dashboard's own calculation block, which derives essential spending from
 * the single variable-expense table by keyword matching.
 */
module Budget {
  import opened Wrappers
  import opened Frames
  import Keywords

  /** The paycheck settings read from the session, each already defaulted to 0. */
  datatype Settings = Settings(
    taxes: real,
    retirement: real,
    benefits: real,
    otherSsi: real,
    employerMatch: real,
    useBreakdown: bool)

  /** `manual_deductions_total`: everything withheld from the paycheck; the employer match is not part of it. */
  function DeductionsTotal(s: Settings): real {
    s.taxes + s.retirement + s.benefits + s.otherSsi
  }

  /** `net_income`: the income total, less the deductions when the breakdown toggle is on. */
  function NetIncome(totalIncome: real, s: Settings): real {
    if s.useBreakdown then totalIncome - DeductionsTotal(s) else totalIncome
  }

  /** `investing_display`: take-home investing plus payroll retirement plus the employer match. */
  function InvestingDisplay(investingTotal: real, s: Settings): real {
    investingTotal + s.retirement + s.employerMatch
  }

  /** `pct` is `amount` as a percentage of `net`. */
  predicate ShareOf(pct: real, amount: real, net: real) {
    pct * net == amount * 100.0
  }

  /** `(part / whole) * 100 if whole > 0 else None`. */
  function PercentOf(part: real, whole: real): (r: Option<real>)
    ensures r.Some? <==> whole > 0.0
    ensures r.Some? ==> ShareOf(r.value, part, whole)
  {
    if whole > 0.0 then Some(part / whole * 100.0) else None
  }

  /** The four split percentages, which are either all present or all absent. */
  datatype Split = Split(needsPct: real, wantsPct: real, saveInvestPct: real, unallocatedPct: real)

  /** The needs/wants/save split as percentages of net income. */
  function SplitOf(needs: real, wants: real, save: real, net: real): Option<Split> {
    if net > 0.0 then
      var n := needs / net * 100.0;
      var w := wants / net * 100.0;
      var v := save / net * 100.0;
      var rest := 100.0 - (n + w + v);
      Some(Split(n, w, v, if rest > 0.0 then rest else 0.0))
    else None
  }

  function Max0(x: real): (r: real)
    ensures r >= 0.0 && r >= x && (r == x || r == 0.0)
  {
    if x > 0.0 then x else 0.0
  }

  // ---------------------------------------------------------------------------
  // Properties of the shared figures
  // ---------------------------------------------------------------------------

  /** With the toggle on, income splits into net income and deductions; with it off nothing is deducted. */
  lemma NetIncomeCases(totalIncome: real, s: Settings)
    ensures s.useBreakdown ==> NetIncome(totalIncome, s) + DeductionsTotal(s) == totalIncome
    ensures !s.useBreakdown ==> NetIncome(totalIncome, s) == totalIncome
  {
  }

  /** The employer match never changes net income, and counts one for one in the investing display. */
  lemma EmployerMatchOnlyInvests(totalIncome: real, investingTotal: real, s: Settings, newMatch: real)
    ensures NetIncome(totalIncome, s.(employerMatch := newMatch)) == NetIncome(totalIncome, s)
    ensures InvestingDisplay(investingTotal, s.(employerMatch := newMatch))
            == InvestingDisplay(investingTotal, s) + (newMatch - s.employerMatch)
  {
  }

  lemma MulDiv(x: real, net: real)
    requires net > 0.0
    ensures x / net * 100.0 * net == x * 100.0
  {
  }

  /**
   * The split exists exactly when net income is positive; then each
   * percentage is its amount's share of net income, the unallocated share is
   * what is left of net income (never negative), and the four shares add up
   * to at least 100, exactly 100 when the three amounts fit within net income.
   */
  lemma SplitSpec(needs: real, wants: real, save: real, net: real)
    ensures SplitOf(needs, wants, save, net).Some? <==> net > 0.0
    ensures net > 0.0 ==>
      var sp := SplitOf(needs, wants, save, net).value;
      && ShareOf(sp.needsPct, needs, net)
      && ShareOf(sp.wantsPct, wants, net)
      && ShareOf(sp.saveInvestPct, save, net)
      && sp.unallocatedPct >= 0.0
      && ShareOf(sp.unallocatedPct, Max0(net - (needs + wants + save)), net)
      && sp.needsPct + sp.wantsPct + sp.saveInvestPct + sp.unallocatedPct >= 100.0
      && (needs + wants + save <= net ==>
            sp.needsPct + sp.wantsPct + sp.saveInvestPct + sp.unallocatedPct == 100.0)
  {
    if net > 0.0 {
      var sp := SplitOf(needs, wants, save, net).value;
      MulDiv(needs, net);
      MulDiv(wants, net);
      MulDiv(save, net);
      var sum := sp.needsPct + sp.wantsPct + sp.saveInvestPct;
      assert (100.0 - sum) * net == (net - (needs + wants + save)) * 100.0;
      SignOfProduct(100.0 - sum, net);
    }
  }

  lemma SignOfProduct(a: real, net: real)
    requires net > 0.0
    ensures a * net >= 0.0 <==> a >= 0.0
    ensures a * net > 0.0 <==> a > 0.0
  {
    if a > 0.0 {
      assert a * net > 0.0;
    } else if a < 0.0 {
      assert (-a) * net > 0.0;
    }
  }

  // ---------------------------------------------------------------------------
  // The dashboard's calculation block
  // ---------------------------------------------------------------------------

  /** The tables and settings the dashboard reads from the session. */
  datatype DashboardInputs = DashboardInputs(
    income: Option<Frame>,
    fixed: Option<Frame>,
    variable: Option<Frame>,
    saving: Option<Frame>,
    investing: Option<Frame>,
    debt: Option<Frame>,
    assets: Option<Frame>,
    liabilities: Option<Frame>,
    settings: Settings)

  /** Every figure the calculation block produces. */
  datatype DashboardTotals = DashboardTotals(
    totalIncome: real,
    manualDeductionsTotal: real,
    netIncome: real,
    estTax: real,
    fixedTotal: real,
    variableTotal: real,
    expensesTotal: real,
    savingTotal: real,
    investingTotal: real,
    investingCashflow: real,
    investingDisplay: real,
    totalMonthlyDebtPayments: real,
    totalSavingAndInvestingCashflow: real,
    totalOutflow: real,
    remaining: real,
    hasDebt: bool,
    totalAssets: real,
    totalLiabilities: real,
    netWorth: real,
    employeeRetirement: real,
    companyMatch: real,
    totalRetirementContrib: real,
    investingRateOfGross: Option<real>,
    investingRateOfNet: Option<real>,
    essentialVariable: real,
    debtMinimums: real,
    emergencyMinimumMonthly: real,
    needsTotal: real,
    wantsTotal: real,
    saveInvestTotal: real,
    unallocatedTotal: real,
    split: Option<Split>)

  /** Variable expenses whose name contains one of these count as essential. */
  const EssentialVariableKeywords: seq<string> := [
    "grocery", "groceries",
    "electric", "electricity", "natural gas", "water", "sewer", "trash", "garbage",
    "utility", "utilities",
    "internet", "wifi", "phone", "cell",
    "insurance", "medical", "health", "prescription", "rx", "medicine"]

  const MonthlyAmount := "Monthly Amount"
  const MonthlyPayment := "Monthly Payment"
  const Value := "Value"
  const Expense := "Expense"

  /** Essential variable spending: the keyword total over the variable table. */
  function EssentialVariable(variable: Option<Frame>): real
    requires variable.Some? ==> WellFormed(variable.value)
  {
    Keywords.KeywordTotal(variable, Expense, MonthlyAmount, EssentialVariableKeywords)
  }

  /** The column sums the calculation block starts from. */
  datatype TableTotals = TableTotals(
    income: real, fixed: real, variable: real, saving: real, investing: real,
    payments: real, assets: real, liabilities: real)

  function TableTotalsOf(inp: DashboardInputs): TableTotals {
    TableTotals(
      SumDf(inp.income, MonthlyAmount), SumDf(inp.fixed, MonthlyAmount), SumDf(inp.variable, MonthlyAmount),
      SumDf(inp.saving, MonthlyAmount), SumDf(inp.investing, MonthlyAmount), SumDf(inp.debt, MonthlyPayment),
      SumDf(inp.assets, Value), SumDf(inp.liabilities, Value))
  }

  /** The straight-line arithmetic of the block, from the column sums, essential spending and settings. */
  function Figures(tt: TableTotals, essential: real, s: Settings): DashboardTotals {
    var net := NetIncome(tt.income, s);
    var expenses := tt.fixed + tt.variable;
    var display := InvestingDisplay(tt.investing, s);
    var saveInvest := tt.saving + tt.investing;
    var outflow := expenses + saveInvest + tt.payments;
    var remaining := net - outflow;
    var emergency := tt.fixed + essential + tt.payments;
    var wants := Max0(tt.variable - essential);
    DashboardTotals(
      tt.income, DeductionsTotal(s), net, 0.0,
      tt.fixed, tt.variable, expenses,
      tt.saving, tt.investing, tt.investing, display,
      tt.payments, saveInvest, outflow, remaining, tt.payments > 0.0,
      tt.assets, tt.liabilities, tt.assets - tt.liabilities,
      s.retirement, s.employerMatch, s.retirement + s.employerMatch,
      PercentOf(display, tt.income), PercentOf(display, net),
      essential, tt.payments, emergency,
      emergency, wants, saveInvest, Max0(remaining),
      SplitOf(emergency, wants, saveInvest, net))
  }

  /** The dashboard's figures for one set of inputs. */
  function Dashboard(inp: DashboardInputs): DashboardTotals
    requires inp.variable.Some? ==> WellFormed(inp.variable.value)
  {
    Figures(TableTotalsOf(inp), EssentialVariable(inp.variable), inp.settings)
  }

  /** Every amount in the column, read as a number, is non-negative (vacuous when the column is absent). */
  predicate NonNegativeColumn(df: Option<Frame>, col: string) {
    df.Some? && col in Names(df.value) ==>
      forall i :: 0 <= i < |Lookup(df.value, col).cells| ==> Coerce(Lookup(df.value, col).cells[i]) >= 0.0
  }

  /** Essential spending is part of variable spending when no variable amount is negative. */
  lemma EssentialWithinVariable(variable: Option<Frame>)
    requires variable.Some? ==> WellFormed(variable.value)
    requires NonNegativeColumn(variable, MonthlyAmount)
    ensures 0.0 <= EssentialVariable(variable) <= SumDf(variable, MonthlyAmount)
  {
    if variable.Some? && MonthlyAmount in Names(variable.value) {
      Keywords.KeywordTotalBounds(variable, Expense, MonthlyAmount, EssentialVariableKeywords);
    } else {
      assert !Keywords.HasColumns(variable, Expense, MonthlyAmount);
    }
  }

  /**
   * The emergency minimum is fixed costs plus essential variable costs plus
   * debt payments, and wants are never negative. When essential spending is
   * between 0 and the variable total, needs and wants together are exactly
   * the expenses plus debt payments, so the split accounts for the whole
   * outflow and its unallocated share is the leftover (`unallocated_total`)
   * as a share of net income.
   */
  lemma FiguresSplitCoversOutflow(tt: TableTotals, essential: real, s: Settings)
    ensures var t := Figures(tt, essential, s);
      && t.emergencyMinimumMonthly == t.fixedTotal + t.essentialVariable + t.totalMonthlyDebtPayments
      && t.wantsTotal >= 0.0
      && (t.split.None? <==> t.netIncome <= 0.0)
    ensures 0.0 <= essential <= tt.variable ==>
      var t := Figures(tt, essential, s);
      && t.needsTotal + t.wantsTotal == t.expensesTotal + t.totalMonthlyDebtPayments
      && t.needsTotal + t.wantsTotal + t.saveInvestTotal == t.totalOutflow
      && (t.netIncome > 0.0 ==> ShareOf(t.split.value.unallocatedPct, t.unallocatedTotal, t.netIncome))
  {
    var t := Figures(tt, essential, s);
    SplitSpec(t.needsTotal, t.wantsTotal, t.saveInvestTotal, t.netIncome);
  }

  /** `FiguresSplitCoversOutflow` for the dashboard's tables, when no variable amount is negative. */
  lemma DashboardSplitCoversOutflow(inp: DashboardInputs)
    requires inp.variable.Some? ==> WellFormed(inp.variable.value)
    requires NonNegativeColumn(inp.variable, MonthlyAmount)
    ensures var t := Dashboard(inp);
      && t.emergencyMinimumMonthly == t.fixedTotal + t.essentialVariable + t.totalMonthlyDebtPayments
      && 0.0 <= t.essentialVariable <= t.variableTotal
      && t.wantsTotal == t.variableTotal - t.essentialVariable
      && t.needsTotal + t.wantsTotal + t.saveInvestTotal == t.totalOutflow
      && (t.netIncome > 0.0 ==> ShareOf(t.split.value.unallocatedPct, t.unallocatedTotal, t.netIncome))
  {
    var tt := TableTotalsOf(inp);
    var essential := EssentialVariable(inp.variable);
    EssentialWithinVariable(inp.variable);
    assert 0.0 <= essential <= tt.variable;
    assert Dashboard(inp) == Figures(tt, essential, inp.settings);
    FiguresSplitCoversOutflow(tt, essential, inp.settings);
  }

  /** Net income follows the toggle, and the employer match is counted in investing only. */
  lemma FiguresNetIncome(tt: TableTotals, essential: real, s: Settings, newMatch: real)
    ensures var t := Figures(tt, essential, s);
      t.netIncome == (if s.useBreakdown then t.totalIncome - t.manualDeductionsTotal else t.totalIncome)
    ensures var t := Figures(tt, essential, s);
      var u := Figures(tt, essential, s.(employerMatch := newMatch));
      && u.netIncome == t.netIncome
      && u.remaining == t.remaining
      && u.split == t.split
      && u.investingDisplay == t.investingDisplay + (newMatch - s.employerMatch)
  {
    EmployerMatchOnlyInvests(tt.income, tt.investing, s, newMatch);
  }
}
