# Personal-finance dashboard: debt payoff estimator and budget metrics

This project models the computational core of a personal-finance dashboard and proves properties of that model. It has two parts.

**Debt payoff estimation** (`_estimate_debt_payoff`). One debt's balance, APR and monthly payment are first classified as one of:

- already paid off;
- no payment;
- zero interest, with the months computed by straight division;
- non-amortizing, where the payment does not beat the interest.

Any other debt goes through a month-by-month amortization loop capped at `max_months`. The loop reports either the month at which the debt is paid off, with the interest accumulated, or "too long".

**Budget metrics** (`compute_metrics` and the dashboard's calculation block).

- Income net of paycheck deductions, under the breakdown toggle.
- Expense, saving and investing totals, the leftover and net worth.
- The emergency minimum and the needs/wants/save split as percentages of net income.
- The balance-weighted APR.
- One payoff entry per debt with a positive balance.
- The "has non-amortizing" flag.
- The combined payoff estimate for all debts together.
- The debt burden.

The table helpers are modelled as well:

- `_sum_df`: a column sum where missing and non-numeric cells count as 0.
- `_norm`: lower-case, trim and collapse whitespace.
- `_sum_by_keywords`: the amount total over rows whose normalised name contains a keyword.
- `_sanitize_editor_df`: forces an edited table back to its expected schema.

## Layout

| file | module | models |
|---|---|---|
| `wrappers.dfy` | `Wrappers` | `Option` |
| `text.dfy` | `Text` | `_norm`, `strip`, `lower`, substring search, decimal rendering of a month cap |
| `frames.dfy` | `Frames` | tables as value-typed columns of cells; `_sum_df` |
| `keywords.dfy` | `Keywords` | `_sum_by_keywords` (function `KeywordTotal`, method `SumByKeywords` with the row loop) |
| `sanitize.dfy` | `Sanitize` | `_sanitize_editor_df` (function `Sanitized`, method `SanitizeEditorFrame` with the column-by-column updates) |
| `payoff.dfy` | `Payoff` | `_estimate_debt_payoff` (function `DebtPayoff`, method `EstimateDebtPayoff` with the month loop) |
| `budget.dfy` | `Budget` | net income, investing display, percentages and split; the dashboard block at `finance_dashboard.py` 332-404 (`Dashboard`) |
| `metrics.dfy` | `Metrics` | `compute_metrics` (function `MetricsOf`, method `ComputeMetrics` with the loops over the debt rows) |

### Modelling choices

- **Money and rates** are `real`: exact arithmetic, with no IEEE rounding.
- **The estimator's loop** is the method `Payoff.Amortize`. It is proved equal to `Amortized`, which is defined through the closed-form balance sequence `BalanceAfter(k)` and interest sequence `InterestAfter(k)`.
- **The "should not happen" guard** (`principal <= 0`, `pf_calcs.py` 86-95) is kept in the method as a branch. The verifier proves it dead.
- **Session values** are explicit inputs: `Budget.Settings`, and the `MetricsInputs` and `DashboardInputs` records. The dashboard and `compute_metrics` read the breakdown toggle under different session keys. Both are modelled by the same `useBreakdown` flag.
- **Tables** are column lists of cells: `Number`, `Text` or `Blank`. `Coerce` reads a cell the way `pd.to_numeric(errors="coerce").fillna(0)` does: a number is itself, anything else is 0. A missing table is `None`.
- **Debt rows** in `compute_metrics` are typed records (`Metrics.DebtRow`) whose numeric fields are already numbers. `sum_df` over the debt table becomes `BalanceSum` and `PaymentSum`.
- **Payoff dates** become month offsets, because the source builds them from today's date. The per-debt date is `NoDate | Now | InMonths(m)`. The combined date is reported as its month count.
- **A "too long" verdict** reports the interest accumulated over the capped months, because the code does so (`pf_calcs.py` 101-109).

## Model

| member | source | states |
|---|---|---|
| Payoff.MonthlyRate | tools/pf_calcs.py:39 | the monthly rate is never negative; it is positive exactly when the APR is; for a non-negative APR, 1200 times the rate is the APR |
| Payoff.CeilMonths | tools/pf_calcs.py:53-54 | `ceil(balance / payment)` is the least month count whose payments cover the balance: at least 1, with `(n-1)*payment < balance <= n*payment` |
| Payoff.EstimateDebtPayoff | tools/pf_calcs.py:14-118 | the estimator with its early returns and month loop computes exactly `DebtPayoff` |
| Payoff.Amortize | tools/pf_calcs.py:77-118 | the month loop (invariants: balance and interest are the closed-form sequences, every earlier balance was positive) returns the outcome at the month it stops |
| Payoff.AmortizedFrom | tools/pf_calcs.py:82-118 | the loop's outcome is paid off or too long; months and reason are present exactly as paid off dictates; total interest is present; monthly interest is the opening balance times the rate, and the suggested minimum is one more |
| Payoff.LoopExit | tools/pf_calcs.py:82-118 | wherever the loop guard first fails, the reported outcome is the one for that month |
| Payoff.AmortizedAtStop | tools/pf_calcs.py:82-118 | the loop entered at month k reports the outcome of the month at which it stops |
| Payoff.StopsAt | tools/pf_calcs.py:82 | a month at which the guard fails, with positive balances before it, is the month the loop stops |
| Payoff.StopMonthSpec | tools/pf_calcs.py:82 | the loop stops within the cap, at a non-positive balance or at the cap, with every earlier balance positive |
| Payoff.StatusCases | tools/pf_calcs.py:35-118 | a non-positive balance gives paid off with 0 months and 0 interest whatever the APR or payment; "no payment" exactly when payment <= 0; "non-amortizing" exactly when APR > 0 and 0 < payment <= opening interest; "too long" only in the amortizing case; months exactly when paid off; total interest exactly when paid off or too long; reason exactly when not paid off |
| Payoff.PaymentBeatsInterest | tools/pf_calcs.py:42-75 | a verdict other than "no payment" and "non-amortizing" for a positive balance means the payment is positive and, when there is interest, above the opening interest |
| Payoff.UnpaidCases | tools/pf_calcs.py:39-75 | "no payment" reports no months and no interest, the opening interest, and a suggested minimum of interest + 1 when the APR is positive, else 0; "non-amortizing" suggests interest + 1, which exceeds the payment |
| Payoff.ZeroRatePayoff | tools/pf_calcs.py:52-62 | with APR <= 0 and a positive payment the debt is paid off with zero interest after the least month count whose payments cover the balance |
| Payoff.ZeroRateBalance | tools/pf_calcs.py:53-54 | at rate 0 the balance falls by exactly one payment a month |
| Payoff.ZeroRateAgreesWithLoop | tools/pf_calcs.py:53-54 | the straight-division month count is where the month loop would stop at rate 0 |
| Payoff.LoopStep | tools/pf_calcs.py:82-99 | one pass of the loop: the principal is positive, the balance drops by exactly that principal, interest grows by this month's interest |
| Payoff.LedgerIdentity | tools/pf_calcs.py:78-99 | `b == balance - months*payment + total_interest` after every month |
| Payoff.ProgressBound | tools/pf_calcs.py:82-99 | when the payment beats the opening interest, each month removes at least `payment - opening interest` from the balance |
| Payoff.PrincipalPositive | tools/pf_calcs.py:83-99 | past the pre-loop checks the principal is always positive (the guard at 86-95 never fires) and the balance strictly decreases every month |
| Payoff.StepShrinks | tools/pf_calcs.py:83-97 | from any balance not above the opening one, the month's principal is positive and the balance falls |
| Payoff.StepMono | tools/pf_calcs.py:83-97 | one month from a smaller balance with a larger payment ends no higher |
| Payoff.InterestNonNegative | tools/pf_calcs.py:98 | accumulated interest is non-negative while the balances were |
| Payoff.AmortizingBranch | tools/pf_calcs.py:77-118 | once the payment beats the opening interest, the estimate is the loop's outcome at its stopping month |
| Payoff.AmortizedOutcome | tools/pf_calcs.py:78-118 | in the amortizing case: paid off or too long; monthly interest is the opening balance times the rate, not the last month's; paid off means 1 <= months <= cap, that month is the first with a non-positive balance, and total interest is the interest accrued up to then; too long means every balance up to the cap is positive |
| Payoff.LedgerBounds | tools/pf_calcs.py:97-99 | at the first paid month m, m payments cover balance plus interest and m-1 do not; interest is non-negative |
| Payoff.PaidOffLedger | tools/pf_calcs.py:111-118 | a paid-off estimate's months and interest satisfy the ledger bounds, with total interest >= 0 |
| Payoff.PaidByCap | tools/pf_calcs.py:82-99 | a cap of at least `balance / (payment - opening interest)` months reaches a non-positive balance |
| Payoff.PaidOffWithinBound | tools/pf_calcs.py:82-118 | with such a cap the verdict is paid off, never too long |
| Payoff.NonAmortizingMeansNoProgress | tools/pf_calcs.py:64-75 | a payment at or below the opening interest never brings the balance below the opening balance |
| Payoff.MinPaymentAmortizes | tools/pf_calcs.py:64-75 | paying the suggested minimum of a non-amortizing debt makes it amortize (paid off or too long) |
| Payoff.PayingMoreLowersBalance | tools/pf_calcs.py:82-99 | a larger payment leaves a balance that is never larger, month by month |
| Payoff.PayingMoreNeverTakesLonger | tools/pf_calcs.py:14-118 | for any debt (already paid, zero APR or amortizing), if a payment pays it off, any larger payment does too, in no more months |
| Text.LowerChar | tools/finance_dashboard.py:57 | lower-casing leaves no upper-case letter, keeps whitespace whitespace, and leaves other characters alone |
| Text.StripFacts | tools/finance_dashboard.py:57 | the stripped string has no whitespace at either end |
| Text.NormIsNormalized | tools/finance_dashboard.py:56-57 | `_norm` yields a string with no upper-case letter, no leading or trailing whitespace, and single spaces between words |
| Text.NormOfNormalized | tools/finance_dashboard.py:56-57 | a normalised string is a fixed point of `_norm` |
| Text.NormIdempotent | tools/finance_dashboard.py:56-57 | `_norm(_norm(s)) == _norm(s)` |
| Text.NormKeepsText | tools/finance_dashboard.py:56-57 | `_norm` only removes and merges whitespace and lower-cases: its non-space characters are the lower-cased non-space characters of the input |
| Text.NormRun | tools/finance_dashboard.py:56-57 | between a word ending in a non-space and one starting with a non-space, any non-empty whitespace run becomes exactly one space, and each side is normalised on its own: `_norm(a + w + b) == _norm(a) + " " + _norm(b)` |
| Text.NormWord | tools/finance_dashboard.py:56-57 | a string without whitespace is only lower-cased |
| Text.NormEdges | tools/finance_dashboard.py:56-57 | whitespace before or after the text does not change `_norm`'s result; together with `NormRun` and `NormWord` it determines `_norm` on every string, one word and one run at a time |
| Text.IsSubstringIff | tools/finance_dashboard.py:71 | `k in name` holds exactly when k occurs in name at some position |
| Frames.Lookup | tools/finance_dashboard.py:30-32 | `df[col]` is the column of that name, one of the table's columns, with one cell per row |
| Frames.TotalRespectsCoerce | tools/finance_dashboard.py:32 | two columns whose cells coerce to the same numbers have the same sum |
| Frames.TotalOfZeros | tools/finance_dashboard.py:32 | a column whose cells all coerce to 0 sums to 0 |
| Frames.TotalNonNegative | tools/finance_dashboard.py:32 | non-negative coerced amounts have a non-negative sum |
| Frames.TotalAppend | tools/finance_dashboard.py:32 | the sum over two runs of cells is the sum of their sums |
| Frames.ColumnSum | tools/finance_dashboard.py:29-32 | in a well-formed table, `_sum_df` of a present column is the total of its coerced cells, an empty table included |
| Frames.SumDfSplit | tools/finance_dashboard.py:29-32 | `_sum_df` of two stacked tables with the same columns is the sum of their `_sum_df`s |
| Keywords.SumByKeywords | tools/finance_dashboard.py:60-73 | 0.0 when the table is missing or empty or lacks either column; otherwise the loop's total equals `KeywordTotal` |
| Keywords.SumMatched | tools/finance_dashboard.py:64-73 | the row loop accumulates exactly the coerced amounts of the matching rows |
| Keywords.MatchedTotalStep | tools/finance_dashboard.py:66-72 | each row adds its coerced amount once if any keyword matches its normalised name, else nothing |
| Keywords.KeywordMatchIff | tools/finance_dashboard.py:64-71 | a name is matched exactly when some lower-cased keyword occurs in it |
| Keywords.KeywordTotalDependsOnKeywordSet | tools/finance_dashboard.py:71 | only the set of lower-cased keywords matters, so a row matched several times is still added once |
| Keywords.KeywordTotalCountsOnce | tools/finance_dashboard.py:71 | listing every keyword twice changes nothing |
| Keywords.KeywordTotalCaseInsensitive | tools/finance_dashboard.py:64 | lower-casing the keywords beforehand changes nothing |
| Keywords.KeywordTotalBounds | tools/finance_dashboard.py:60-73 | with non-negative amounts the keyword total lies between 0 and the column's `_sum_df` |
| Keywords.EmptyKeywordSumsColumn | tools/finance_dashboard.py:71 | the empty keyword matches every row, so the total becomes the column's `_sum_df` |
| Sanitize.DropHelpers | tools/finance_dashboard.py:90-93 | the kept columns are exactly the input columns whose stripped, lower-cased name is not a helper name |
| Sanitize.DropHelpersNames | tools/finance_dashboard.py:90-93 | a name survives the drop exactly when it was present and is not a helper name |
| Sanitize.DropHelpersLookup | tools/finance_dashboard.py:90-93 | dropping helper columns does not change any kept column |
| Sanitize.DropHelpersHead | tools/finance_dashboard.py:90-93 | a kept first column stays first (`DropHelpers(cols)[0] == cols[0]`) and is found unchanged after the drop |
| Sanitize.DropHelpersSkip | tools/finance_dashboard.py:90-93 | a kept column further along is found unchanged after the drop, whether or not the first column is dropped |
| Sanitize.DropHelpersNone | tools/finance_dashboard.py:92-93 | with no helper column nothing is dropped |
| Sanitize.SanitizeEditorFrame | tools/finance_dashboard.py:82-105 | the drop, add-missing, select and coerce steps, done column by column, produce exactly `Sanitized` |
| Sanitize.AddStep | tools/finance_dashboard.py:95-97 | adding a missing expected column keeps every existing column and gives the new one its default cells |
| Sanitize.CoerceStep | tools/finance_dashboard.py:101-102 | coercing one more numeric column keeps the invariant that coerced columns are the filled base cells |
| Sanitize.FilledIdempotent | tools/finance_dashboard.py:102 | coercing an already coerced column changes nothing |
| Sanitize.SanitizedLookup | tools/finance_dashboard.py:99 | each expected name is found in the result and holds the column computed for it |
| Sanitize.SanitizedSchema | tools/finance_dashboard.py:87-105 | the result has exactly the expected columns, in order, one cell per input row (none for a missing table) |
| Sanitize.SanitizedNumericFilled | tools/finance_dashboard.py:101-102 | every cell of a numeric column is a number |
| Sanitize.SanitizedCells | tools/finance_dashboard.py:87-102 | a result column holds the input's cells (coerced if numeric) when the input has it under a non-helper name, else "" or 0.0 in every row |
| Sanitize.SanitizedIdempotent | tools/finance_dashboard.py:82-105 | sanitizing a sanitized table changes nothing, when no expected name is a helper name |
| Sanitize.SanitizedKeepsSums | tools/finance_dashboard.py:82-105 | sanitizing never changes `_sum_df` of an expected, non-helper column |
| Budget.PercentOf | tools/pf_calcs.py:175-176 | present exactly when the whole is positive, and then it is the part's share of the whole times 100 |
| Budget.Max0 | tools/finance_dashboard.py:395-397 | `max(x, 0.0)` is non-negative, at least x, and either x or 0 |
| Budget.NetIncomeCases | tools/finance_dashboard.py:340-343 | with the toggle on, net income plus deductions is total income; with it off, net income is total income |
| Budget.EmployerMatchOnlyInvests | tools/pf_calcs.py:139-157 | the employer match never changes net income and counts one for one in the investing display |
| Budget.SplitSpec | tools/finance_dashboard.py:399-404 | the split exists exactly when net income is positive; each percentage is its amount's share; unallocated is non-negative and is the leftover's share; the four add to at least 100, and to exactly 100 when the amounts fit within net income |
| Budget.EssentialWithinVariable | tools/finance_dashboard.py:376-389 | with non-negative amounts, essential variable spending lies between 0 and the variable total |
| Budget.FiguresSplitCoversOutflow | tools/finance_dashboard.py:391-404 | emergency minimum = fixed + essential variable + debt payments; wants >= 0; split absent exactly when net income <= 0; when essential spending is within the variable total, needs + wants + save is the whole outflow and unallocated is the leftover's share |
| Budget.DashboardSplitCoversOutflow | tools/finance_dashboard.py:332-404 | the same for the dashboard's own tables, whose wants are exactly variable minus essential spending |
| Budget.FiguresNetIncome | tools/finance_dashboard.py:340-373 | net income follows the toggle; changing the employer match changes only the investing display, not net income, the leftover or the split |
| Metrics.ComputeMetrics | tools/pf_calcs.py:121-345 | the whole computation, loops included, returns exactly `MetricsOf` |
| Metrics.DebtFigures | tools/pf_calcs.py:193-277 | the debt part (weighted APR, payoff rows, flag, combined estimate, burden) equals `DebtFiguresOf` |
| Metrics.AprNumeratorLoop | tools/pf_calcs.py:197-204 | the loop's `num` is the sum of balance times APR over all rows |
| Metrics.PayoffLoop | tools/pf_calcs.py:206-248 | the loop builds exactly `PayoffRows` and sets the flag exactly to `AnyFlagged` |
| Metrics.PayoffRowsStep | tools/pf_calcs.py:209-248 | one pass appends the row's entry if its balance is positive and raises the flag if its status is flagged |
| Metrics.PayoffRowsAppend | tools/pf_calcs.py:209-248 | entries are built in input order, so the rows of two runs are the rows of each in sequence, and the flag of both is either flag |
| Metrics.PayoffRowsMembers | tools/pf_calcs.py:209-248 | an entry is listed exactly when it is the entry of a debt row with a positive balance |
| Metrics.ListedFromRow | tools/pf_calcs.py:209-248 | every listed entry is the entry of some debt row with a positive balance |
| Metrics.RowListed | tools/pf_calcs.py:209-248 | every debt row with a positive balance has its entry listed |
| Metrics.PayoffRowsCount | tools/pf_calcs.py:219-220 | there is one entry per debt row with a positive balance |
| Metrics.FlagIff | tools/pf_calcs.py:222-224 | `has_non_amortizing` holds exactly when some listed entry is not paid off |
| Metrics.FlagShowsUnpaid | tools/pf_calcs.py:222-224 | a raised flag means some listed entry is not paid off |
| Metrics.UnpaidRaisesFlag | tools/pf_calcs.py:222-224 | any listed entry that is not paid off raises the flag |
| Metrics.PayoffRowFacts | tools/pf_calcs.py:226-247 | a listed entry carries its estimate's status, has a positive balance, is never dated "Now", has a date exactly when paid off, and then its months and years match the date |
| Metrics.PayoffRowsFacts | tools/pf_calcs.py:226-247 | every listed entry comes from a row with a positive balance, whose index the lemma returns, and carries that row's estimate status, is never dated "Now", has a date exactly when paid off, and then its months and years match the date |
| Metrics.PositiveBalanceMonths | tools/pf_calcs.py:226-231 | a positive balance reports months only when paid off, and then at least 1 |
| Metrics.AprNumeratorUpper | tools/pf_calcs.py:199-203 | with non-negative balances, the numerator is at most the largest APR times the total balance |
| Metrics.AprNumeratorLower | tools/pf_calcs.py:199-203 | with non-negative balances, the numerator is at least the smallest APR times the total balance |
| Metrics.WeightedAprBounds | tools/pf_calcs.py:196-204 | the weighted APR exists exactly when the total balance is positive, and then lies between the smallest and the largest APR |
| Metrics.PaysUnflagged | tools/pf_calcs.py:215-224 | a positive payment above the opening interest gives paid off or too long |
| Metrics.UnflaggedPays | tools/pf_calcs.py:219-224 | a debt row that raises no flag has a positive payment above its opening interest, whenever its balance is positive |
| Metrics.UnflaggedRowsPay | tools/pf_calcs.py:209-224 | with the flag down, every debt row pays like that |
| Metrics.RowCoversInterest | tools/pf_calcs.py:199-213 | such a row's payment times 1200 covers its balance times APR, strictly for a positive balance |
| Metrics.PaymentsCoverInterest | tools/pf_calcs.py:194-204 | then the total payment times 1200 covers the APR numerator, strictly once the total balance is positive, and the total payment is then positive |
| Metrics.CombinedCovers | tools/pf_calcs.py:255-260 | with the flag down and a positive total balance, the total payment is positive and covers the combined interest |
| Metrics.CombinedAmortizes | tools/pf_calcs.py:261-265 | a combined payment above the combined interest pays off or runs too long at the weighted APR |
| Metrics.OverallAttempted | tools/pf_calcs.py:255-265 | with the flag down and positive totals, the combined estimate is attempted at the weighted APR |
| Metrics.OverallAmortizes | tools/pf_calcs.py:250-266 | if no debt is flagged, no amount is negative and the total balance is positive, the combined estimate is attempted and is never "no payment" or "non-amortizing" |
| Metrics.OverallIff | tools/pf_calcs.py:250-272 | combined months are reported exactly when no debt is flagged, total balance and payments are positive and the combined estimate is paid off; interest and date exactly with them; months >= 1 |
| Metrics.BurdenSpec | tools/pf_calcs.py:274-277 | the debt burden exists exactly when net income and payments are positive, and is then payments as a share of net income |
| Metrics.CashSplitCoversOutflow | tools/pf_calcs.py:178-191 | emergency minimum = fixed + essential + debt payments; it plus non-essential plus saving and investing is the whole outflow; split absent exactly when net income <= 0, else unallocated >= 0 and is the leftover's share |
| Metrics.CashNetIncome | tools/pf_calcs.py:133-176 | net income follows the toggle; the employer match changes only the investing display and the retirement total |

## Left out

- Streamlit widgets, layout, session plumbing, reruns and reset. Session values are explicit inputs.
- Snapshot download and upload, JSON parsing and the import signature. These are I/O and foreign libraries.
- The plot helpers and the `variable_for_visuals` concatenation (`pf_calcs.py` 279-284). They only feed charts.
- Payoff-date strings: they depend on today's date and a date library. Only the month count, the "Now" case and `years = months / 12` are kept.
- `_money`, `_pct` and the weekly and daily divisions used only for display.
- Parsing text into numbers (`_safe_float`, `float(x or 0.0)`, `to_numeric` on numeric strings): a numeric string is taken to be a `Number` cell already. NaN and IEEE rounding are not modelled, because amounts are exact reals.
- Lower-casing beyond ASCII letters: `Text.LowerChar` maps only `A`-`Z`.
- Duplicate column labels: in `_sum_df`, `df[col]` is then a DataFrame and `pd.to_numeric` on it raises. The model does not raise: `Frames.Lookup` returns the first column of a name.
- `Keywords.NameText`: reads a `Number` or `Blank` name cell as "". Python's `str(x or "")` gives "" only for None and 0, and otherwise renders the number, such as "5.0", or "nan" for a missing cell. A keyword such as "5" or "n" would match those renderings in the source and not in the model. The dashboard's fixed list `Budget.EssentialVariableKeywords` has no digit and no keyword that occurs in "nan" or "inf", so its totals are unaffected.
- The input tables that `compute_metrics` echoes in its result (`income_df` … `liabilities_df`, `pf_calcs.py` 287-295): they are returned unchanged, so `Metrics.Metrics` does not carry them.
- `SanitizeEditorFrame` works on table values, so it does not capture pandas aliasing of the caller's frame. `reset_index` has no counterpart, because tables carry no index.
- `sum_df` from `tools/pf_state.py` is not part of this model. `compute_metrics` is modelled with the visible `_sum_df` in its place.
- `tools/about.py`: static text with no logic.
