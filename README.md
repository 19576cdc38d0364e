# Investment projection calculator: a verified model of its arithmetic

This project models the projection engine behind an investment-planning
calculator. The engine covers:

- **SIPs** (systematic investment plans): a monthly instalment that can be
  stepped up once a year.
- **Lumpsums**: one amount compounded once a year.
- **SWPs** (systematic withdrawal plans): a fixed monthly withdrawal that is
  taken whole or skipped.
- The **combined ledger**, which runs a lumpsum, a SIP and an SWP on one
  balance; the SWP starts in a given year.
- **Several streams** of each kind, added up (SIPs, lumpsums) or chained
  one after the other (SWPs).
- **Inflation deflation** of nominal values over the years elapsed since the
  plan began.
- **One phase** of a multi-phase portfolio. The rollover from the previous
  phase plus fresh money form one combined lumpsum. The SIPs and the other
  lumpsums are added on top, and the SWPs draw on the total.
- The **phase chain**. Each phase's nominal final value is rolled into the
  next phase, and the years elapsed are carried forward.

Each phase's table rows carry the years elapsed since the start of the
plan, and real values are deflated over those cumulative years.

The project also models the re-implementations in the two regression
scripts, and proves that they agree with the calculator:

- `test_cumulative_inflation.py`: the deflation function and the two-phase
  rollover arithmetic.
- `test_portfolio.py`: a nested year/month SIP loop, a lumpsum total and a
  deflation loop that has no shortcut.

Numbers are exact `real`s. Powers are a recursive `Growth.Pow` over a
natural exponent.

The source's loops are methods with loop invariants. Each method is proved
against a recursive specification function that takes the same steps:

- a month of a SIP: `SipLedger.SipBalance`;
- a month of an SWP: `SwpLedger.SwpAfter`;
- a month of the combined ledger: `CombinedLedger.CombinedAfter`;
- a phase table: `Portfolio.YearFiguresAt`;
- the phase chain: `PhaseChain.Entering` and `PhaseChain.After`.

What the source promises is then proved as lemmas about those functions.
Examples are closed forms for the instalment, non-negativity, conservation
at 0%, order independence of the totals, and the bounds of deflation.

The closed-form computations are functions: `Lumpsum.CalculateLumpsum` and
`Inflation.AdjustForInflation`. A pandas table is a `seq` of row datatypes.
A row lookup by year is `Portfolio.Lookup`; it returns the first matching
row, as `df[df['Year'] == year].iloc[0]` does.

## Behaviour worth knowing

- **Streams are computed separately.** Each SIP and each lumpsum of a phase
  is computed on its own, and the results are added up. The SWPs then run
  on that total.
- **No validation errors.** The code raises no error for unusual inputs:
  - A combined lumpsum that is not positive is valued at 0 and still counted
    as invested.
  - Negative rates are simply computed.
  - The model keeps these behaviours. Lemmas that need non-negative inputs
    say so in their `requires`.
- **SWP start years are ignored when SWPs are chained.**
  `calculate_multiple_swps` ignores `start_year`. It chains each SWP on what
  the previous one left, over the whole phase.
- **Years carried forward.** The years elapsed move on by the row count of
  the phase's stored table. That row count is the duration whenever the
  phase was calculated.

## Model

| member | source | states |
|---|---|---|
| Growth.MonthlyRate | sip_calculator.py:29 | the monthly rate is the annual percentage divided by 12 and by 100 (r·1200 = rate), is non-negative for a non-negative rate and positive for a positive one |
| Growth.AnnualFactor | sip_calculator.py:77 | the yearly factor 1 + rate/100, characterised by (g − 1)·100 = rate |
| Growth.StepFactor | sip_calculator.py:43-44 | the step-up factor is at least 1, is exactly 1 iff the step-up is not positive, and is 1 + stepUp/100 otherwise |
| Growth.PowAdd | test_cumulative_inflation.py:47-58 | x^(m+n) = x^m · x^n, the power law behind rolling one compounding into the next |
| Growth.CompoundedTwice | test_cumulative_inflation.py:47-58 | compounding m years and then n more at the same rate is compounding m + n years |
| Growth.PowOfOne | test_portfolio.py:43 | 1^n = 1, so a 0% rate leaves a value unchanged |
| Growth.PowNonNegative | sip_calculator.py:77 | a non-negative base gives a non-negative power |
| Growth.PowPositive | sip_calculator.py:77 | a positive base gives a positive power |
| Growth.PowNonZero | test_portfolio.py:43 | a non-zero base gives a non-zero power, so the test's divisor is never 0 unless the rate is −100% |
| Growth.PowAtLeastOne | sip_calculator.py:356 | a base of at least 1 gives a power of at least 1 |
| Growth.PowAboveOne | sip_calculator.py:356 | a base above 1 gives a power above 1 for every positive exponent |
| Growth.PowStrictlyIncreasing | sip_calculator.py:77 | for a base above 1 the powers strictly increase with the exponent |
| Growth.GrownAtLeast | sip_calculator.py:40 | one month's growth at a non-negative rate never shrinks a non-negative balance |
| Growth.GrownNonNegative | sip_calculator.py:111 | arithmetic step of SipLedger.SipNeverNegative, SwpLedger.SwpNeverNegative and CombinedLedger.CombinedNeverNegative: one month's growth at a rate of at least −100% keeps a non-negative balance non-negative |
| Growth.RepeatedIsProduct | sip_calculator.py:114-116 | k withdrawals of w add up to k·w |
| Growth.YearOfMonth | sip_calculator.py:48-49 | month 12·y + j with j < 12, taken in whole years, is year y |
| Growth.MonthDivStep | sip_calculator.py:47-49 | the whole-year count of a month moves on by one exactly after a twelfth month |
| Sums.SumOfSnoc | sip_calculator.py:228-229 | adding one more stream adds its amount to the total |
| Sums.SumOfAppend | sip_calculator.py:246-247 | the total of two lists of streams is the sum of their totals |
| Sums.SumOfPermutation | sip_calculator.py:225-229 | a total does not depend on the order of the streams |
| Sums.RemovedFromMultiset | sip_calculator.py:225 | taking one stream out of a list removes one copy of it from the list's multiset |
| Sums.SumWithout | sip_calculator.py:228 | the total is one stream's amount plus the total of the others |
| Sums.SumWithoutAt | sip_calculator.py:228 | the same for the stream at position j |
| Sums.SumOfNonNegative | sip_calculator.py:228-229 | non-negative amounts add up to a non-negative total |
| Sums.SumOfPointwise | sip_calculator.py:228-229 | two amounts that agree on every stream give the same total |
| SipLedger.CalculateSip | sip_calculator.py:15-57 | the loop's final amount, amount invested and year-end rows are the month-by-month ledger after 12·years months; there are `years` rows, row i is year i + 1 with gains = value − invested, and the last row shows the returned final amount and amount invested |
| SipLedger.InstalmentClosedForm | sip_calculator.py:37-44 | the instalment paid in month m is amount·(1 + stepUp/100)^((m − 1) div 12) for a positive step-up, and amount otherwise |
| SipLedger.SteppedUpByFactor | sip_calculator.py:43-44 | stepping an instalment up multiplies it by the step-up factor |
| SipLedger.SipAtZeroRate | sip_calculator.py:29-40 | at a 0% rate the final amount is the initial amount plus every instalment, i.e. the amount invested |
| SipLedger.ContributionSumFlat | sip_calculator.py:39 | without a step-up, the instalments over n months add up to n·amount |
| SipLedger.InstalmentFlat | sip_calculator.py:43-44 | without a positive step-up the instalment never changes |
| SipLedger.SipBalanceGrows | sip_calculator.py:40 | with non-negative inputs and rate, the balance is non-negative and never falls from one month to the next |
| SipLedger.InstalmentNonNegative | sip_calculator.py:43-44 | a non-negative instalment stays non-negative after any number of step-ups |
| SipLedger.SteppedUpAtLeast | sip_calculator.py:43-44 | a positive step-up never lowers a non-negative instalment |
| SipLedger.SipNeverNegative | sip_calculator.py:37-40 | with a non-negative start and instalment and a monthly rate of at least −100%, the balance never goes negative |
| SwpLedger.CalculateSwp | sip_calculator.py:89-129 | the loop's remaining amount, total withdrawn and year-end rows are the month-by-month ledger after 12·years months; there are `years` rows, the last shows the returned figures; with a non-negative start and an annual rate of at least −1200% no balance is negative |
| SwpLedger.SwpNeverNegative | sip_calculator.py:109-116 | a withdrawal is only taken when the grown balance covers it, so a non-negative start never goes negative |
| SwpLedger.SwpWithdrawalsCounted | sip_calculator.py:114-116 | the total withdrawn is k·monthly withdrawal for a count k of at most the number of months |
| SwpLedger.SwpWithdrawalsRepeated | sip_calculator.py:114-116 | the total withdrawn is the withdrawal repeated k times, k at most the number of months |
| SwpLedger.SwpConservationAtZeroRate | sip_calculator.py:109-116 | at 0% the remaining amount plus the total withdrawn is the initial amount |
| SwpLedger.SwpFullyFunded | sip_calculator.py:109-116 | if the start covers every withdrawal at a non-negative rate, every month's withdrawal is taken and the balance ends at least start − months·withdrawal |
| CombinedLedger.CalculateCombinedInvestment | sip_calculator.py:131-202 | the loop's final amount, invested and withdrawn totals and its rows are the month-by-month combined ledger; every row has Total_Invested = lumpsum + initial + SIP invested and Net_Returns = value + withdrawn − invested, and the last row shows the returned figures |
| CombinedLedger.PlayMonth | sip_calculator.py:167-187 | one month of the loop is one step of the combined ledger and moves the total invested with the SIP money paid in |
| CombinedLedger.CombinedNoEarlyWithdrawal | sip_calculator.py:178-182 | nothing is withdrawn in the months before the SWP's start year |
| CombinedLedger.BeforeStartYear | sip_calculator.py:178-179 | arithmetic step of CombinedLedger.CombinedNoEarlyWithdrawal: a month before 12·(startYear − 1) belongs to a year below the start year |
| CombinedLedger.CombinedWithdrawalsCounted | sip_calculator.py:180-182 | the total withdrawn is k·withdrawal for a count k of at most the number of months |
| CombinedLedger.CombinedWithdrawalsRepeated | sip_calculator.py:180-182 | the total withdrawn is the withdrawal repeated k times, k at most the number of months |
| CombinedLedger.CombinedInstalment | sip_calculator.py:185-186 | with a positive SIP amount, the instalment the combined loop steps up is the SIP ledger's instalment |
| CombinedLedger.CombinedNeverNegative | sip_calculator.py:167-182 | a non-negative start at a monthly rate of at least −100% never goes negative, whatever the SIP amount |
| CombinedLedger.CombinedWithoutSwp | sip_calculator.py:131-202 | without an SWP and with a positive SIP, the combined ledger is calculate_sip's ledger started from the rollover plus lumpsum, and nothing is withdrawn |
| CombinedLedger.CombinedWithoutSip | sip_calculator.py:131-202 | without a SIP and with an SWP from year 1, the combined ledger is calculate_swp's ledger and no SIP money is paid in |
| Lumpsum.CalculateLumpsum | sip_calculator.py:59-87 | invested = principal + initial; `years` rows numbered 1..years, each showing that invested amount with returns = value − invested; the last row's value is the final amount; over 0 years the final amount is the amount invested |
| Lumpsum.YearOverYear | sip_calculator.py:76-77 | the first row is the invested amount grown by one year; each later row is the previous one grown by one year |
| Lumpsum.CompoundedStep | sip_calculator.py:77 | one more year multiplies a compounded value by the annual factor |
| Lumpsum.AtZeroRate | sip_calculator.py:72-87 | at 0% the final amount and every row equal the amount invested, with zero returns |
| Lumpsum.AboveInvestedAtPositiveRate | sip_calculator.py:76-82 | at a positive rate every row of a positive investment is worth more than was invested |
| Lumpsum.IncreasingAtPositiveRate | sip_calculator.py:76-82 | at a positive rate the rows of a positive investment strictly increase year by year |
| Lumpsum.GrownAbove | sip_calculator.py:77 | a positive amount times a power above 1 exceeds the amount |
| Lumpsum.GrownFurther | sip_calculator.py:77 | for a base above 1 a positive amount compounded longer is worth more |
| Lumpsum.RowIsShorterFinal | sip_calculator.py:76-85 | row i of a projection is the final amount of the same projection stopped after i + 1 years |
| Streams.MultipleSips | sip_calculator.py:204-249 | an empty list returns (initial, initial, no rows); otherwise total final and invested are initial plus the sum of each SIP's calculate_sip result, and row i holds year i + 1 with the SIPs' values and invested amounts of that year added up |
| Streams.MultipleLumpsums | sip_calculator.py:251-296 | an empty list returns (initial, initial, no rows); otherwise total final and invested are initial plus the sum of each lumpsum's calculate_lumpsum result, and row i holds year i + 1 with the lumpsums' values of that year added up |
| Streams.MultipleSwps | sip_calculator.py:298-336 | no SWPs or no portfolio values give (0, 0, no rows); otherwise each SWP runs for the whole phase on what the previous one left, starting from the last portfolio value, and the rows are the first SWP's |
| Streams.SipOrderIndependent | sip_calculator.py:225-229 | the SIP totals do not depend on the order of the SIP list |
| Streams.LumpsumOrderIndependent | sip_calculator.py:272-276 | the lumpsum totals do not depend on the order of the lumpsum list |
| Streams.ChainNeverNegative | sip_calculator.py:321-326 | chaining SWPs on a non-negative value never leaves a negative balance |
| Streams.ChainConservationAtZeroRate | sip_calculator.py:321-326 | at 0% the chain's remaining value plus its total withdrawn is the starting value |
| Streams.ChainIgnoresStartYear | sip_calculator.py:321-324 | the chain depends only on each SWP's amount and rate, never on its start year |
| Inflation.Deflator | sip_calculator.py:356 | at a positive inflation rate the divisor (1 + rate/100)^year is at least 1 |
| Inflation.AdjustForInflation | sip_calculator.py:338-359 | the output has the input's length and is the input unchanged when the rate is not positive |
| Inflation.DeflatorBounds | sip_calculator.py:356 | at a positive rate the divisor is at least 1, and above 1 exactly when at least one year has elapsed |
| Inflation.Reinflated | sip_calculator.py:354-357 | each real value times its year's divisor gives back the nominal value |
| Inflation.DividedBack | sip_calculator.py:356 | arithmetic step of Inflation.Reinflated: dividing by a non-zero divisor and multiplying back is the identity |
| Inflation.BelowNominal | sip_calculator.py:354-357 | at a positive rate a positive value deflated over at least one year is strictly between 0 and its nominal value, one at year 0 is unchanged, and a non-negative value stays non-negative |
| Inflation.DivisionBounds | sip_calculator.py:356 | arithmetic step of Inflation.BelowNominal: dividing by a divisor above 1 shrinks a positive value without reaching 0; dividing by 1 changes nothing |
| Inflation.BroadcastIsRepeatedList | sip_calculator.py:355 | a single year for all values deflates exactly as a list repeating that year |
| Inflation.LaterIsLower | sip_calculator.py:356 | the longer a positive value is deflated, the less it is worth |
| Inflation.DivideByLarger | sip_calculator.py:356 | arithmetic step of Inflation.LaterIsLower: a positive value divided by a larger divisor is smaller |
| Portfolio.Lookup | sip_calculator.py:437-441 | the row found for a year is the first row of the table with that year; none is found exactly when no row has that year |
| Portfolio.LookupNumbered | sip_calculator.py:437-441 | in a table numbered 1, 2, … the row of year y is at position y − 1 |
| Portfolio.ReadSipYear | sip_calculator.py:436-448 | the SIP columns of a year are that year's SIP totals, or zeros when there are no SIPs |
| Portfolio.ReadLumpsumYear | sip_calculator.py:457-464 | the other-lumpsum value of a year is that year's lumpsum total, or zero when there are none |
| Portfolio.ReadSwpYear | sip_calculator.py:475-484 | with SWPs, a year's SWP row is the first SWP's row of that year run on the gross value; without SWPs there is none |
| Portfolio.ProjectYear | sip_calculator.py:428-488 | one year's figures, built from the year's stream totals, are the phase's figures of that year |
| Portfolio.GrowStreams | sip_calculator.py:392-415 | the gross value is the SIPs, the combined lumpsum (0 unless positive) and the other lumpsums at the end of the phase; invested is the SIP money plus the combined lumpsum (even if not positive) plus the other lumpsums |
| Portfolio.BuildTable | sip_calculator.py:427-488 | the phase table has `years` rows and row i holds the phase's figures of year i + 1 |
| Portfolio.AttachRealValues | sip_calculator.py:492-501 | at a positive inflation rate each real value is the nominal value deflated over its cumulative years and the real final is the last row's; otherwise real values are the nominal ones and the real final is the nominal final |
| Portfolio.CalculateCombinedPortfolio | sip_calculator.py:361-506 | the nominal final and total withdrawn are the gross value, or what the SWP chain leaves of it; invested is the phase's invested total; there are `years` rows, row i has year i + 1 and cumulative years phaseStartYear + i + 1 and the phase's figures of that year; net benefit = nominal + withdrawn − invested; real values as in AttachRealValues |
| Portfolio.PhaseNeverNegative | sip_calculator.py:388-425 | with no negative amount and no rate below −100%, the gross value and the phase's nominal final are non-negative |
| Portfolio.CompoundedNonNegative | sip_calculator.py:401-402 | a non-negative amount compounded at a rate of at least −100% stays non-negative |
| Portfolio.ZeroRateNetBenefit | sip_calculator.py:388-504 | with every rate at 0% the net benefit is 0, except that a combined lumpsum that is not positive is counted as invested but worth nothing, making the net benefit minus that amount |
| Portfolio.RolloverOnlyIsLumpsum | sip_calculator.py:397-404 | a phase with only the rollover and the additional lumpsum is calculate_lumpsum of them when their sum is positive, and worth 0 otherwise, with nothing withdrawn |
| Portfolio.LastRowIsFinal | sip_calculator.py:418-423 | with at most one SWP, the last row shows the returned nominal final and total withdrawn |
| PhaseChain.RunPhases | sip_calculator.py:1211-1240 | phase k gets the carry Entering(k) (the previous phase's nominal final, or the running rollover, plus phase k's fresh money from the second phase on), and the loop ends with After(all phases) |
| PhaseChain.CumulativeYearsAreRowsSoFar | sip_calculator.py:1235-1240 | the years carried into phase k are the row counts of the calculated phases before it, added up |
| PhaseChain.RolloverIsPreviousNominal | sip_calculator.py:1217-1240 | after a calculated phase, the next phase's rollover is its nominal final plus the next phase's fresh money, and the years elapsed move on by its row count |
| PhaseChain.UncalculatedPhasesAccumulate | sip_calculator.py:1217-1233 | over phases without a result, fresh money keeps adding up on the rollover and the years elapsed do not change |
| PhaseChain.PhaseRowsContinueChain | sip_calculator.py:430 | a calculated phase started from the carried years, with one row per year of its duration, has row y at cumulative year RowsSoFar + y and its last row at the years carried out of it; see also sip_calculator.py:1235-1240 |
| CumulativeInflationTest.ApplyInflationAdjustment | test_cumulative_inflation.py:6-19 | the test's append loop returns exactly what the calculator's apply_inflation_adjustment returns, including the identity for a rate that is not positive |
| CumulativeInflationTest.RolloverIsOneCompounding | test_cumulative_inflation.py:45-58 | rolling a lumpsum's final value into a second lumpsum at the same return is one lumpsum over both periods |
| CumulativeInflationTest.TwoLumpsumPhases | test_cumulative_inflation.py:45-61 | two lumpsum-only phases of the portfolio, the second rolling over the first's nominal final, end at the initial lumpsum compounded over both phases |
| CumulativeInflationTest.CumulativeBelowPerPhase | test_cumulative_inflation.py:58-61 | deflating phase 2's value over the cumulative years gives strictly less than deflating it over phase 2's own years |
| CumulativeInflationTest.FunctionMatchesDirect | test_cumulative_inflation.py:94-103 | the function applied to the two phases' nominal values and cumulative years gives the directly deflated values, phase 2's being the compounding over both phases |
| PortfolioTest.PlayYear | test_portfolio.py:18-19 | twelve months of the inner loop take the SIP ledger twelve months further |
| PortfolioTest.SipAmount | test_portfolio.py:8-21 | one SIP's year/month loop ends at calculate_sip's final amount for that SIP started from nothing |
| PortfolioTest.CalculateMultipleSips | test_portfolio.py:4-24 | the test's total is the sum of each SIP's calculate_sip final (0 for no SIPs) |
| PortfolioTest.InstalmentAfterYear | test_portfolio.py:20-21 | stepping the instalment up after a year's loop gives the instalment calculate_sip uses in the next year |
| PortfolioTest.InstalmentWithinYear | test_portfolio.py:18-19 | within a year the instalment does not change |
| PortfolioTest.CalculateMultipleLumpsums | test_portfolio.py:26-35 | the test's total is the sum of each lumpsum's calculate_lumpsum final (0 for none) |
| PortfolioTest.ApplyInflationAdjustment | test_portfolio.py:37-45 | the output has the input's length; each value times its year's divisor is the nominal value; at a positive rate it is the calculator's apply_inflation_adjustment; at 0% it is the input |
| PortfolioTest.Deflate | test_portfolio.py:42-43 | one value divided by its year's divisor multiplies back to the nominal value |
| PortfolioTest.DeflatorNonZero | test_portfolio.py:43 | the divisor is non-zero unless the rate is −100% and at least one year has elapsed |
| PortfolioTest.ZeroReturnSip | test_portfolio.py:15-19 | with 0% return and no step-up a SIP ends at monthly amount · 12 · years |
| PortfolioTest.RunningAmountNeverFalls | test_portfolio.py:19 | with a non-negative return and monthly amount the running amount never falls from month to month |
| PortfolioTest.SipTotalsAgree | test_portfolio.py:4-24 | the test's SIP total does not depend on the order of the SIPs and equals the calculator's calculate_multiple_sips total for SIPs of the same duration |
| PortfolioTest.PlansAgree | test_portfolio.py:4-24 | for SIPs of one duration, the test's total equals the calculator's total over the same SIPs |
| PortfolioTest.LumpsumTotalsAgree | test_portfolio.py:26-35 | the test's lumpsum total does not depend on the order of the lumpsums |

## Left out

- The Streamlit user interface is not part of this model: charts, result
  display, the input sections of a phase and the older combined section.
  The result that a phase's input section hands back is a parameter
  (`PhaseChain.PhaseOutcome`). It is either nothing or a nominal final
  value with its table's row count.
- Session state, console output, banners and the script entry points are
  not modelled.
- `test_rollover_inflation.py` is not part of this model. It is a
  straight-line print script with assumed figures and no logic of its own.
- Floating-point rounding is not modelled; numbers are exact reals. The
  tests' checks against two-decimal constants with a 1% tolerance are left
  out with it.
- pandas plumbing is not modelled:
  - The per-stream columns (SIP_i_Value, Lumpsum_i_Invested, SWP_i_Withdrawn,
    SWP_i_Remaining) are left out. Only the totals they produce are modelled.
  - The selection of those columns by name is left out for the same reason.
- A SIP without a `step_up` key is modelled with a step-up of 0, which is
  what `sip.get('step_up', 0)` gives.
- Dictionaries are records with fixed fields. A missing required key,
  which raises KeyError in the source, is not modelled.
- Portfolio.CalculateCombinedPortfolio: requires at least one year. With
  zero years the source fails on the empty table's missing columns.
- Streams.MultipleSips and Streams.MultipleLumpsums: require at least one
  year when the list is not empty, for the same reason.
- Streams.MultipleSwps: requires at least one year when there are SWPs and
  portfolio values. With zero years the first SWP's table has no columns,
  and reading its total withdrawn raises KeyError in the source.
- Year counts and cumulative years are natural numbers, so a negative phase
  duration or start year is not modelled. The SWP start year of the
  combined ledger is an integer, as in the source.
- PhaseChain.RunPhases: the years carried forward use the row count the
  phase reports. Whether the stored table exists is folded into that
  count, where a missing table counts as 0.
- Inflation.AdjustForInflation and CumulativeInflationTest.ApplyInflationAdjustment:
  require a per-value list of cumulative years at least as long as the
  values when the rate is positive. A shorter list raises IndexError in the
  source; that error path is not modelled. Every caller in this model passes
  a list of the right length.
- PortfolioTest.ApplyInflationAdjustment: requires a per-value list of years
  at least as long as the values, for the same reason. It also requires
  every year to be 0 when the rate is −100%; with a positive year the test's
  divisor is 0.0 and the source raises ZeroDivisionError, which is not
  modelled.
- PortfolioTest.Deflate: requires the year to be 0 when the rate is −100%,
  because the source's division by zero there is not modelled.
- Effective monthly compounding with fractional powers does not occur in
  this code and is not modelled.
