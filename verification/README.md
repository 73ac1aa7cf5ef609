# FinSight calculators in Dafny

FinSight is a LangChain/LangGraph assistant for personal finance. Its
only non-framework logic is two pure calculators, and this project
models both and proves properties of them:

- **The compound-interest projector** (`compound_interest`). It maps a
  deposit frequency to a number of sub-periods a year (52, 12 or 1) and
  refuses any other frequency. It then runs years on the outside and
  sub-periods on the inside. Each sub-period adds interest on the balance
  before the deposit, then adds the deposit. One summary row is emitted
  per year. The source keeps a closed form for the final balance in a
  comment. The model proves that, at any non-zero rate, this closed form
  gives the loop's balance after every sub-period. The proof reuses the
  annuity closed form: a deposit behaves as a loan payment with its sign
  reversed.
- **The Spanish real-estate profitability analyzer.** It has two parts:
  - the input record's post-construction validator
    (`calculate_automatic_fields`): defaults for maintenance, vacancy and
    rental-protection insurance, the salary-to-IRPF threshold ladder, and
    the fixed/variable mortgage consistency check;
  - the calculation (`real_estate_profitability_calculator` with its
    inner `calculate_itp`): the ITP rate by autonomous community, the
    acquisition total and the loan/down-payment split, the monthly rate
    and the level annuity payment, a twelve-month first-year-interest
    simulation, operating expenses, net operating income, income tax on
    the positive part after depreciation, yields, cash flows and ROCE, in
    five labelled result groups.

All money and rates are Dafny `real`, so the identities between the
outputs hold exactly. Fields the source types as `int` stay `int` and are
converted with `as real` where the source mixes them with floats.

Modules, one per file:

| file | module | contents |
|---|---|---|
| `wrappers.dfy` | `Wrappers` | `Option` and `Result` (usable with `:-`) |
| `compound_interest.dfy` | `CompoundInterest` | frequency mapping, the sub-period recurrence, the schedule, the two loops as methods, the projector |
| `annuity.dfy` | `Annuity` | integer power, the annuity payment formula, month-by-month amortisation, the closed form |
| `real_estate_input.dfy` | `RealEstateInput` | communities, mortgage type, Y/N flag, the input record, the IRPF ladder, validation |
| `real_estate_calculator.dfy` | `RealEstateCalculator` | the ITP table, the result groups, the pipeline steps, the calculation, the tool as a whole |

How the source's behaviour is stated:

- Exceptions are `Result` errors:
  - `ValueError` for an unknown frequency becomes `InvalidFrequency`;
  - pydantic's `ge`/`le` bounds become `OutOfRange`, listing the failing fields;
  - the two mortgage checks become `MissingVariableRateParts` and `MissingFixedRate`;
  - the ITP "not in the list" error becomes `UnknownCommunity`.
- The pydantic validator mutates the record in place. Here it is the
  function `RealEstateInput.Validate`, which returns the completed record.
  The bounds are checked first and reported together, then the
  after-validator runs.
- Python's `x or 0` on an optional figure is `OrZero`. For every figure
  the source can hold, this is the same as treating `None` as zero.
- Two source quirks are kept as written:
  - With flag `"Y"`, rental protection insurance is overwritten with 5% of
    the annual rent, even when a value was supplied. With flag `"N"`, the
    supplied value is kept and is still counted among the operating
    expenses.
  - `irpf_tax` is always replaced by the rate of the salary.
- The fixed-rate branch never sets `variable_interest_rate`.
- The region enumeration has 19 names, and so does the ITP table,
  including Ceuta and Melilla.

## Model

| member | source | states |
|---|---|---|
| CompoundInterest.SubPeriods | src/app/tools/financial_tools.py:40-47 | exactly "weekly", "monthly" and "annually" are accepted, mapping to 52, 12 and 1 sub-periods; any other frequency is refused with an error naming it |
| CompoundInterest.Project | src/app/tools/financial_tools.py:15-72 | an unknown frequency fails before any row; otherwise max(years, 0) rows with years 1..years in order, each echoing the initial balance, with total deposit (year·n)·deposit and balance = initial + deposits + interest; zero interest at rate 0; with non-negative inputs balances never fall from one row to a later one |
| CompoundInterest.RunYear | src/app/tools/financial_tools.py:58-62 | the inner loop performs exactly n steps of the sub-period recurrence (interest on the pre-deposit balance at rate/100/n, then the deposit) |
| CompoundInterest.Accumulate | src/app/tools/financial_tools.py:52-72 | the year loop produces the reference schedule: row k is the state after k·n sub-periods from the initial balance |
| CompoundInterest.ProjectionRows | src/app/tools/financial_tools.py:57-70 | for every valid sub-period count the schedule's row count, year numbers, echoed initial balance, deposit totals and balance identity; no interest at rate 0; ascending balances for non-negative inputs |
| CompoundInterest.ScheduleRows | src/app/tools/financial_tools.py:57-70 | the schedule has one row per year, and row k is the summary after year k+1 |
| CompoundInterest.PeriodsIdentities | src/app/tools/financial_tools.py:53-62 | after any number k of sub-periods the accumulated deposit is k·deposit and balance = initial + accumulated deposit + accumulated interest |
| CompoundInterest.RowIdentities | src/app/tools/financial_tools.py:64-70 | every row reports total deposit (year·n)·deposit and satisfies the balance identity |
| CompoundInterest.ZeroRateEarnsNothing | src/app/tools/financial_tools.py:59-62 | at a zero rate no sub-period earns interest |
| CompoundInterest.BalanceNonNegative | src/app/tools/financial_tools.py:59-60 | with non-negative initial balance, deposit and rate the balance stays non-negative |
| CompoundInterest.BalanceNonDecreasing | src/app/tools/financial_tools.py:59-60 | with non-negative initial balance, deposit and rate the balance after j sub-periods is at most the balance after any k >= j |
| CompoundInterest.ScheduleProperties | src/app/tools/financial_tools.py:57-70 | every row's year, echoed initial balance, deposit total and balance identity |
| CompoundInterest.ScheduleWithoutInterest | src/app/tools/financial_tools.py:57-70 | at rate 0 every row has zero interest and balance = initial + deposits |
| CompoundInterest.RowBalancesAscend | src/app/tools/financial_tools.py:57-70 | with non-negative inputs the row of a later year never has a smaller balance than the row of an earlier year |
| CompoundInterest.ScheduleBalancesAscend | src/app/tools/financial_tools.py:57-70 | with non-negative inputs the balances of the rows are in ascending order |
| CompoundInterest.ScheduleExtends | src/app/tools/financial_tools.py:57-70 | one more year appends exactly one row and keeps the earlier rows; with non-negative inputs its balance is at least the previous year's |
| CompoundInterest.PeriodsCompose | src/app/tools/financial_tools.py:57-62 | running j and then k more sub-periods is running j + k sub-periods, which is why the year loop can resume where the previous year stopped |
| CompoundInterest.BalanceIsReversedLoan | src/app/tools/financial_tools.py:59-60 | a sub-period is a loan month with the payment's sign reversed: the balance after k sub-periods is what a loan of the initial balance still owes after k payments of minus the deposit |
| CompoundInterest.BalanceClosedForm | src/app/tools/financial_tools.py:49-62 | at a non-zero sub-period rate r the loop's balance after k sub-periods equals the closed form in the source's comment, initial·(1+r)^k + deposit·((1+r)^k − 1)/r |
| CompoundInterest.ScheduleClosedForm | src/app/tools/financial_tools.py:49-70 | at a non-zero sub-period rate every row's balance equals that closed form taken after year·n sub-periods |
| Annuity.PaymentsSplit | src/app/tools/real_estate_tools.py:346-357 | after k simulated months, interest paid plus principal repaid is k payments |
| Annuity.ZeroRateNoInterest | src/app/tools/real_estate_tools.py:349-357 | at a zero monthly rate the simulation pays no interest |
| Annuity.RemainingClosedForm | src/app/tools/real_estate_tools.py:349-357 | the balance left after k months obeys the annuity closed form rate·remaining = loan·rate·(1+rate)^k − payment·((1+rate)^k − 1) |
| Annuity.DefinedAboveMinusOne | src/app/tools/real_estate_tools.py:337-339 | any rate above −100% a period and at least one period makes the payment formula well defined |
| Annuity.PaymentIsOutflow | src/app/tools/real_estate_tools.py:337-339 | for a non-negative loan and a rate above −100% the payment is never positive, so its absolute value is its negation |
| Annuity.ZeroRateAmortizes | src/app/tools/real_estate_tools.py:337-339 | at rate 0 the payment is the loan spread evenly and clears it over the term |
| Annuity.RateAmortizes | src/app/tools/real_estate_tools.py:337-339 | at a non-zero rate the annuity payment clears the loan over the term |
| Annuity.PaymentAmortizes | src/app/tools/real_estate_tools.py:337-339 | paying the payment every period for the whole term leaves nothing owed |
| RealEstateInput.LadderAtLeastFirst | src/app/tools/real_estate_tools.py:140-152 | a threshold ladder with ascending rates never gives less than its first rate |
| RealEstateInput.LadderMonotone | src/app/tools/real_estate_tools.py:140-152 | a threshold ladder with ascending rates is non-decreasing in its argument |
| RealEstateInput.IrpfIsLadder | src/app/tools/real_estate_tools.py:140-152 | the salary if-chain equals the ladder with thresholds 12450/20199/35199/59999/299999 |
| RealEstateInput.IrpfRateStepFunction | src/app/tools/real_estate_tools.py:140-152 | the IRPF rate is always one of 0.19, 0.24, 0.30, 0.37, 0.45, 0.47 and never falls as salary rises |
| RealEstateInput.RangeViolations | src/app/tools/real_estate_tools.py:90-101 | no bound is violated exactly when the loan-to-value ratio is in [0, 1] and the term is in [5, 40] years; "loan_to_value_ratio" is listed exactly when the ratio is out of range and "loan_term_years" exactly when the term is |
| RealEstateInput.ValidateRefuses | src/app/tools/real_estate_tools.py:90-172 | validation fails exactly on an out-of-range ratio or term, a variable mortgage missing margin or Euribor, or a fixed mortgage missing its rate, and names which |
| RealEstateInput.ValidateResolves | src/app/tools/real_estate_tools.py:123-175 | a validated record has maintenance, IRPF and the rate of its mortgage type present, as the calculation needs |
| RealEstateInput.ValidateDefaults | src/app/tools/real_estate_tools.py:126-152 | supplied maintenance and vacancy are kept, absent ones become 10% and 5% of the annual rent; rental protection becomes 5% of the annual rent exactly when the flag is Y and is untouched when N; the IRPF rate is always overwritten |
| RealEstateInput.ValidateFinancing | src/app/tools/real_estate_tools.py:155-172 | a variable mortgage's rate becomes margin plus Euribor; a fixed mortgage leaves the variable rate as supplied; the fixed rate is never changed |
| RealEstateInput.ValidateKeepsOtherFields | src/app/tools/real_estate_tools.py:123-175 | validation changes no field other than the five it derives |
| RealEstateInput.ValidateIdempotent | src/app/tools/real_estate_tools.py:123-175 | validating a validated record accepts it unchanged |
| RealEstateCalculator.CalculateItp | src/app/tools/real_estate_tools.py:277-308 | a name is accepted exactly when it is in the table, otherwise the error names it; the ITP to pay is price times the table percentage over 100 |
| RealEstateCalculator.EveryCommunityHasItp | src/app/tools/real_estate_tools.py:277-308 | each of the 19 accepted communities has a table entry, so the "not in the list" error cannot happen |
| RealEstateCalculator.Compute | src/app/tools/real_estate_tools.py:310-467 | on a validated record with non-zero denominators the calculation succeeds; the cash-flow group repeats the profitability cash flows and both groups report the same first-year interest |
| RealEstateCalculator.AcquisitionSplit | src/app/tools/real_estate_tools.py:324-325 | down payment plus loan is the price; with ratio in [0, 1] and non-negative price the loan lies between zero and the price |
| RealEstateCalculator.FinancingSplit | src/app/tools/real_estate_tools.py:336-406 | annual payment is 12 monthly payments and splits into first-year interest plus principal; the first-year simulation pays interest plus principal equal to the annual payment; a zero rate pays no first-year interest |
| RealEstateCalculator.MonthlyPaymentClearsLoan | src/app/tools/real_estate_tools.py:336-339 | for a non-negative loan and a rate above −100% the monthly payment repays the loan exactly over its term |
| RealEstateCalculator.TaxOnPositiveIncome | src/app/tools/real_estate_tools.py:377-390 | income tax is the IRPF rate on max(0, NOI − 2.5% of price), is never negative, is zero when NOI does not exceed the depreciation, and net income never exceeds NOI |
| RealEstateCalculator.ValidatedOperatingExpenses | src/app/tools/real_estate_tools.py:126-372 | for any accepted submission, the calculator's operating expenses are HOA, maintenance (10% of annual rent when absent), property insurance, life insurance (zero when absent), rental protection (5% of annual rent with flag Y, otherwise the supplied amount or zero), IBI, first-year interest and vacancy (5% of annual rent when absent) |
| RealEstateCalculator.OptimisticAddsBack | src/app/tools/real_estate_tools.py:392-424 | optimistic cash flow, yield and ROCE exceed the conservative ones by vacancy plus maintenance over 1, the acquisition cost and the upfront cost; conservative cash flow is net income less principal; gross yield times cost is the rent |
| RealEstateCalculator.ReportIdentities | src/app/tools/real_estate_tools.py:306-415 | of the whole report: the ITP amount is the price times the community's table percentage over 100, the gross yield times the acquisition cost is twelve months' rent, down payment plus loan is the price, principal plus interest is the annual payment, tax is non-negative, net income is at most NOI, and the optimistic figures exceed the conservative ones by vacancy plus maintenance |
| RealEstateCalculator.MadridPurchase | src/app/tools/real_estate_tools.py:306-325 | a 150000 purchase in the Comunidad de Madrid at 80% loan-to-value pays 9000 ITP and puts down 30000 |
| RealEstateCalculator.VariableRateDerivation | src/app/tools/real_estate_tools.py:164-166 | a variable mortgage at margin 1.5 over Euribor 2.0 is charged 3.5% a year, 3.5/100/12 a month |
| RealEstateCalculator.Analyze | src/app/tools/real_estate_tools.py:178-467 | the tool fails exactly when validation fails, with validation's error, before any figure is computed; on success it returns the calculation of the validated record, which is computable, so every report identity applies to the tool's result |

## Left out

- Floating-point rounding: everything is over exact reals. The rounded regression value 30711.21 in tests/unit_tests/test_tools.py is not restated.
- That regression test imports `compound_interest_calculator`, a name the source file does not define. The model follows the function `compound_interest` as written.
- `npf.pmt` is a foreign library call. `Annuity.Pmt` is the standard annuity formula for it, with no future value and payments at period end. The library itself is not verified.
- Annuity.Pmt: requires the formula to be defined: at least one period, and a growth factor (1+rate)^n different from 1 when the rate is non-zero. The library returns an infinity or NaN there. Every rate above −100% a month is covered (`Annuity.DefinedAboveMinusOne`).
- RealEstateCalculator.Compute: requires non-zero total acquisition and upfront costs, because the source divides by them without a guard. The two cases behave differently in the source. A zero total acquisition cost makes the gross-yield division (real_estate_tools.py:393) divide plain Python numbers, which raises `ZeroDivisionError`. A zero upfront cost with a non-zero total does not raise. The cash flows have numpy's float type by then, because the payment comes from `npf.pmt` and flows through the first-year loop. So the ROCE divisions (real_estate_tools.py:419-424) yield an infinity or NaN with a runtime warning, and the tool returns normally. The precondition therefore also excludes that completed run with an infinite or undefined ROCE. The model represents neither the exception nor the non-finite result.
- RealEstateCalculator.Analyze: requires the same division-safety conditions of the validated record, for the same reason.
- The `"analysis_category"` label strings of the five result groups are not stored. `Report` holds the five groups as named fields, in the order the tool returns them.
- `property_management_fee`, `total_mortgage_payments` and `total_interest_over_life` are computed by the source but never reported, so they are not modelled.
- Pydantic and LangChain plumbing is not modelled: the `@tool` decorator, the argument schema, and `Literal` coercion. Communities, the mortgage type and the Y/N flag are datatypes, so no string parsing of them is modelled. The ITP table is still keyed by the community's display name, as in the source.
- The `main` demo in financial_tools.py prints, so it is not modelled.
- The agent wiring, prompts, model calls and trajectory tests are not part of this model. This covers src/app/agent.py, src/app/simple_agent.py and the test agents.
- Console pretty-printing (src/app/utils.py) is not part of this model.
- The LangGraph `Command` arithmetic wrappers (src/app/tools/math.py) are not part of this model.
- Python's dynamic typing is not modelled: for example, a float passed as `years` where `range` would raise.
