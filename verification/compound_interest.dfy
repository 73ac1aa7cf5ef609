/**
 * The compound-interest projector: a balance that earns interest and
 * receives a fixed deposit every sub-period, summarised once per year.
 */
module CompoundInterest {
  import opened Wrappers
  import Annuity

  /** One row of the projection, as emitted at the end of each year. */
  datatype YearSummary = YearSummary(
    year: int,
    initialBalance: real,
    totalDeposit: real,
    totalInterest: real,
    balance: real)

  datatype Error = InvalidFrequency(frequency: string)

  /** The running totals the projector carries from sub-period to sub-period. */
  datatype Accumulators = Accumulators(balance: real, accDeposit: real, accInterest: real)

  function Start(initialBalance: real): Accumulators {
    Accumulators(initialBalance, 0.0, 0.0)
  }

  /** Sub-periods per year for a deposit frequency; any other frequency is refused. */
  function SubPeriods(frequency: string): (r: Result<nat, Error>)
    ensures r.Ok? <==> frequency in {"weekly", "monthly", "annually"}
    ensures r.Ok? ==> r.value in {52, 12, 1}
    ensures frequency == "weekly" ==> r == Ok(52)
    ensures frequency == "monthly" ==> r == Ok(12)
    ensures frequency == "annually" ==> r == Ok(1)
    ensures r.Err? ==> r.error == InvalidFrequency(frequency)
  {
    if frequency == "weekly" then Ok(52)
    else if frequency == "monthly" then Ok(12)
    else if frequency == "annually" then Ok(1)
    else Err(InvalidFrequency(frequency))
  }

  /**
   * One sub-period: interest accrues on the balance as it stands before
   * this period's deposit, then deposit and interest are both added.
   */
  function Period(a: Accumulators, deposit: real, periodRate: real): Accumulators {
    var interest := a.balance * periodRate;
    Accumulators(a.balance + deposit + interest, a.accDeposit + deposit, a.accInterest + interest)
  }

  /** The accumulators after `k` sub-periods. */
  function Periods(a: Accumulators, deposit: real, periodRate: real, k: nat): Accumulators
    decreases k
  {
    if k == 0 then a else Period(Periods(a, deposit, periodRate, k - 1), deposit, periodRate)
  }

  /** The summary row for `year`, taken after `year * n` sub-periods. */
  function Row(initialBalance: real, deposit: real, periodRate: real, n: nat, year: nat): YearSummary {
    var a := Periods(Start(initialBalance), deposit, periodRate, year * n);
    YearSummary(year, initialBalance, a.accDeposit, a.accInterest, a.balance)
  }

  /** Reference definition of the whole projection: rows for years 1..years. */
  function Schedule(initialBalance: real, deposit: real, periodRate: real, n: nat, years: nat): seq<YearSummary>
    decreases years
  {
    if years == 0 then []
    else Schedule(initialBalance, deposit, periodRate, n, years - 1) + [Row(initialBalance, deposit, periodRate, n, years)]
  }

  function YearCount(years: int): nat {
    if years > 0 then years else 0
  }

  /**
   * What the projector's rows report: one row per year numbered from 1 in
   * order, each echoing the initial balance, with the deposits of its
   * year * n sub-periods and a balance that is the initial balance plus
   * everything deposited plus everything earned.
   */
  predicate SummarisesYears(rows: seq<YearSummary>, initialBalance: real, deposit: real, n: nat, years: nat) {
    && |rows| == years
    && forall k :: 0 <= k < |rows| ==>
      && rows[k].year == k + 1
      && rows[k].initialBalance == initialBalance
      && rows[k].totalDeposit == ((k + 1) * n) as real * deposit
      && rows[k].balance == initialBalance + rows[k].totalDeposit + rows[k].totalInterest
  }

  /** The per-sub-period rate: the annual percentage as a fraction, split over `n` sub-periods. */
  function PeriodRate(interestRate: real, n: nat): real
    requires n > 0
  {
    (interestRate / 100.0) / (n as real)
  }

  /** The schedule has one row per year, numbered 1..years, each taken after year*n sub-periods. */
  lemma {:induction false} ScheduleRows(initialBalance: real, deposit: real, periodRate: real, n: nat, years: nat)
    ensures |Schedule(initialBalance, deposit, periodRate, n, years)| == years
    ensures forall k :: 0 <= k < years ==>
      Schedule(initialBalance, deposit, periodRate, n, years)[k] == Row(initialBalance, deposit, periodRate, n, k + 1)
  {
    if years > 0 {
      ScheduleRows(initialBalance, deposit, periodRate, n, years - 1);
    }
  }

  /**
   * The accumulator identities: after k sub-periods the deposits total
   * k * deposit and the balance is the initial balance plus everything
   * deposited plus everything earned.
   */
  lemma {:induction false} PeriodsIdentities(initialBalance: real, deposit: real, periodRate: real, k: nat)
    ensures Periods(Start(initialBalance), deposit, periodRate, k).accDeposit == (k as real) * deposit
    ensures var a := Periods(Start(initialBalance), deposit, periodRate, k);
      a.balance == initialBalance + a.accDeposit + a.accInterest
  {
    if k > 0 {
      PeriodsIdentities(initialBalance, deposit, periodRate, k - 1);
    }
  }

  /** The identities as they appear in the row for `year`. */
  lemma RowIdentities(initialBalance: real, deposit: real, periodRate: real, n: nat, year: nat)
    ensures var row := Row(initialBalance, deposit, periodRate, n, year);
      && row.year == year
      && row.initialBalance == initialBalance
      && row.totalDeposit == (year * n) as real * deposit
      && row.balance == initialBalance + row.totalDeposit + row.totalInterest
  {
    var m := year * n;
    PeriodsIdentities(initialBalance, deposit, periodRate, m);
  }

  /** With a zero rate nothing is ever earned. */
  lemma {:induction false} ZeroRateEarnsNothing(initialBalance: real, deposit: real, k: nat)
    ensures Periods(Start(initialBalance), deposit, 0.0, k).accInterest == 0.0
    ensures Periods(Start(initialBalance), deposit, 0.0, k).balance == initialBalance + (k as real) * deposit
  {
    if k > 0 {
      ZeroRateEarnsNothing(initialBalance, deposit, k - 1);
    }
  }

  /** With non-negative balance, deposit and rate the balance stays non-negative. */
  lemma {:induction false} BalanceNonNegative(initialBalance: real, deposit: real, periodRate: real, k: nat)
    requires initialBalance >= 0.0 && deposit >= 0.0 && periodRate >= 0.0
    ensures Periods(Start(initialBalance), deposit, periodRate, k).balance >= 0.0
  {
    if k > 0 {
      BalanceNonNegative(initialBalance, deposit, periodRate, k - 1);
      var b := Periods(Start(initialBalance), deposit, periodRate, k - 1).balance;
      assert b * periodRate >= 0.0;
    }
  }

  /** With non-negative balance, deposit and rate the balance never shrinks. */
  lemma {:induction false} BalanceNonDecreasing(initialBalance: real, deposit: real, periodRate: real, j: nat, k: nat)
    requires initialBalance >= 0.0 && deposit >= 0.0 && periodRate >= 0.0
    requires j <= k
    ensures Periods(Start(initialBalance), deposit, periodRate, j).balance
         <= Periods(Start(initialBalance), deposit, periodRate, k).balance
    decreases k
  {
    if j < k {
      BalanceNonDecreasing(initialBalance, deposit, periodRate, j, k - 1);
      BalanceNonNegative(initialBalance, deposit, periodRate, k - 1);
      var b := Periods(Start(initialBalance), deposit, periodRate, k - 1).balance;
      assert b * periodRate >= 0.0;
    }
  }

  /**
   * Every row of the schedule: its year number, the echoed initial
   * balance, the deposits made so far, and the balance identity.
   */
  lemma ScheduleProperties(initialBalance: real, deposit: real, periodRate: real, n: nat, years: nat)
    ensures SummarisesYears(Schedule(initialBalance, deposit, periodRate, n, years), initialBalance, deposit, n, years)
  {
    ScheduleRows(initialBalance, deposit, periodRate, n, years);
    forall year | 1 <= year <= years
      ensures Row(initialBalance, deposit, periodRate, n, year).totalDeposit == (year * n) as real * deposit
      ensures var row := Row(initialBalance, deposit, periodRate, n, year);
        row.balance == initialBalance + row.totalDeposit + row.totalInterest
    {
      RowIdentities(initialBalance, deposit, periodRate, n, year);
    }
  }

  /** With a zero rate every row reports zero interest. */
  lemma ScheduleWithoutInterest(initialBalance: real, deposit: real, n: nat, years: nat)
    ensures var rows := Schedule(initialBalance, deposit, 0.0, n, years);
      forall k :: 0 <= k < |rows| ==> rows[k].totalInterest == 0.0 && rows[k].balance == initialBalance + rows[k].totalDeposit
  {
    ScheduleRows(initialBalance, deposit, 0.0, n, years);
    forall year | 1 <= year <= years
      ensures var row := Row(initialBalance, deposit, 0.0, n, year);
        row.totalInterest == 0.0 && row.balance == initialBalance + row.totalDeposit
    {
      ZeroRateEarnsNothing(initialBalance, deposit, year * n);
      PeriodsIdentities(initialBalance, deposit, 0.0, year * n);
    }
  }

  /** With non-negative inputs a later year's row has at least the balance of an earlier one. */
  lemma RowBalancesAscend(initialBalance: real, deposit: real, periodRate: real, n: nat, y1: nat, y2: nat)
    requires initialBalance >= 0.0 && deposit >= 0.0 && periodRate >= 0.0
    requires y1 <= y2
    ensures Row(initialBalance, deposit, periodRate, n, y1).balance
         <= Row(initialBalance, deposit, periodRate, n, y2).balance
  {
    var j, k := y1 * n, y2 * n;
    assert j <= k by {
      assert y2 * n == y1 * n + (y2 - y1) * n;
    }
    BalanceNonDecreasing(initialBalance, deposit, periodRate, j, k);
  }

  /** With non-negative balance, deposit and rate, balances never fall from one row to a later one. */
  lemma ScheduleBalancesAscend(initialBalance: real, deposit: real, periodRate: real, n: nat, years: nat)
    requires initialBalance >= 0.0 && deposit >= 0.0 && periodRate >= 0.0
    ensures var rows := Schedule(initialBalance, deposit, periodRate, n, years);
      forall j, k :: 0 <= j <= k < |rows| ==> rows[j].balance <= rows[k].balance
  {
    ScheduleRows(initialBalance, deposit, periodRate, n, years);
    forall y1, y2 | 1 <= y1 <= y2 <= years
      ensures Row(initialBalance, deposit, periodRate, n, y1).balance
           <= Row(initialBalance, deposit, periodRate, n, y2).balance
    {
      RowBalancesAscend(initialBalance, deposit, periodRate, n, y1, y2);
    }
  }

  /**
   * Adding one year appends exactly one row and keeps the earlier ones;
   * with non-negative inputs the new row's balance is at least the
   * previous year's.
   */
  lemma ScheduleExtends(initialBalance: real, deposit: real, periodRate: real, n: nat, years: nat)
    ensures var longer := Schedule(initialBalance, deposit, periodRate, n, years + 1);
      var shorter := Schedule(initialBalance, deposit, periodRate, n, years);
      && |longer| == years + 1
      && |shorter| == years
      && longer[..years] == shorter
    ensures var longer := Schedule(initialBalance, deposit, periodRate, n, years + 1);
      var shorter := Schedule(initialBalance, deposit, periodRate, n, years);
      years >= 1 && initialBalance >= 0.0 && deposit >= 0.0 && periodRate >= 0.0 ==>
        |shorter| == years && longer[years].balance >= shorter[years - 1].balance
  {
    ScheduleRows(initialBalance, deposit, periodRate, n, years + 1);
    ScheduleRows(initialBalance, deposit, periodRate, n, years);
    if years >= 1 && initialBalance >= 0.0 && deposit >= 0.0 && periodRate >= 0.0 {
      RowBalancesAscend(initialBalance, deposit, periodRate, n, years, years + 1);
    }
  }

  /** Running `j` and then `k` more sub-periods is running `j + k` sub-periods. */
  lemma {:induction false} PeriodsCompose(a: Accumulators, deposit: real, periodRate: real, j: nat, k: nat)
    ensures Periods(Periods(a, deposit, periodRate, j), deposit, periodRate, k) == Periods(a, deposit, periodRate, j + k)
    decreases k
  {
    if k > 0 {
      PeriodsCompose(a, deposit, periodRate, j, k - 1);
    }
  }

  /**
   * A deposit is a loan payment with its sign reversed: the balance after
   * k sub-periods is what a loan of the initial balance would still owe
   * after k payments of minus the deposit at the same rate.
   */
  lemma {:induction false} BalanceIsReversedLoan(initialBalance: real, deposit: real, periodRate: real, k: nat)
    ensures Periods(Start(initialBalance), deposit, periodRate, k).balance
         == Annuity.Months(initialBalance, -deposit, periodRate, k).remaining
  {
    if k > 0 {
      BalanceIsReversedLoan(initialBalance, deposit, periodRate, k - 1);
    }
  }

  /**
   * The balance a growth factor g = (1 + r)^k implies at a non-zero
   * sub-period rate r: initial * g + deposit * (g - 1) / r.
   */
  function GrownBalance(initialBalance: real, deposit: real, rate: real, growth: real): real
    requires rate != 0.0
  {
    initialBalance * growth + deposit * (growth - 1.0) / rate
  }

  /** The closed form of the balance after k sub-periods at a non-zero sub-period rate r. */
  function ClosedFormBalance(initialBalance: real, deposit: real, rate: real, k: nat): real
    requires rate != 0.0
  {
    GrownBalance(initialBalance, deposit, rate, Annuity.Pow(1.0 + rate, k))
  }

  /** Dividing the scaled closed form through by a non-zero rate. */
  lemma SolveClosedForm(rate: real, balance: real, initialBalance: real, growth: real, deposit: real)
    requires rate != 0.0
    requires Annuity.ClosedForm(rate, balance, initialBalance, growth, -deposit)
    ensures balance == GrownBalance(initialBalance, deposit, rate, growth)
  {
    assert rate * balance == rate * (initialBalance * growth) + deposit * (growth - 1.0);
  }

  /**
   * The closed form of the projection: at a non-zero sub-period rate r the
   * balance after k sub-periods is
   * initial * (1 + r)^k + deposit * ((1 + r)^k - 1) / r.
   */
  lemma BalanceClosedForm(initialBalance: real, deposit: real, periodRate: real, k: nat)
    requires periodRate != 0.0
    ensures Periods(Start(initialBalance), deposit, periodRate, k).balance
         == ClosedFormBalance(initialBalance, deposit, periodRate, k)
  {
    BalanceIsReversedLoan(initialBalance, deposit, periodRate, k);
    Annuity.RemainingClosedForm(initialBalance, -deposit, periodRate, k);
    SolveClosedForm(periodRate, Periods(Start(initialBalance), deposit, periodRate, k).balance,
                    initialBalance, Annuity.Pow(1.0 + periodRate, k), deposit);
  }

  /** Every row's balance agrees with the closed form taken after year * n sub-periods. */
  lemma ScheduleClosedForm(initialBalance: real, deposit: real, periodRate: real, n: nat, years: nat)
    requires periodRate != 0.0
    ensures var rows := Schedule(initialBalance, deposit, periodRate, n, years);
      forall k :: 0 <= k < |rows| ==>
        rows[k].balance == ClosedFormBalance(initialBalance, deposit, periodRate, (k + 1) * n)
  {
    ScheduleRows(initialBalance, deposit, periodRate, n, years);
    forall year | 1 <= year <= years
      ensures Row(initialBalance, deposit, periodRate, n, year).balance
           == ClosedFormBalance(initialBalance, deposit, periodRate, year * n)
    {
      BalanceClosedForm(initialBalance, deposit, periodRate, year * n);
    }
  }

  /** The inner loop of the projector: the `n` sub-periods of one year. */
  method RunYear(balance0: real, accDeposit0: real, accInterest0: real, periodicDeposit: real, periodRate: real, n: nat)
    returns (balance: real, accDeposit: real, accInterest: real)
    ensures Accumulators(balance, accDeposit, accInterest)
         == Periods(Accumulators(balance0, accDeposit0, accInterest0), periodicDeposit, periodRate, n)
  {
    balance, accDeposit, accInterest := balance0, accDeposit0, accInterest0;
    var period := 0;
    while period < n
      invariant 0 <= period <= n
      invariant Accumulators(balance, accDeposit, accInterest)
             == Periods(Accumulators(balance0, accDeposit0, accInterest0), periodicDeposit, periodRate, period)
    {
      var interest := balance * periodRate;
      balance := balance + periodicDeposit + interest;
      accDeposit := accDeposit + periodicDeposit;
      accInterest := accInterest + interest;
      period := period + 1;
    }
  }

  /**
   * The year loop of the projector: `years` rounds of `n` sub-periods,
   * one summary row appended after each round.
   */
  method Accumulate(initialBalance: real, periodicDeposit: real, periodRate: real, n: nat, years: int)
    returns (data: seq<YearSummary>)
    ensures data == Schedule(initialBalance, periodicDeposit, periodRate, n, YearCount(years))
  {
    data := [];
    var accDeposit := 0.0;
    var accInterest := 0.0;
    var balance := initialBalance;

    var year := 1;
    while year <= years
      invariant 1 <= year <= YearCount(years) + 1
      invariant data == Schedule(initialBalance, periodicDeposit, periodRate, n, year - 1)
      invariant Accumulators(balance, accDeposit, accInterest)
             == Periods(Start(initialBalance), periodicDeposit, periodRate, (year - 1) * n)
    {
      ghost var before := (year - 1) * n;
      balance, accDeposit, accInterest := RunYear(balance, accDeposit, accInterest, periodicDeposit, periodRate, n);
      PeriodsCompose(Start(initialBalance), periodicDeposit, periodRate, before, n);
      assert before + n == year * n;
      data := data + [YearSummary(year, initialBalance, accDeposit, accInterest, balance)];
      year := year + 1;
    }
  }

  /**
   * What the projector promises of the schedule it returns for `n`
   * sub-periods a year at an annual rate of `interestRate` percent: one
   * row per year, each echoing the initial balance and satisfying the
   * accumulator identities; no interest at a zero rate; and, with
   * non-negative inputs, balances that never fall from year to year.
   */
  lemma ProjectionRows(initialBalance: real, periodicDeposit: real, interestRate: real, n: nat, years: int)
    requires n > 0
    ensures var rows := Schedule(initialBalance, periodicDeposit, PeriodRate(interestRate, n), n, YearCount(years));
      && SummarisesYears(rows, initialBalance, periodicDeposit, n, YearCount(years))
      && (interestRate == 0.0 ==> forall k :: 0 <= k < |rows| ==> rows[k].totalInterest == 0.0)
      && (initialBalance >= 0.0 && periodicDeposit >= 0.0 && interestRate >= 0.0 ==>
        forall j, k :: 0 <= j <= k < |rows| ==> rows[j].balance <= rows[k].balance)
  {
    var periodRate := PeriodRate(interestRate, n);
    ScheduleProperties(initialBalance, periodicDeposit, periodRate, n, YearCount(years));
    if interestRate == 0.0 {
      assert periodRate == 0.0;
      ScheduleWithoutInterest(initialBalance, periodicDeposit, n, YearCount(years));
    }
    if initialBalance >= 0.0 && periodicDeposit >= 0.0 && interestRate >= 0.0 {
      assert periodRate >= 0.0;
      ScheduleBalancesAscend(initialBalance, periodicDeposit, periodRate, n, YearCount(years));
    }
  }

  /**
   * The projector. An unknown frequency is refused before any row is
   * produced; otherwise there is one row per year 1..years (none when
   * years <= 0), each echoing the initial balance and satisfying the
   * accumulator identities.
   */
  method Project(initialBalance: real, periodicDeposit: real, depositFrequency: string, interestRate: real, years: int)
    returns (r: Result<seq<YearSummary>, Error>)
    ensures r.Err? <==> depositFrequency !in {"weekly", "monthly", "annually"}
    ensures r.Err? ==> r.error == InvalidFrequency(depositFrequency)
    ensures r.Ok? ==>
      var n := SubPeriods(depositFrequency).value;
      && r.value == Schedule(initialBalance, periodicDeposit, PeriodRate(interestRate, n), n, YearCount(years))
      && SummarisesYears(r.value, initialBalance, periodicDeposit, n, YearCount(years))
      && (interestRate == 0.0 ==> forall k :: 0 <= k < |r.value| ==> r.value[k].totalInterest == 0.0)
      && (initialBalance >= 0.0 && periodicDeposit >= 0.0 && interestRate >= 0.0 ==>
        forall j, k :: 0 <= j <= k < |r.value| ==> r.value[j].balance <= r.value[k].balance)
  {
    var sub := SubPeriods(depositFrequency);
    if sub.Err? {
      return Err(sub.error);
    }
    var n := sub.value;
    var data := Accumulate(initialBalance, periodicDeposit, PeriodRate(interestRate, n), n, years);
    ProjectionRows(initialBalance, periodicDeposit, interestRate, n, years);
    r := Ok(data);
  }
}
