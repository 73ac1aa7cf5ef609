/**
 * The real-estate profitability calculation: ITP by community,
 * acquisition total, financing split, level monthly payment, first-year
 * interest, operating expenses, income tax, yields, cash flows and ROCE.
 */
module RealEstateCalculator {
  import opened Wrappers
  import opened RealEstateInput
  import Annuity

  /** ITP (property-transfer tax) percentage by community name. */
  const ItpByCommunity: map<string, real> := map[
    "Andalucía" := 7.0,
    "Aragón" := 8.0,
    "Asturias" := 8.0,
    "Islas Baleares" := 8.0,
    "Canarias" := 6.5,
    "Cantabria" := 9.0,
    "Castilla-La Mancha" := 9.0,
    "Castilla y León" := 8.0,
    "Cataluña" := 10.0,
    "Ceuta" := 6.0,
    "Comunidad de Madrid" := 6.0,
    "Comunidad Valenciana" := 10.0,
    "Extremadura" := 8.0,
    "Galicia" := 8.0,
    "La Rioja" := 7.0,
    "Melilla" := 6.0,
    "Murcia" := 8.0,
    "Navarra" := 6.0,
    "País Vasco" := 7.0
  ]

  /**
   * The ITP rate (as a fraction) and the ITP to pay on a purchase; a name
   * missing from the table is refused.
   */
  function CalculateItp(community: string, purchasePrice: int): (r: Result<(real, real), Error>)
    ensures r.Ok? <==> community in ItpByCommunity
    ensures r.Err? ==> r.error == UnknownCommunity(community)
    ensures r.Ok? ==> r.value.1 == (purchasePrice as real) * (ItpByCommunity[community] / 100.0)
  {
    if community !in ItpByCommunity then Err(UnknownCommunity(community))
    else
      var itpRate := ItpByCommunity[community] / 100.0;
      Ok((itpRate, (purchasePrice as real) * itpRate))
  }

  /** Every community the record accepts has an ITP rate, so the lookup never fails. */
  lemma EveryCommunityHasItp(c: Community)
    ensures CommunityName(c) in ItpByCommunity
    ensures CalculateItp(CommunityName(c), 0).Ok?
  {
  }

  // ---------------------------------------------------------------------
  // Result groups
  // ---------------------------------------------------------------------

  datatype AcquisitionAnalysis = AcquisitionAnalysis(
    purchasePrice: int,
    itpTaxAmount: real,
    totalAcquisitionCost: real,
    downPayment: real,
    mortgageLoanAmount: real)

  datatype IncomeAndExpenses = IncomeAndExpenses(
    annualGrossRentalIncome: real,
    firstYearInterestExpense: real,
    totalAnnualOperatingExpenses: real,
    netOperatingIncome: real,
    incomeTaxOnRental: real,
    netIncomeAfterTaxes: real)

  datatype FinancingDetails = FinancingDetails(
    monthlyMortgagePayment: real,
    annualMortgagePayment: real,
    firstYearInterestExpense: real,
    annualPrincipalPayment: real)

  datatype ProfitabilityMetrics = ProfitabilityMetrics(
    grossRentalYield: real,
    netRentalYieldConservative: real,
    netRentalYieldOptimistic: real,
    annualCashFlowConservative: real,
    annualCashFlowOptimistic: real,
    roceConservative: real,
    roceOptimistic: real)

  datatype CashFlowAnalysis = CashFlowAnalysis(
    annualCashFlowConservative: real,
    annualCashFlowOptimistic: real)

  /**
   * The five result groups, in the order the tool returns them: property
   * acquisition analysis, annual income and operating expenses, mortgage
   * financing details, profitability metrics, cash flow analysis.
   */
  datatype Report = Report(
    acquisition: AcquisitionAnalysis,
    income: IncomeAndExpenses,
    financing: FinancingDetails,
    profitability: ProfitabilityMetrics,
    cashFlow: CashFlowAnalysis)

  // ---------------------------------------------------------------------
  // Pipeline steps
  // ---------------------------------------------------------------------

  /** The first-year interest is simulated payment by payment over this many months. */
  const FirstYearMonths: nat := 12

  /** Python's `x or 0` on an optional figure. */
  function OrZero(x: Option<real>): real {
    x.GetOr(0.0)
  }

  function Max(a: real, b: real): real {
    if a >= b then a else b
  }

  /** Purchase price plus ITP plus every one-off cost of the purchase and the mortgage. */
  function TotalAcquisitionCost(v: Input, itpToPay: real): real {
    (v.purchasePrice as real) + itpToPay + (v.notaryCost as real) + (v.registryCost as real)
    + (v.renovationCost as real) + (v.agencyCommission as real)
    + (v.mortgageManagementCost as real) + (v.mortgageAppraisalCost as real)
  }

  /** The financed part of the price. */
  function LoanAmount(v: Input): real {
    (v.purchasePrice as real) * v.loanToValueRatio
  }

  /** The annual percentage of the chosen mortgage type, as a monthly fraction. */
  function MonthlyInterestRate(v: Input): real
    requires Resolved(v)
  {
    match v.mortgageType
    case Variable => v.variableInterestRate.value / 100.0 / 12.0
    case Fixed => v.fixedInterestRate.value / 100.0 / 12.0
  }

  function NumberOfPayments(v: Input): nat
    requires Resolved(v)
  {
    v.loanTermYears * 12
  }

  /** Acquisition totals and the loan/down-payment split. */
  function Acquisition(v: Input, itpToPay: real): AcquisitionAnalysis {
    var loan := LoanAmount(v);
    AcquisitionAnalysis(v.purchasePrice, itpToPay, TotalAcquisitionCost(v, itpToPay),
                        (v.purchasePrice as real) - loan, loan)
  }

  /**
   * The level monthly payment (the absolute value of the annuity payment),
   * the annual payment, and the interest of the first twelve payments
   * simulated month by month.
   */
  function Financing(loan: real, monthlyRate: real, nper: nat): FinancingDetails
    requires Annuity.Defined(monthlyRate, nper)
  {
    var monthlyPayment := Annuity.Abs(Annuity.Pmt(monthlyRate, nper, loan));
    var annualPayment := monthlyPayment * 12.0;
    var firstYearInterest := Annuity.Months(loan, monthlyPayment, monthlyRate, FirstYearMonths).interestPaid;
    FinancingDetails(monthlyPayment, annualPayment, firstYearInterest, annualPayment - firstYearInterest)
  }

  /** Operating expenses, net operating income, income tax and net income. */
  function Income(v: Input, firstYearInterest: real): IncomeAndExpenses
    requires v.maintenanceCost.Some? && v.irpfTax.Some?
  {
    var annualGrossRentalIncome := AnnualRent(v);
    var operatingExpenses :=
      (v.homeownersAssociationFee as real) + v.maintenanceCost.value + (v.propertyInsurance as real)
      + (v.mortgageLifeInsurance.GetOr(0) as real) + OrZero(v.rentalProtectionInsurance)
      + (v.propertyTaxIbi as real) + firstYearInterest + OrZero(v.vacancyAllowance);
    var netOperatingIncome := annualGrossRentalIncome - operatingExpenses;
    var depreciation := 0.025 * (v.purchasePrice as real);
    var taxable := netOperatingIncome - depreciation;
    var incomeTax := Max(0.0, taxable) * v.irpfTax.value;
    IncomeAndExpenses(annualGrossRentalIncome, firstYearInterest, operatingExpenses,
                      netOperatingIncome, incomeTax, netOperatingIncome - incomeTax)
  }

  /**
   * Yields over the acquisition cost, cash flows after principal, and
   * ROCE over the upfront cost, each conservative and optimistic (vacancy
   * and maintenance added back).
   */
  function Profitability(a: AcquisitionAnalysis, i: IncomeAndExpenses, f: FinancingDetails,
                         vacancy: real, maintenance: real): ProfitabilityMetrics
    requires a.totalAcquisitionCost != 0.0
    requires a.totalAcquisitionCost - a.mortgageLoanAmount != 0.0
  {
    var total := a.totalAcquisitionCost;
    var net := i.netIncomeAfterTaxes;
    var cashFlowConservative := net - f.annualPrincipalPayment;
    var cashFlowOptimistic := cashFlowConservative + vacancy + maintenance;
    var upfront := total - a.mortgageLoanAmount;
    ProfitabilityMetrics(
      i.annualGrossRentalIncome / total,
      net / total,
      (net + vacancy + maintenance) / total,
      cashFlowConservative,
      cashFlowOptimistic,
      cashFlowConservative / upfront,
      cashFlowOptimistic / upfront)
  }

  /**
   * The ratios of the result have non-zero denominators: the total
   * acquisition cost and the upfront (non-financed) cost.
   */
  predicate RatiosDefined(v: Input) {
    match CalculateItp(CommunityName(v.community), v.purchasePrice)
    case Ok(itp) =>
      var total := TotalAcquisitionCost(v, itp.1);
      total != 0.0 && total - LoanAmount(v) != 0.0
    case Err(_) => true
  }

  /** A validated record on which nothing the calculation divides by is zero. */
  predicate Computable(v: Input) {
    && Resolved(v)
    && RatiosDefined(v)
    && Annuity.Defined(MonthlyInterestRate(v), NumberOfPayments(v))
  }

  /**
   * The calculation on a validated record: the steps above in order. It
   * looks the community up by name and would refuse a name missing from
   * the ITP table, which no accepted community is.
   */
  function Compute(v: Input): (r: Result<Report, Error>)
    requires Computable(v)
    ensures r.Ok?
    ensures r.value.cashFlow.annualCashFlowConservative == r.value.profitability.annualCashFlowConservative
    ensures r.value.cashFlow.annualCashFlowOptimistic == r.value.profitability.annualCashFlowOptimistic
    ensures r.value.income.firstYearInterestExpense == r.value.financing.firstYearInterestExpense
  {
    EveryCommunityHasItp(v.community);
    match CalculateItp(CommunityName(v.community), v.purchasePrice)
    case Err(e) => Err(e)
    case Ok(itp) =>
      var a := Acquisition(v, itp.1);
      var f := Financing(a.mortgageLoanAmount, MonthlyInterestRate(v), NumberOfPayments(v));
      var i := Income(v, f.firstYearInterestExpense);
      var p := Profitability(a, i, f, OrZero(v.vacancyAllowance), v.maintenanceCost.value);
      Ok(Report(a, i, f, p, CashFlowAnalysis(p.annualCashFlowConservative, p.annualCashFlowOptimistic)))
  }

  // ---------------------------------------------------------------------
  // Properties of the steps
  // ---------------------------------------------------------------------

  /** A fraction in [0, 1] of a non-negative whole lies between zero and the whole. */
  lemma FractionOfWhole(whole: real, fraction: real)
    requires whole >= 0.0 && 0.0 <= fraction <= 1.0
    ensures 0.0 <= whole * fraction <= whole
  {
  }

  /**
   * The down payment and the loan add up to the price, and with a
   * loan-to-value ratio in [0, 1] and a non-negative price the loan lies
   * between zero and the price.
   */
  lemma AcquisitionSplit(v: Input, itpToPay: real)
    ensures var a := Acquisition(v, itpToPay);
      && a.downPayment + a.mortgageLoanAmount == v.purchasePrice as real
      && (v.purchasePrice >= 0 && 0.0 <= v.loanToValueRatio <= 1.0 ==>
            0.0 <= a.mortgageLoanAmount <= v.purchasePrice as real)
  {
    if v.purchasePrice >= 0 && 0.0 <= v.loanToValueRatio <= 1.0 {
      FractionOfWhole(v.purchasePrice as real, v.loanToValueRatio);
    }
  }

  /**
   * The annual payment is twelve monthly payments and splits into
   * first-year interest and principal; the simulated first year pays
   * interest plus principal equal to twelve payments; a zero rate pays
   * no interest.
   */
  lemma FinancingSplit(loan: real, monthlyRate: real, nper: nat)
    requires Annuity.Defined(monthlyRate, nper)
    ensures var f := Financing(loan, monthlyRate, nper);
      && f.annualMortgagePayment == 12.0 * f.monthlyMortgagePayment
      && f.annualPrincipalPayment + f.firstYearInterestExpense == f.annualMortgagePayment
      && f.firstYearInterestExpense
           + (loan - Annuity.Months(loan, f.monthlyMortgagePayment, monthlyRate, FirstYearMonths).remaining)
         == f.annualMortgagePayment
      && (monthlyRate == 0.0 ==> f.firstYearInterestExpense == 0.0)
  {
    var payment := Financing(loan, monthlyRate, nper).monthlyMortgagePayment;
    Annuity.PaymentsSplit(loan, payment, monthlyRate, FirstYearMonths);
    if monthlyRate == 0.0 {
      Annuity.ZeroRateNoInterest(loan, payment, FirstYearMonths);
    }
  }

  /**
   * For a non-negative loan and a rate above -100% a month, the monthly
   * payment is the annuity payment that clears the loan over its term.
   */
  lemma MonthlyPaymentClearsLoan(loan: real, monthlyRate: real, nper: nat)
    requires loan >= 0.0 && monthlyRate > -1.0 && nper > 0
    ensures Annuity.Defined(monthlyRate, nper)
    ensures Annuity.Months(loan, Financing(loan, monthlyRate, nper).monthlyMortgagePayment, monthlyRate, nper).remaining
         == 0.0
  {
    Annuity.PaymentIsOutflow(monthlyRate, nper, loan);
    Annuity.PaymentAmortizes(monthlyRate, nper, loan);
  }

  lemma NonNegativeProduct(a: real, b: real)
    requires a >= 0.0 && b >= 0.0
    ensures a * b >= 0.0
  {
  }

  /**
   * Tax: the income tax is the IRPF rate on the positive part of net
   * operating income less 2.5% depreciation; with the IRPF rate of the
   * salary it is never negative, so net income after tax never exceeds
   * net operating income.
   */
  lemma TaxOnPositiveIncome(v: Input, firstYearInterest: real)
    requires v.maintenanceCost.Some? && v.irpfTax == Some(IrpfRate(v.annualGrossSalary))
    ensures var i := Income(v, firstYearInterest);
      && i.incomeTaxOnRental
           == Max(0.0, i.netOperatingIncome - 0.025 * (v.purchasePrice as real)) * IrpfRate(v.annualGrossSalary)
      && i.incomeTaxOnRental >= 0.0
      && i.netIncomeAfterTaxes <= i.netOperatingIncome
      && (i.netOperatingIncome <= 0.025 * (v.purchasePrice as real) ==> i.incomeTaxOnRental == 0.0)
  {
    var i := Income(v, firstYearInterest);
    IrpfRateStepFunction(v.annualGrossSalary, v.annualGrossSalary);
    NonNegativeProduct(Max(0.0, i.netOperatingIncome - 0.025 * (v.purchasePrice as real)), IrpfRate(v.annualGrossSalary));
  }

  /**
   * The operating expenses of a validated record in terms of what was
   * supplied: absent maintenance and vacancy count their defaults of 10%
   * and 5% of the annual rent; rental protection counts 5% of the annual
   * rent when the flag is Y, and otherwise whatever was supplied (zero
   * when nothing was); absent life insurance counts zero.
   */
  lemma ValidatedOperatingExpenses(raw: Input, firstYearInterest: real)
    requires Validate(raw).Ok?
    ensures Resolved(Validate(raw).value)
    ensures Income(Validate(raw).value, firstYearInterest).totalAnnualOperatingExpenses
         == (raw.homeownersAssociationFee as real)
            + raw.maintenanceCost.GetOr(0.10 * AnnualRent(raw))
            + (raw.propertyInsurance as real)
            + (raw.mortgageLifeInsurance.GetOr(0) as real)
            + (if raw.hasRentalProtectionInsurance == Y then AnnualRent(raw) * 0.05
               else OrZero(raw.rentalProtectionInsurance))
            + (raw.propertyTaxIbi as real)
            + firstYearInterest
            + raw.vacancyAllowance.GetOr(0.05 * AnnualRent(raw))
  {
    ValidateResolves(raw);
    ValidateDefaults(raw);
  }

  /** (a + b) / t - a / t == b / t on plain numbers. */
  lemma QuotientDifference(a: real, b: real, t: real)
    requires t != 0.0
    ensures (a + b) / t - a / t == b / t
  {
  }

  lemma QuotientTimesDivisor(a: real, t: real)
    requires t != 0.0
    ensures (a / t) * t == a
  {
  }

  /**
   * The optimistic scenario adds back vacancy and maintenance: its cash
   * flow exceeds the conservative one by exactly that sum, and its yield
   * and ROCE by that sum over the acquisition and upfront costs. The
   * conservative cash flow is net income less the principal repaid, and
   * the gross yield is rent over acquisition cost with no adjustment.
   */
  lemma OptimisticAddsBack(a: AcquisitionAnalysis, i: IncomeAndExpenses, f: FinancingDetails,
                           vacancy: real, maintenance: real)
    requires a.totalAcquisitionCost != 0.0
    requires a.totalAcquisitionCost - a.mortgageLoanAmount != 0.0
    ensures var p := Profitability(a, i, f, vacancy, maintenance);
      var upfront := a.totalAcquisitionCost - a.mortgageLoanAmount;
      && p.annualCashFlowOptimistic - p.annualCashFlowConservative == vacancy + maintenance
      && p.netRentalYieldOptimistic - p.netRentalYieldConservative == (vacancy + maintenance) / a.totalAcquisitionCost
      && p.roceOptimistic - p.roceConservative == (vacancy + maintenance) / upfront
      && p.annualCashFlowConservative == i.netIncomeAfterTaxes - f.annualPrincipalPayment
      && p.roceConservative * upfront == p.annualCashFlowConservative
      && p.grossRentalYield * a.totalAcquisitionCost == i.annualGrossRentalIncome
  {
    var p := Profitability(a, i, f, vacancy, maintenance);
    var total := a.totalAcquisitionCost;
    var upfront := total - a.mortgageLoanAmount;
    var net := i.netIncomeAfterTaxes;
    assert net + vacancy + maintenance == net + (vacancy + maintenance);
    QuotientDifference(net, vacancy + maintenance, total);
    QuotientDifference(p.annualCashFlowConservative, vacancy + maintenance, upfront);
    QuotientTimesDivisor(p.annualCashFlowConservative, upfront);
    QuotientTimesDivisor(i.annualGrossRentalIncome, total);
  }

  /**
   * The report unfolded into its steps: each group is the step that
   * computes it, applied to the groups before it.
   */
  lemma ComputeIsSteps(v: Input)
    requires Computable(v)
    ensures CommunityName(v.community) in ItpByCommunity
    ensures var r := Compute(v).value;
      && r.acquisition.itpTaxAmount
           == (v.purchasePrice as real) * (ItpByCommunity[CommunityName(v.community)] / 100.0)
      && r.acquisition == Acquisition(v, r.acquisition.itpTaxAmount)
      && r.financing == Financing(r.acquisition.mortgageLoanAmount, MonthlyInterestRate(v), NumberOfPayments(v))
      && r.income == Income(v, r.financing.firstYearInterestExpense)
      && r.profitability == Profitability(r.acquisition, r.income, r.financing,
                                          OrZero(v.vacancyAllowance), v.maintenanceCost.value)
  {
    EveryCommunityHasItp(v.community);
  }

  /**
   * The report-level identities: the financing split, tax never
   * negative, net income at most net operating income, and the optimistic
   * scenario exceeding the conservative one by vacancy plus maintenance.
   */
  lemma ReportIdentities(v: Input)
    requires Computable(v)
    ensures CommunityName(v.community) in ItpByCommunity
    ensures var r := Compute(v).value;
      && r.acquisition.itpTaxAmount
           == (v.purchasePrice as real) * (ItpByCommunity[CommunityName(v.community)] / 100.0)
      && r.acquisition.downPayment + r.acquisition.mortgageLoanAmount == v.purchasePrice as real
      && r.profitability.grossRentalYield * r.acquisition.totalAcquisitionCost == AnnualRent(v)
      && r.financing.annualPrincipalPayment + r.financing.firstYearInterestExpense == r.financing.annualMortgagePayment
      && r.income.incomeTaxOnRental >= 0.0
      && r.income.netIncomeAfterTaxes <= r.income.netOperatingIncome
      && r.profitability.annualCashFlowOptimistic - r.profitability.annualCashFlowConservative
           == OrZero(v.vacancyAllowance) + v.maintenanceCost.value
      && r.profitability.netRentalYieldOptimistic - r.profitability.netRentalYieldConservative
           == (OrZero(v.vacancyAllowance) + v.maintenanceCost.value) / r.acquisition.totalAcquisitionCost
  {
    ComputeIsSteps(v);
    var r := Compute(v).value;
    AcquisitionSplit(v, r.acquisition.itpTaxAmount);
    FinancingSplit(r.acquisition.mortgageLoanAmount, MonthlyInterestRate(v), NumberOfPayments(v));
    TaxOnPositiveIncome(v, r.financing.firstYearInterestExpense);
    OptimisticAddsBack(r.acquisition, r.income, r.financing, OrZero(v.vacancyAllowance), v.maintenanceCost.value);
  }

  /**
   * A purchase of 150000 in the Comunidad de Madrid at 80% loan-to-value
   * pays 6% ITP, 9000, and puts down 30000.
   */
  lemma MadridPurchase(v: Input)
    requires Computable(v)
    requires v.purchasePrice == 150000 && v.community == ComunidadDeMadrid && v.loanToValueRatio == 0.8
    ensures Compute(v).value.acquisition.itpTaxAmount == 9000.0
    ensures Compute(v).value.acquisition.downPayment == 30000.0
  {
    assert ItpByCommunity["Comunidad de Madrid"] == 6.0;
  }

  /**
   * A variable mortgage at margin 1.5 over a Euribor of 2.0 is charged
   * 3.5% a year, so 3.5 / 100 / 12 a month.
   */
  lemma VariableRateDerivation(raw: Input)
    requires Validate(raw).Ok?
    requires raw.mortgageType == Variable && raw.mortgageMargin == Some(1.5) && raw.euriborRate == Some(2.0)
    ensures Validate(raw).value.variableInterestRate == Some(3.5)
    ensures Resolved(Validate(raw).value) && MonthlyInterestRate(Validate(raw).value) == 3.5 / 100.0 / 12.0
  {
    ValidateResolves(raw);
  }

  // ---------------------------------------------------------------------
  // The tool as a whole
  // ---------------------------------------------------------------------

  /** The record validates to something the calculation can divide through. */
  predicate AnalyzeDefined(raw: Input) {
    Validate(raw).Ok? ==>
      && RatiosDefined(Validate(raw).value)
      && (ValidateResolves(raw);
          Annuity.Defined(MonthlyInterestRate(Validate(raw).value), NumberOfPayments(Validate(raw).value)))
  }

  /**
   * The tool: validate the record, then calculate. It fails exactly when
   * validation fails, with validation's error, before any figure is
   * computed.
   */
  function Analyze(raw: Input): (r: Result<Report, Error>)
    requires AnalyzeDefined(raw)
    ensures r.Err? <==> Validate(raw).Err?
    ensures r.Err? ==> r.error == Validate(raw).error
    ensures r.Ok? ==> Computable(Validate(raw).value) && r == Compute(Validate(raw).value)
  {
    var v :- Validate(raw);
    ValidateResolves(raw);
    Compute(v)
  }
}
