/**
 * The input record of the Spanish real-estate profitability analyzer and
 * its validation: field range checks, derived defaults, the IRPF bracket
 * ladder and the fixed/variable mortgage consistency check.
 */
module RealEstateInput {
  import opened Wrappers

  /** The nineteen autonomous communities and cities the record accepts. */
  datatype Community =
    | Andalucia | Aragon | Asturias | IslasBaleares | Canarias
    | Cantabria | CastillaLaMancha | CastillaYLeon | Cataluna
    | ComunidadValenciana | Extremadura | Galicia
    | ComunidadDeMadrid | Murcia | Navarra | PaisVasco
    | LaRioja | Ceuta | Melilla

  /** The name by which a community is written in the record. */
  function CommunityName(c: Community): string {
    match c
    case Andalucia => "Andalucía"
    case Aragon => "Aragón"
    case Asturias => "Asturias"
    case IslasBaleares => "Islas Baleares"
    case Canarias => "Canarias"
    case Cantabria => "Cantabria"
    case CastillaLaMancha => "Castilla-La Mancha"
    case CastillaYLeon => "Castilla y León"
    case Cataluna => "Cataluña"
    case ComunidadValenciana => "Comunidad Valenciana"
    case Extremadura => "Extremadura"
    case Galicia => "Galicia"
    case ComunidadDeMadrid => "Comunidad de Madrid"
    case Murcia => "Murcia"
    case Navarra => "Navarra"
    case PaisVasco => "País Vasco"
    case LaRioja => "La Rioja"
    case Ceuta => "Ceuta"
    case Melilla => "Melilla"
  }

  datatype MortgageType = Fixed | Variable

  /** The Y/N flag for rental protection insurance. */
  datatype Flag = Y | N

  /**
   * One property scenario. Fields typed `int` in the record are `int`
   * here; optional fields are `Option`s.
   */
  datatype Input = Input(
    purchasePrice: int,
    community: Community,
    notaryCost: int,
    registryCost: int,
    renovationCost: int,
    agencyCommission: int,
    mortgageManagementCost: int,
    mortgageAppraisalCost: int,
    monthlyRentalIncome: int,
    maintenanceCost: Option<real>,
    homeownersAssociationFee: int,
    propertyInsurance: int,
    mortgageLifeInsurance: Option<int>,
    hasRentalProtectionInsurance: Flag,
    rentalProtectionInsurance: Option<real>,
    propertyTaxIbi: int,
    vacancyAllowance: Option<real>,
    annualGrossSalary: int,
    irpfTax: Option<real>,
    loanToValueRatio: real,
    loanTermYears: int,
    mortgageType: MortgageType,
    mortgageMargin: Option<real>,
    euriborRate: Option<real>,
    fixedInterestRate: Option<real>,
    variableInterestRate: Option<real>)

  /** Why a record or a calculation is refused. */
  datatype Error =
    | OutOfRange(fields: seq<string>)
    | MissingVariableRateParts
    | MissingFixedRate
    | UnknownCommunity(name: string)

  // ---------------------------------------------------------------------
  // IRPF bracket ladder
  // ---------------------------------------------------------------------

  /** The owner's marginal IRPF rate for an annual gross salary. */
  function IrpfRate(salary: int): real {
    if salary <= 12450 then 0.19
    else if salary <= 20199 then 0.24
    else if salary <= 35199 then 0.30
    else if salary <= 59999 then 0.37
    else if salary <= 299999 then 0.45
    else 0.47
  }

  /** The ladder as data: (upper salary bound, rate) per bracket, then the top rate. */
  const IrpfBrackets: seq<(int, real)> :=
    [(12450, 0.19), (20199, 0.24), (35199, 0.30), (59999, 0.37), (299999, 0.45)]
  const IrpfTopRate: real := 0.47

  /** A threshold ladder: the rate of the first bracket whose bound is not exceeded. */
  function Ladder(brackets: seq<(int, real)>, top: real, x: int): real
    decreases |brackets|
  {
    if brackets == [] then top
    else if x <= brackets[0].0 then brackets[0].1
    else Ladder(brackets[1..], top, x)
  }

  /** Rates never fall from one bracket to the next, nor to the top rate. */
  predicate RatesAscend(brackets: seq<(int, real)>, top: real)
    decreases |brackets|
  {
    if brackets == [] then true
    else
      var next := if |brackets| == 1 then top else brackets[1].1;
      brackets[0].1 <= next && RatesAscend(brackets[1..], top)
  }

  /** Every value a ladder with ascending rates returns is at least its first rate. */
  lemma {:induction false} LadderAtLeastFirst(brackets: seq<(int, real)>, top: real, x: int)
    requires brackets != [] && RatesAscend(brackets, top)
    ensures Ladder(brackets, top, x) >= brackets[0].1
    decreases |brackets|
  {
    if x > brackets[0].0 && |brackets| > 1 {
      LadderAtLeastFirst(brackets[1..], top, x);
    }
  }

  /** A ladder with ascending rates is non-decreasing in its argument. */
  lemma {:induction false} LadderMonotone(brackets: seq<(int, real)>, top: real, x: int, y: int)
    requires RatesAscend(brackets, top) && x <= y
    ensures Ladder(brackets, top, x) <= Ladder(brackets, top, y)
    decreases |brackets|
  {
    if brackets != [] {
      if x <= brackets[0].0 {
        LadderAtLeastFirst(brackets, top, y);
      } else {
        LadderMonotone(brackets[1..], top, x, y);
      }
    }
  }

  /** The written-out if-chain is exactly the bracket ladder. */
  lemma IrpfIsLadder(salary: int)
    ensures IrpfRate(salary) == Ladder(IrpfBrackets, IrpfTopRate, salary)
  {
  }

  /** The IRPF rate is one of the six bracket rates and never falls as salary rises. */
  lemma IrpfRateStepFunction(s1: int, s2: int)
    ensures IrpfRate(s1) in {0.19, 0.24, 0.30, 0.37, 0.45, 0.47}
    ensures s1 <= s2 ==> IrpfRate(s1) <= IrpfRate(s2)
  {
    IrpfIsLadder(s1);
    IrpfIsLadder(s2);
    assert RatesAscend(IrpfBrackets, IrpfTopRate);
    if s1 <= s2 {
      LadderMonotone(IrpfBrackets, IrpfTopRate, s1, s2);
    }
  }

  // ---------------------------------------------------------------------
  // Validation
  // ---------------------------------------------------------------------

  /** Twelve months of rent. */
  function AnnualRent(v: Input): real {
    (v.monthlyRentalIncome * 12) as real
  }

  /** The fields whose declared bounds are violated, in declaration order. */
  function RangeViolations(v: Input): (r: seq<string>)
    ensures r == [] <==> 0.0 <= v.loanToValueRatio <= 1.0 && 5 <= v.loanTermYears <= 40
    ensures "loan_to_value_ratio" in r <==> !(0.0 <= v.loanToValueRatio <= 1.0)
    ensures "loan_term_years" in r <==> !(5 <= v.loanTermYears <= 40)
  {
    (if 0.0 <= v.loanToValueRatio <= 1.0 then [] else ["loan_to_value_ratio"])
    + (if 5 <= v.loanTermYears <= 40 then [] else ["loan_term_years"])
  }

  /**
   * The derived fields: rental protection insurance whenever the flag is
   * Y, maintenance and vacancy only when absent, IRPF always.
   */
  function FillDefaults(v: Input): Input {
    var rentalProtection :=
      if v.hasRentalProtectionInsurance == Y then Some(AnnualRent(v) * 0.05) else v.rentalProtectionInsurance;
    var maintenance := if v.maintenanceCost.None? then Some(0.10 * AnnualRent(v)) else v.maintenanceCost;
    var vacancy := if v.vacancyAllowance.None? then Some(0.05 * AnnualRent(v)) else v.vacancyAllowance;
    v.(rentalProtectionInsurance := rentalProtection,
       maintenanceCost := maintenance,
       vacancyAllowance := vacancy,
       irpfTax := Some(IrpfRate(v.annualGrossSalary)))
  }

  /** The mortgage consistency check, deriving the variable rate. */
  function CheckFinancing(v: Input): Result<Input, Error> {
    match v.mortgageType
    case Variable =>
      if v.mortgageMargin.None? || v.euriborRate.None? then Err(MissingVariableRateParts)
      else Ok(v.(variableInterestRate := Some(v.mortgageMargin.value + v.euriborRate.value)))
    case Fixed =>
      if v.fixedInterestRate.None? then Err(MissingFixedRate) else Ok(v)
  }

  /**
   * A record in the shape validation leaves it: bounds hold, the
   * defaulted fields are present, the IRPF rate matches the salary and the
   * rate of the chosen mortgage type is known.
   */
  predicate Resolved(v: Input) {
    && 0.0 <= v.loanToValueRatio <= 1.0
    && 5 <= v.loanTermYears <= 40
    && v.maintenanceCost.Some?
    && v.vacancyAllowance.Some?
    && v.irpfTax == Some(IrpfRate(v.annualGrossSalary))
    && (v.hasRentalProtectionInsurance == Y ==> v.rentalProtectionInsurance == Some(AnnualRent(v) * 0.05))
    && (v.mortgageType == Variable ==>
          && v.mortgageMargin.Some? && v.euriborRate.Some?
          && v.variableInterestRate == Some(v.mortgageMargin.value + v.euriborRate.value))
    && (v.mortgageType == Fixed ==> v.fixedInterestRate.Some?)
  }

  /** Record validation: bounds first, then the derived fields and the mortgage check. */
  function Validate(raw: Input): Result<Input, Error> {
    var violations := RangeViolations(raw);
    if violations != [] then Err(OutOfRange(violations))
    else CheckFinancing(FillDefaults(raw))
  }

  /** When validation refuses a record, and with which error. */
  lemma ValidateRefuses(raw: Input)
    ensures Validate(raw).Err? <==>
      || !(0.0 <= raw.loanToValueRatio <= 1.0)
      || !(5 <= raw.loanTermYears <= 40)
      || (raw.mortgageType == Variable && (raw.mortgageMargin.None? || raw.euriborRate.None?))
      || (raw.mortgageType == Fixed && raw.fixedInterestRate.None?)
    ensures RangeViolations(raw) != [] ==> Validate(raw) == Err(OutOfRange(RangeViolations(raw)))
    ensures Validate(raw).Err? && RangeViolations(raw) == [] ==>
      Validate(raw).error == (if raw.mortgageType == Variable then MissingVariableRateParts else MissingFixedRate)
  {
  }

  /** A validated record is resolved. */
  lemma ValidateResolves(raw: Input)
    requires Validate(raw).Ok?
    ensures Resolved(Validate(raw).value)
  {
  }

  /**
   * What validation does to the optional fields: supplied maintenance and
   * vacancy figures are kept and absent ones default to 10% and 5% of the
   * annual rent; rental protection insurance becomes 5% of the annual
   * rent exactly when the flag is Y, whatever was supplied, and is left as
   * given otherwise; the IRPF rate is always replaced.
   */
  lemma ValidateDefaults(raw: Input)
    requires Validate(raw).Ok?
    ensures var v := Validate(raw).value;
      && (raw.maintenanceCost.Some? ==> v.maintenanceCost == raw.maintenanceCost)
      && (raw.maintenanceCost.None? ==> v.maintenanceCost == Some(0.10 * AnnualRent(raw)))
      && (raw.vacancyAllowance.Some? ==> v.vacancyAllowance == raw.vacancyAllowance)
      && (raw.vacancyAllowance.None? ==> v.vacancyAllowance == Some(0.05 * AnnualRent(raw)))
      && (raw.hasRentalProtectionInsurance == Y ==> v.rentalProtectionInsurance == Some(AnnualRent(raw) * 0.05))
      && (raw.hasRentalProtectionInsurance == N ==> v.rentalProtectionInsurance == raw.rentalProtectionInsurance)
      && v.irpfTax == Some(IrpfRate(raw.annualGrossSalary))
  {
  }

  /**
   * What validation does to the mortgage fields: a variable rate becomes
   * margin plus Euribor; a fixed mortgage leaves the variable rate as it
   * was supplied.
   */
  lemma ValidateFinancing(raw: Input)
    requires Validate(raw).Ok?
    ensures var v := Validate(raw).value;
      && (raw.mortgageType == Variable ==>
            v.variableInterestRate == Some(raw.mortgageMargin.value + raw.euriborRate.value))
      && (raw.mortgageType == Fixed ==> v.variableInterestRate == raw.variableInterestRate)
      && v.fixedInterestRate == raw.fixedInterestRate
  {
  }

  /** Every field other than the five derived ones passes through unchanged. */
  lemma ValidateKeepsOtherFields(raw: Input)
    requires Validate(raw).Ok?
    ensures var v := Validate(raw).value;
      v == raw.(maintenanceCost := v.maintenanceCost,
                vacancyAllowance := v.vacancyAllowance,
                rentalProtectionInsurance := v.rentalProtectionInsurance,
                irpfTax := v.irpfTax,
                variableInterestRate := v.variableInterestRate)
  {
  }

  /** Validating a validated record changes nothing. */
  lemma ValidateIdempotent(raw: Input)
    requires Validate(raw).Ok?
    ensures Validate(Validate(raw).value) == Validate(raw)
  {
  }
}
