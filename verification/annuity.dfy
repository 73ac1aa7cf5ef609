/**
 * Level-payment loans: the payment function of numpy-financial, stated
 * by the standard annuity formula, and the month-by-month amortisation
 * the analyzer runs over the first year.
 */
module Annuity {

  /** `x` to the natural power `n`. */
  function Pow(x: real, n: nat): real
    decreases n
  {
    if n == 0 then 1.0 else x * Pow(x, n - 1)
  }

  function Abs(x: real): real {
    if x < 0.0 then -x else x
  }

  /**
   * The payment formula is defined: at least one period, and for a
   * non-zero rate a growth factor (1 + rate)^nper different from 1, so
   * that the formula does not divide by zero.
   */
  predicate Defined(rate: real, nper: nat) {
    nper > 0 && (rate == 0.0 || Pow(1.0 + rate, nper) != 1.0)
  }

  /**
   * `numpy_financial.pmt(rate, nper, pv)` with no future value and
   * payments at the end of each period: the signed periodic payment,
   * negative for an outflow when `pv` is positive.
   */
  function Pmt(rate: real, nper: nat, pv: real): real
    requires Defined(rate, nper)
  {
    if rate == 0.0 then -pv / (nper as real)
    else
      var growth := Pow(1.0 + rate, nper);
      -(pv * growth * rate) / (growth - 1.0)
  }

  /** The balance still owed and the interest paid so far. */
  datatype LoanState = LoanState(remaining: real, interestPaid: real)

  /**
   * One month: interest on the outstanding balance, the rest of the
   * payment goes to principal.
   */
  function Month(s: LoanState, payment: real, rate: real): LoanState {
    var interest := s.remaining * rate;
    var principal := payment - interest;
    LoanState(s.remaining - principal, s.interestPaid + interest)
  }

  /** The loan state after `k` monthly payments on a loan of `loan`. */
  function Months(loan: real, payment: real, rate: real, k: nat): LoanState
    decreases k
  {
    if k == 0 then LoanState(loan, 0.0) else Month(Months(loan, payment, rate, k - 1), payment, rate)
  }

  /**
   * Every payment is split between interest and principal: after k
   * payments, interest paid plus principal repaid is k payments.
   */
  lemma {:induction false} PaymentsSplit(loan: real, payment: real, rate: real, k: nat)
    ensures var s := Months(loan, payment, rate, k);
      s.interestPaid + (loan - s.remaining) == (k as real) * payment
  {
    if k > 0 {
      PaymentsSplit(loan, payment, rate, k - 1);
    }
  }

  /** At a zero rate no interest is ever paid. */
  lemma {:induction false} ZeroRateNoInterest(loan: real, payment: real, k: nat)
    ensures Months(loan, payment, 0.0, k).interestPaid == 0.0
  {
    if k > 0 {
      ZeroRateNoInterest(loan, payment, k - 1);
    }
  }

  /**
   * The closed form of an outstanding balance, scaled by the rate: after
   * k payments at growth factor (1 + rate)^k,
   * rate * remaining = loan * rate * growth - payment * (growth - 1).
   */
  predicate ClosedForm(rate: real, remaining: real, loan: real, growth: real, payment: real) {
    rate * remaining == loan * rate * growth - payment * (growth - 1.0)
  }

  /** One more month keeps the closed form, with the growth factor multiplied by (1 + rate). */
  lemma ClosedFormStep(loan: real, payment: real, rate: real, s: LoanState, growth: real)
    requires ClosedForm(rate, s.remaining, loan, growth, payment)
    ensures ClosedForm(rate, Month(s, payment, rate).remaining, loan, (1.0 + rate) * growth, payment)
  {
    var x := 1.0 + rate;
    var r := s.remaining;
    assert Month(s, payment, rate).remaining == r * x - payment;
    assert rate * (r * x) == x * (rate * r);
    assert x * (loan * rate * growth) == loan * rate * (x * growth);
    assert x * (payment * (growth - 1.0)) == payment * (x * growth) - payment * x;
  }

  /** The outstanding balance after k months obeys the closed form. */
  lemma {:induction false} RemainingClosedForm(loan: real, payment: real, rate: real, k: nat)
    ensures ClosedForm(rate, Months(loan, payment, rate, k).remaining, loan, Pow(1.0 + rate, k), payment)
  {
    if k > 0 {
      RemainingClosedForm(loan, payment, rate, k - 1);
      ClosedFormStep(loan, payment, rate, Months(loan, payment, rate, k - 1), Pow(1.0 + rate, k - 1));
    }
  }

  /** When the payment matches the annuity formula the closed form leaves nothing owed. */
  lemma ClosedFormSettles(rate: real, remaining: real, loan: real, growth: real, payment: real)
    requires rate != 0.0
    requires ClosedForm(rate, remaining, loan, growth, payment)
    requires payment * (growth - 1.0) == loan * growth * rate
    ensures remaining == 0.0
  {
    assert loan * rate * growth == loan * growth * rate;
    assert rate * remaining == 0.0;
  }

  lemma {:induction false} PowAboveOne(x: real, n: nat)
    requires x > 1.0 && n > 0
    ensures Pow(x, n) > 1.0
  {
    if n > 1 {
      PowAboveOne(x, n - 1);
      assert x * Pow(x, n - 1) > 1.0 * Pow(x, n - 1);
    }
  }

  lemma {:induction false} PowBelowOne(x: real, n: nat)
    requires 0.0 < x < 1.0 && n > 0
    ensures 0.0 < Pow(x, n) < 1.0
  {
    if n > 1 {
      PowBelowOne(x, n - 1);
      assert x * Pow(x, n - 1) < 1.0 * Pow(x, n - 1);
    }
  }

  /** A quotient of two numbers of opposite signs is non-positive. */
  lemma QuotientNonPositive(a: real, b: real)
    requires (a <= 0.0 && b > 0.0) || (a >= 0.0 && b < 0.0)
    ensures a / b <= 0.0
  {
  }

  /** Any rate above -100% per period gives a defined payment. */
  lemma DefinedAboveMinusOne(rate: real, nper: nat)
    requires rate > -1.0 && nper > 0
    ensures Defined(rate, nper)
  {
    if rate > 0.0 {
      PowAboveOne(1.0 + rate, nper);
    } else if rate < 0.0 {
      PowBelowOne(1.0 + rate, nper);
    }
  }

  /**
   * For a non-negative loan and a rate above -100% per period the
   * payment is an outflow (never positive), so its absolute value is
   * the amount paid each month.
   */
  lemma PaymentIsOutflow(rate: real, nper: nat, pv: real)
    requires rate > -1.0 && nper > 0 && pv >= 0.0
    ensures Defined(rate, nper)
    ensures Pmt(rate, nper, pv) <= 0.0
    ensures Abs(Pmt(rate, nper, pv)) == -Pmt(rate, nper, pv)
  {
    DefinedAboveMinusOne(rate, nper);
    var growth := Pow(1.0 + rate, nper);
    if rate > 0.0 {
      PowAboveOne(1.0 + rate, nper);
      assert pv * growth >= 0.0;
      assert pv * growth * rate >= 0.0;
      QuotientNonPositive(-(pv * growth * rate), growth - 1.0);
    } else if rate < 0.0 {
      PowBelowOne(1.0 + rate, nper);
      assert pv * growth >= 0.0;
      assert pv * growth * rate <= 0.0;
      QuotientNonPositive(-(pv * growth * rate), growth - 1.0);
    }
  }

  lemma CancelDivision(a: real, b: real, q: real)
    requires b != 0.0 && q == -(-a / b)
    ensures q * b == a
  {
  }

  /** At a zero rate the payment is the loan spread evenly, which repays it exactly. */
  lemma ZeroRateAmortizes(nper: nat, pv: real)
    requires Defined(0.0, nper)
    ensures Months(pv, -Pmt(0.0, nper, pv), 0.0, nper).remaining == 0.0
  {
    var payment := -Pmt(0.0, nper, pv);
    PaymentsSplit(pv, payment, 0.0, nper);
    ZeroRateNoInterest(pv, payment, nper);
    assert (nper as real) * payment == pv;
  }

  /** At a non-zero rate the annuity payment drives the closed form to zero. */
  lemma RateAmortizes(rate: real, nper: nat, pv: real)
    requires rate != 0.0 && Defined(rate, nper)
    ensures Months(pv, -Pmt(rate, nper, pv), rate, nper).remaining == 0.0
  {
    var payment := -Pmt(rate, nper, pv);
    var growth := Pow(1.0 + rate, nper);
    CancelDivision(pv * growth * rate, growth - 1.0, payment);
    RemainingClosedForm(pv, payment, rate, nper);
    ClosedFormSettles(rate, Months(pv, payment, rate, nper).remaining, pv, growth, payment);
  }

  /**
   * The payment amortises the loan: paying it every period for `nper`
   * periods leaves nothing owed.
   */
  lemma PaymentAmortizes(rate: real, nper: nat, pv: real)
    requires Defined(rate, nper)
    ensures Months(pv, -Pmt(rate, nper, pv), rate, nper).remaining == 0.0
  {
    if rate == 0.0 {
      ZeroRateAmortizes(nper, pv);
    } else {
      RateAmortizes(rate, nper, pv);
    }
  }
}
