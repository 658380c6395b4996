/** The compound-interest projection (src/components/InvestmentSimulator.tsx). */
module InvestmentSimulator {
  import opened Records
  import opened FormInput

  /** `parseFloat(interestRate) / 100 / 12`: a yearly percentage as a monthly fraction. */
  function MonthlyRate(annualPercent: real): (r: real)
    ensures r * 1200.0 == annualPercent
    ensures annualPercent >= 0.0 ==> r >= 0.0
  {
    annualPercent / 100.0 / 12.0
  }

  /** `Math.pow(b, n)` for a whole, non-negative exponent, without rounding. */
  function Pow(b: real, n: nat): (r: real)
    ensures b >= 0.0 ==> r >= 0.0
  {
    if n == 0 then 1.0
    else
      var p := Pow(b, n - 1);
      if b >= 0.0 then MulNonNegative(b, p); b * p else b * p
  }

  /** `principal * Math.pow(1 + rate, time)` */
  function FinalAmount(principal: real, annualPercent: real, months: nat): (r: real)
    ensures months == 0 ==> r == principal
    ensures principal >= 0.0 && annualPercent >= 0.0 ==> r >= principal
  {
    var p := Pow(1.0 + MonthlyRate(annualPercent), months);
    if principal >= 0.0 && annualPercent >= 0.0 then
      PowAtLeastOne(1.0 + MonthlyRate(annualPercent), months);
      MulNonNegative(principal, p - 1.0);
      principal * p
    else principal * p
  }

  /** The record passed to `onAddSimulation`: the annual percentage as typed,
      not the monthly rate, and the amount that is displayed. */
  function Projection(principal: real, annualPercent: real, months: nat): (s: SimulationDraft)
    ensures s.initialAmount == principal && s.interestRate == annualPercent && s.timePeriod == months
    ensures months == 0 ==> s.finalAmount == principal
  {
    SimulationDraft(principal, annualPercent, months, FinalAmount(principal, annualPercent, months))
  }

  /** The profit line of the result card, corrected: final amount minus the
      principal of that same run. */
  function Profit(run: SimulationDraft): real {
    run.finalAmount - run.initialAmount
  }

  /** The profit line as written: `result - parseFloat(initialAmount)` reads
      the initial-amount field as it is when the card is drawn; an empty field
      parses to NaN, shown here as `None`. */
  function ProfitAsWritten(result: real, initialAmountField: Field<real>): (r: Option<real>)
    ensures r.Some? <==> initialAmountField.Filled?
    ensures r.Some? ==> r.value + initialAmountField.value == result
  {
    if initialAmountField.Blank? then None else Some(result - initialAmountField.value)
  }

  // ---------------------------------------------------------------------
  // Lemmas about the formula.

  lemma MulNonNegative(x: real, y: real)
    requires x >= 0.0 && y >= 0.0
    ensures x * y >= 0.0
  {
  }

  lemma {:induction false} PowAtLeastOne(b: real, n: nat)
    requires b >= 1.0
    ensures Pow(b, n) >= 1.0
    ensures n > 0 ==> Pow(b, n) >= b
  {
    if n > 0 {
      PowAtLeastOne(b, n - 1);
      var p := Pow(b, n - 1);
      assert b * p >= b * 1.0 by {
        assert b * (p - 1.0) >= 0.0;
      }
    }
  }

  /** Bernoulli's inequality: monthly compounding never yields less than
      simple interest, for any rate above -100% a month. */
  lemma {:induction false} CompoundAtLeastSimple(r: real, n: nat)
    requires r >= -1.0
    ensures Pow(1.0 + r, n) >= 1.0 + (n as real) * r
  {
    if n > 0 {
      CompoundAtLeastSimple(r, n - 1);
      var p := Pow(1.0 + r, n - 1);
      var m := (n - 1) as real;
      MulNonNegative(1.0 + r, p - (1.0 + m * r));
      assert (1.0 + r) * (1.0 + m * r) == 1.0 + (m + 1.0) * r + m * (r * r);
      if r >= 0.0 { MulNonNegative(r, r); } else { MulNonNegative(-r, -r); }
      MulNonNegative(m, r * r);
    }
  }

  /** With zero months the final amount is the principal, exactly. */
  lemma ZeroMonthsIsIdentity(principal: real, annualPercent: real)
    ensures FinalAmount(principal, annualPercent, 0) == principal
  {
  }

  /** A non-negative principal at a non-negative rate never shrinks, and grows
      at least as much as simple interest would. */
  lemma FinalAmountAtLeastPrincipal(principal: real, annualPercent: real, months: nat)
    requires principal >= 0.0 && annualPercent >= 0.0
    ensures FinalAmount(principal, annualPercent, months) >= principal
    ensures FinalAmount(principal, annualPercent, months)
      >= principal * (1.0 + (months as real) * MonthlyRate(annualPercent))
  {
    var r := MonthlyRate(annualPercent);
    var p := Pow(1.0 + r, months);
    PowAtLeastOne(1.0 + r, months);
    CompoundAtLeastSimple(r, months);
    assert principal * p >= principal * 1.0 by {
      assert principal * (p - 1.0) >= 0.0;
    }
    MulNonNegative(principal, p - (1.0 + (months as real) * r));
  }

  /** Each further month adds the month's interest on the running amount. */
  lemma NextMonth(principal: real, annualPercent: real, months: nat)
    ensures FinalAmount(principal, annualPercent, months + 1)
      == FinalAmount(principal, annualPercent, months) * (1.0 + MonthlyRate(annualPercent))
  {
  }

  /** 1000 at 12% a year for 12 months: 1000 * 1.01^12 = 1126.825030131969720661201. */
  lemma ExampleProjection()
    ensures FinalAmount(1000.0, 12.0, 12) == 1126.825030131969720661201
    ensures 126.82 < Profit(Projection(1000.0, 12.0, 12)) < 126.83
  {
    var b := 1.0 + MonthlyRate(12.0);
    assert b == 1.01;
    assert Pow(b, 1) == 1.01;
    assert Pow(b, 2) == 1.0201;
    assert Pow(b, 3) == 1.030301;
    assert Pow(b, 4) == 1.04060401;
    assert Pow(b, 5) == 1.0510100501;
    assert Pow(b, 6) == 1.061520150601;
    assert Pow(b, 7) == 1.07213535210701;
    assert Pow(b, 8) == 1.0828567056280801;
    assert Pow(b, 9) == 1.093685272684360901;
    assert Pow(b, 10) == 1.10462212541120451001;
    assert Pow(b, 11) == 1.1156683466653165551101;
    assert Pow(b, 12) == 1.126825030131969720661201;
  }

  /** The profit of a run with non-negative inputs is never negative, and is
      zero for zero months. */
  lemma ProfitOfRun(principal: real, annualPercent: real, months: nat)
    requires principal >= 0.0 && annualPercent >= 0.0
    ensures Profit(Projection(principal, annualPercent, months)) >= 0.0
    ensures months == 0 ==> Profit(Projection(principal, annualPercent, months)) == 0.0
  {
    FinalAmountAtLeastPrincipal(principal, annualPercent, months);
  }

  /** The profit line as written follows later edits to the initial-amount
      field: after simulating 1000 at 12% for 12 months, typing 2000 into the
      field shows a loss of about 873, although the run earned about 126.83. */
  lemma ProfitAsWrittenFollowsTheField()
    ensures var run := Projection(1000.0, 12.0, 12);
      ProfitAsWritten(run.finalAmount, Filled(2000.0)) == Some(run.finalAmount - 2000.0)
      && run.finalAmount - 2000.0 < 0.0 < Profit(run)
      && ProfitAsWritten(run.finalAmount, Blank) == None
  {
    ExampleProjection();
  }

  // ---------------------------------------------------------------------
  // The component's state.

  class Simulator {
    var initialAmount: Field<real>
    var interestRate: Field<real>
    var timePeriod: Field<nat>
    /** The last run; the result card shows its final amount and its profit. */
    var result: Option<SimulationDraft>

    constructor ()
      ensures initialAmount == Blank && interestRate == Blank && timePeriod == Blank && result == None
    {
      initialAmount, interestRate, timePeriod, result := Blank, Blank, Blank, None;
    }

    /** The result card: nothing before the first run, then the run's final
        amount and its (corrected) profit. */
    function ResultCard(): (card: Option<(real, real)>)
      reads this
      ensures card.Some? <==> result.Some?
      ensures card.Some? ==>
        card.value.0 == result.value.finalAmount && card.value.1 == result.value.finalAmount - result.value.initialAmount
    {
      if result.None? then None else Some((result.value.finalAmount, Profit(result.value)))
    }

    /** `calculateInvestment`: with any field empty nothing is computed and
        nothing recorded; otherwise the projection is shown and returned as
        the record for `onAddSimulation`. */
    method CalculateInvestment() returns (recorded: Option<SimulationDraft>)
      modifies this`result
      ensures initialAmount.Blank? || interestRate.Blank? || timePeriod.Blank? ==>
        recorded == None && result == old(result)
      ensures initialAmount.Filled? && interestRate.Filled? && timePeriod.Filled? ==>
        recorded == Some(Projection(initialAmount.value, interestRate.value, timePeriod.value))
        && result == recorded
    {
      if initialAmount.Blank? || interestRate.Blank? || timePeriod.Blank? {
        return None;
      }
      var principal := initialAmount.value;
      var rate := MonthlyRate(interestRate.value);
      var time := timePeriod.value;
      var finalAmount := principal * Pow(1.0 + rate, time);
      assert finalAmount == FinalAmount(principal, interestRate.value, time);
      recorded := Some(SimulationDraft(principal, interestRate.value, time, finalAmount));
      result := recorded;
    }
  }
}
