/** The paycheck calculator of src/PaycheckCalculator.jsx: 2024 US federal
    brackets applied progressively to the annual taxable income, Social
    Security up to its wage base, Medicare without a cap, and the per-period
    net pay. */
module Paycheck {
  import opened Values

  /** A bracket's upper bound; the last bracket has none (`Infinity`). */
  datatype Limit = Upto(bound: real) | Unbounded

  datatype Bracket = Bracket(rate: real, upto: Limit)

  datatype Filing = Single | Married

  datatype Frequency = Weekly | BiWeekly | SemiMonthly | Monthly

  datatype RetirementMode = Percentage | Fixed

  /** The form: numbers already parsed; an absent gross pay did not parse,
      an absent 401(k) or insurance value was left empty. */
  datatype PaycheckInput = PaycheckInput(
    grossPay: Option<real>,
    frequency: Frequency,
    filing: Filing,
    retirementMode: RetirementMode,
    retirementValue: Option<real>,
    insurance: Option<real>)

  datatype Results = Results(
    grossPay: real,
    federalTax: real,
    socialSecurity: real,
    medicare: real,
    otherDeductions: real,
    netPay: real)

  const SingleBrackets: seq<Bracket> := [
    Bracket(0.10, Upto(11600.0)), Bracket(0.12, Upto(47150.0)), Bracket(0.22, Upto(100525.0)),
    Bracket(0.24, Upto(191950.0)), Bracket(0.32, Upto(243725.0)), Bracket(0.35, Upto(609350.0)),
    Bracket(0.37, Unbounded)]

  const MarriedBrackets: seq<Bracket> := [
    Bracket(0.10, Upto(23200.0)), Bracket(0.12, Upto(94300.0)), Bracket(0.22, Upto(201050.0)),
    Bracket(0.24, Upto(383900.0)), Bracket(0.32, Upto(487450.0)), Bracket(0.35, Upto(731200.0)),
    Bracket(0.37, Unbounded)]

  const SocialSecurityRate: real := 0.062
  const SocialSecurityWageLimit: real := 168600.0
  const MedicareRate: real := 0.0145
  const TopRate: real := 0.37

  function Brackets(f: Filing): seq<Bracket> {
    match f
    case Single => SingleBrackets
    case Married => MarriedBrackets
  }

  function StandardDeduction(f: Filing): real {
    match f
    case Single => 14600.0
    case Married => 29200.0
  }

  function PeriodsPerYear(f: Frequency): (n: nat)
    ensures n in {52, 26, 24, 12}
  {
    match f
    case Weekly => 52
    case BiWeekly => 26
    case SemiMonthly => 24
    case Monthly => 12
  }

  // ---------------------------------------------------------------------
  // Progressive brackets
  // ---------------------------------------------------------------------

  /** The part of `remaining` that falls in a bracket starting at `previous`. */
  function Slice(remaining: real, b: Bracket, previous: real): real {
    match b.upto
    case Unbounded => remaining
    case Upto(u) => if remaining < u - previous then remaining else u - previous
  }

  /** The next bracket's start; after the unbounded bracket nothing is left
      to tax, so the start is never read again. */
  function Next(b: Bracket, previous: real): real {
    match b.upto
    case Unbounded => previous
    case Upto(u) => u
  }

  /** Federal tax on `remaining` over the brackets `bs`, the first starting at
      `previous`: brackets are skipped once nothing is left. */
  function Tax(bs: seq<Bracket>, remaining: real, previous: real): real {
    if |bs| == 0 then 0.0
    else if remaining > 0.0 then
      var s := Slice(remaining, bs[0], previous);
      s * bs[0].rate + Tax(bs[1..], remaining - s, Next(bs[0], previous))
    else Tax(bs[1..], remaining, previous)
  }

  /** The total of the slices taken, bracket by bracket. */
  function Sliced(bs: seq<Bracket>, remaining: real, previous: real): real {
    if |bs| == 0 then 0.0
    else if remaining > 0.0 then
      var s := Slice(remaining, bs[0], previous);
      s + Sliced(bs[1..], remaining - s, Next(bs[0], previous))
    else Sliced(bs[1..], remaining, previous)
  }

  /** Bounds that increase from `previous` on, and a last bracket without
      one, with rates between 0 and the top rate. */
  predicate WellFormed(bs: seq<Bracket>, previous: real) {
    && |bs| > 0
    && bs[|bs| - 1].upto == Unbounded
    && (forall i :: 0 <= i < |bs| ==> 0.0 <= bs[i].rate <= TopRate)
    && (forall i :: 0 <= i < |bs| - 1 ==> bs[i].upto.Upto?)
    && (|bs| > 1 ==> bs[0].upto.bound > previous)
    && (forall i :: 0 <= i < |bs| - 2 ==> bs[i].upto.bound < bs[i + 1].upto.bound)
  }

  lemma TablesWellFormed()
    ensures WellFormed(SingleBrackets, 0.0) && WellFormed(MarriedBrackets, 0.0)
  {
  }

  lemma WellFormedTail(bs: seq<Bracket>, previous: real)
    requires WellFormed(bs, previous) && |bs| > 1
    ensures WellFormed(bs[1..], Next(bs[0], previous))
  {
    assert forall i :: 0 <= i < |bs[1..]| ==> bs[1..][i] == bs[i + 1];
  }

  /** Together the slices cover the whole taxable income (the last bracket
      takes whatever is left), and the tax lies between nothing and the top
      rate of that income. */
  lemma {:induction false} SlicesCoverIncome(bs: seq<Bracket>, remaining: real, previous: real)
    requires WellFormed(bs, previous) && remaining >= 0.0
    ensures Sliced(bs, remaining, previous) == remaining
    ensures 0.0 <= Tax(bs, remaining, previous) <= TopRate * remaining
  {
    TaxWithinTopRate(bs, remaining, previous);
    if remaining > 0.0 {
      var s := Slice(remaining, bs[0], previous);
      if |bs| > 1 {
        WellFormedTail(bs, previous);
        SlicesCoverIncome(bs[1..], remaining - s, Next(bs[0], previous));
      } else {
        NothingLeft(bs[1..], 0.0, Next(bs[0], previous));
      }
    } else {
      NothingLeft(bs, remaining, previous);
    }
  }

  /** The tax is never negative and never above the top rate applied to the
      whole income. */
  lemma {:induction false} TaxWithinTopRate(bs: seq<Bracket>, remaining: real, previous: real)
    requires WellFormed(bs, previous) && remaining >= 0.0
    ensures 0.0 <= Tax(bs, remaining, previous) <= TopRate * remaining
  {
    if remaining <= 0.0 {
      NothingLeft(bs, remaining, previous);
    } else if |bs| == 1 {
      assert bs[0].upto == Unbounded && Slice(remaining, bs[0], previous) == remaining;
      NothingLeft(bs[1..], 0.0, Next(bs[0], previous));
      SliceTaxBound(remaining, bs[0].rate, remaining * bs[0].rate);
      assert Tax(bs, remaining, previous) == remaining * bs[0].rate + Tax(bs[1..], 0.0, Next(bs[0], previous));
    } else {
      var s := Slice(remaining, bs[0], previous);
      SliceBounds(remaining, bs[0], previous);
      var own := s * bs[0].rate;
      SliceTaxBound(s, bs[0].rate, own);
      WellFormedTail(bs, previous);
      var rest := Tax(bs[1..], remaining - s, Next(bs[0], previous));
      TaxWithinTopRate(bs[1..], remaining - s, Next(bs[0], previous));
      Combine(own, rest, s, remaining);
      assert Tax(bs, remaining, previous) == own + rest;
    }
  }

  lemma SliceBounds(remaining: real, b: Bracket, previous: real)
    requires remaining > 0.0 && (b.upto.Upto? ==> b.upto.bound > previous)
    ensures 0.0 <= Slice(remaining, b, previous) <= remaining
  {
  }

  lemma Combine(own: real, rest: real, s: real, remaining: real)
    requires 0.0 <= own <= TopRate * s && 0.0 <= rest <= TopRate * (remaining - s)
    ensures 0.0 <= own + rest <= TopRate * remaining
  {
  }

  lemma SliceTaxBound(s: real, rate: real, own: real)
    requires 0.0 <= s && 0.0 <= rate <= TopRate && own == s * rate
    ensures 0.0 <= own <= TopRate * s
  {
  }

  /** With nothing left, no bracket adds tax. */
  lemma {:induction false} NothingLeft(bs: seq<Bracket>, remaining: real, previous: real)
    requires remaining <= 0.0
    ensures Tax(bs, remaining, previous) == 0.0 && Sliced(bs, remaining, previous) == 0.0
  {
    if |bs| > 0 {
      NothingLeft(bs[1..], remaining, previous);
    }
  }

  /** The bracket loop (`for (const bracket of …)`). */
  method FederalTax(bs: seq<Bracket>, taxable: real) returns (federalTax: real)
    ensures federalTax == Tax(bs, taxable, 0.0)
  {
    federalTax := 0.0;
    var remainingIncome := taxable;
    var previousLimit := 0.0;
    for i := 0 to |bs|
      invariant federalTax + Tax(bs[i..], remainingIncome, previousLimit) == Tax(bs, taxable, 0.0)
    {
      assert bs[i..][1..] == bs[i + 1..];
      if remainingIncome > 0.0 {
        var bracket := bs[i];
        var taxableInBracket := Slice(remainingIncome, bracket, previousLimit);
        federalTax := federalTax + taxableInBracket * bracket.rate;
        remainingIncome := remainingIncome - taxableInBracket;
        previousLimit := Next(bracket, previousLimit);
      }
    }
  }

  // ---------------------------------------------------------------------
  // The whole calculation
  // ---------------------------------------------------------------------

  /** The 401(k) contribution per period: a percentage of gross pay or a
      flat amount; nothing when the field is empty. */
  function Retirement(gross: real, mode: RetirementMode, value: Option<real>): real {
    if value.None? then 0.0
    else if mode == Percentage then gross * (value.value / 100.0)
    else value.value
  }

  function PreTax(form: PaycheckInput, gross: real): real {
    Retirement(gross, form.retirementMode, form.retirementValue) + Coalesce(form.insurance, 0.0)
  }

  /** `max(0, annual gross - annual pre-tax deductions - standard deduction)` */
  function Taxable(form: PaycheckInput, gross: real): (t: real)
    ensures t >= 0.0
  {
    var n := PeriodsPerYear(form.frequency) as real;
    var t := gross * n - PreTax(form, gross) * n - StandardDeduction(form.filing);
    if t > 0.0 then t else 0.0
  }

  function SocialSecurityTax(annualGross: real, n: nat): real
    requires n > 0
  {
    (if annualGross < SocialSecurityWageLimit then annualGross else SocialSecurityWageLimit)
      * SocialSecurityRate / n as real
  }

  /** The results for valid input; none when the gross pay did not parse or
      is not positive. */
  function PaycheckResults(form: PaycheckInput): Option<Results> {
    if form.grossPay.None? || form.grossPay.value <= 0.0 then None
    else
      var gross := form.grossPay.value;
      var n := PeriodsPerYear(form.frequency);
      var annual := gross * n as real;
      var preTax := PreTax(form, gross);
      var federal := Tax(Brackets(form.filing), Taxable(form, gross), 0.0) / n as real;
      var ss := SocialSecurityTax(annual, n);
      var medicare := annual * MedicareRate / n as real;
      Some(Results(gross, federal, ss, medicare, preTax, gross - federal - ss - medicare - preTax))
  }

  /** `calculateTaxes` */
  method CalculateTaxes(form: PaycheckInput) returns (r: Option<Results>)
    ensures r == PaycheckResults(form)
  {
    if form.grossPay.None? || form.grossPay.value <= 0.0 {
      return None;
    }
    var payPeriodGross := form.grossPay.value;
    var payPeriodsPerYear := PeriodsPerYear(form.frequency);
    var annualGrossPay := payPeriodGross * payPeriodsPerYear as real;
    var totalPreTaxDeductions := PreTax(form, payPeriodGross);
    var taxableIncome := Taxable(form, payPeriodGross);
    var federalTax := FederalTax(Brackets(form.filing), taxableIncome);
    var federalTaxPerPeriod := federalTax / payPeriodsPerYear as real;
    var socialSecurityTaxPerPeriod := SocialSecurityTax(annualGrossPay, payPeriodsPerYear);
    var medicareTaxPerPeriod := annualGrossPay * MedicareRate / payPeriodsPerYear as real;
    var netPay := payPeriodGross - federalTaxPerPeriod - socialSecurityTaxPerPeriod
                  - medicareTaxPerPeriod - totalPreTaxDeductions;
    r := Some(Results(payPeriodGross, federalTaxPerPeriod, socialSecurityTaxPerPeriod,
                      medicareTaxPerPeriod, totalPreTaxDeductions, netPay));
  }

  // ---------------------------------------------------------------------
  // Properties
  // ---------------------------------------------------------------------

  /** Results exist exactly for a gross pay that parsed and is positive. */
  lemma ResultsIffValidGross(form: PaycheckInput)
    ensures PaycheckResults(form).Some? <==> form.grossPay.Some? && form.grossPay.value > 0.0
    ensures PaycheckResults(form).Some? ==> PaycheckResults(form).value.grossPay == form.grossPay.value
  {
  }

  /** Net pay plus every deduction gives back the gross pay. */
  lemma NetPayAddsUp(form: PaycheckInput)
    requires PaycheckResults(form).Some?
    ensures var r := PaycheckResults(form).value;
      r.netPay + r.federalTax + r.socialSecurity + r.medicare + r.otherDeductions == r.grossPay
  {
  }

  /** Federal tax per period is never negative and never more than the
      top rate of the per-period share of taxable income; with no taxable
      income there is no federal tax. */
  lemma FederalTaxBounds(form: PaycheckInput)
    requires PaycheckResults(form).Some?
    ensures var r := PaycheckResults(form).value;
      var n := PeriodsPerYear(form.frequency) as real;
      && 0.0 <= r.federalTax
      && r.federalTax * n <= TopRate * Taxable(form, r.grossPay)
      && (Taxable(form, r.grossPay) == 0.0 ==> r.federalTax == 0.0)
  {
    var gross := form.grossPay.value;
    var n := PeriodsPerYear(form.frequency) as real;
    TablesWellFormed();
    SlicesCoverIncome(Brackets(form.filing), Taxable(form, gross), 0.0);
    var t := Tax(Brackets(form.filing), Taxable(form, gross), 0.0);
    assert PaycheckResults(form).value.federalTax == t / n;
    PerPeriodShare(t, n);
  }

  lemma PerPeriodShare(t: real, n: real)
    requires n > 0.0
    ensures t / n * n == t
    ensures t >= 0.0 ==> t / n >= 0.0
  {
  }

  /** Social Security stops at the wage base: its annual amount is 6.2% of
      the gross below the base and a fixed 6.2% of the base above it. */
  lemma SocialSecurityCap(annualGross: real, n: nat)
    requires n > 0
    ensures annualGross <= SocialSecurityWageLimit ==>
      SocialSecurityTax(annualGross, n) * n as real == annualGross * SocialSecurityRate
    ensures annualGross >= SocialSecurityWageLimit ==>
      SocialSecurityTax(annualGross, n) * n as real == SocialSecurityWageLimit * SocialSecurityRate
  {
  }

  /** Medicare has no cap: it is 1.45% of the gross pay of every period. */
  lemma MedicareUncapped(form: PaycheckInput)
    requires PaycheckResults(form).Some?
    ensures PaycheckResults(form).value.medicare == PaycheckResults(form).value.grossPay * MedicareRate
  {
    var gross := form.grossPay.value;
    var n := PeriodsPerYear(form.frequency) as real;
    assert gross * n * MedicareRate / n == gross * MedicareRate;
  }

  /** Two worked figures: 11600 of single taxable income is taxed at 10%
      only, and 50000 pays 10% of 11600, 12% of 35550 and 22% of 2850. */
  lemma SingleBracketExamples()
    ensures Tax(SingleBrackets, 11600.0, 0.0) == 1160.0
    ensures Tax(SingleBrackets, 50000.0, 0.0) == 1160.0 + 4266.0 + 627.0
  {
    NothingLeft(SingleBrackets[1..], 0.0, 11600.0);
    NothingLeft(SingleBrackets[3..], 0.0, 100525.0);
  }
}
