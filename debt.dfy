/** `calculateDebtPayoff` of src/utils/calculations.js: the active debt
    templates, ordered by the chosen strategy, are paid down month by month
    for at most 360 months, the first remaining debt taking the extra
    payment. */
module Debt {
  import opened Values
  import opened Sorting
  import Totals

  datatype Strategy = Snowball | Avalanche | OtherStrategy

  datatype DebtResult = DebtResult(
    totalDebt: real,
    monthlyPayments: real,
    payoffMonths: nat,
    totalInterest: real,
    sortedDebts: seq<Expense>)

  /** What the simulation ends with: months taken and interest accrued. */
  datatype Payoff = Payoff(months: nat, interest: real)

  const MaxMonths: nat := 360

  /** `filter(exp => exp.isDebt && exp.active)` */
  function Debts(ts: seq<Expense>): (r: seq<Expense>)
    ensures |r| <= |ts|
    ensures forall x :: x in r <==> x in ts && x.isDebt && x.active
  {
    if |ts| == 0 then []
    else (if ts[0].isDebt && ts[0].active then [ts[0]] else []) + Debts(ts[1..])
  }

  function Balance(e: Expense): real {
    e.balance
  }

  function MinimumPayment(e: Expense): real {
    e.minimumPayment
  }

  function BalanceKey(e: Expense): real {
    e.balance
  }

  /** `b.apr - a.apr` orders by descending APR, i.e. ascending negated APR. */
  function AprKey(e: Expense): real {
    -e.apr
  }

  /** The order in which debts are paid: snowball by ascending balance,
      avalanche by descending APR, any other strategy keeps the list order
      (the comparator returns 0 and the sort is stable). */
  function SortedDebts(ds: seq<Expense>, s: Strategy): (r: seq<Expense>)
    ensures multiset(r) == multiset(ds) && |r| == |ds|
    ensures s == Snowball ==> forall i, j :: 0 <= i < j < |r| ==> r[i].balance <= r[j].balance
    ensures s == Avalanche ==> forall i, j :: 0 <= i < j < |r| ==> r[i].apr >= r[j].apr
    ensures s == OtherStrategy ==> r == ds
  {
    match s
    case Snowball =>
      var r := SortBy(ds, BalanceKey);
      assert forall i, j :: 0 <= i < j < |r| ==> BalanceKey(r[i]) <= BalanceKey(r[j]);
      r
    case Avalanche =>
      var r := SortBy(ds, AprKey);
      assert forall i, j :: 0 <= i < j < |r| ==> AprKey(r[i]) <= AprKey(r[j]);
      r
    case OtherStrategy => ds
  }

  /** The month's interest on a debt: `(balance * apr / 100) / 12`. */
  function MonthInterest(d: Expense): real {
    (d.balance * d.apr / 100.0) / 12.0
  }

  /** The payment made on the debt at `index`: its minimum, plus the whole
      extra payment for the first one when the extra payment is positive. */
  function Payment(d: Expense, index: int, extra: real): real {
    if index == 0 && extra > 0.0 then d.minimumPayment + extra else d.minimumPayment
  }

  /** `max(0, balance - min(payment - interest, balance))` */
  function NewBalance(balance: real, payment: real, interest: real): real {
    var principal := if payment - interest < balance then payment - interest else balance;
    if balance - principal > 0.0 then balance - principal else 0.0
  }

  /** One month applied to every remaining debt, in order. */
  function Stepped(ds: seq<Expense>, extra: real): (r: seq<Expense>)
    ensures |r| == |ds|
    ensures forall i :: 0 <= i < |ds| ==>
      r[i] == ds[i].(balance := NewBalance(ds[i].balance, Payment(ds[i], i, extra), MonthInterest(ds[i])))
  {
    seq(|ds|, i requires 0 <= i < |ds| =>
      ds[i].(balance := NewBalance(ds[i].balance, Payment(ds[i], i, extra), MonthInterest(ds[i]))))
  }

  /** `filter(debt => debt.balance > 0)` */
  function Outstanding(ds: seq<Expense>): (r: seq<Expense>)
    ensures |r| <= |ds|
    ensures forall i :: 0 <= i < |r| ==> r[i].balance > 0.0
  {
    if |ds| == 0 then []
    else (if ds[0].balance > 0.0 then [ds[0]] else []) + Outstanding(ds[1..])
  }

  /** The interest a month adds, summed in list order. */
  function InterestSum(ds: seq<Expense>): real {
    if |ds| == 0 then 0.0 else InterestSum(ds[..|ds| - 1]) + MonthInterest(ds[|ds| - 1])
  }

  /** The monthly loop from `month` on, with `interest` accrued so far. */
  function Simulate(ds: seq<Expense>, extra: real, month: nat, interest: real): Payoff
    requires month <= MaxMonths
    decreases MaxMonths - month
  {
    if |ds| == 0 || month >= MaxMonths then Payoff(month, interest)
    else Simulate(Outstanding(Stepped(ds, extra)), extra, month + 1, interest + InterestSum(ds))
  }

  /** `calculateDebtPayoff`; `extraPayment` is the parsed extra payment,
      absent when it is not a number. */
  method CalculateDebtPayoff(sourceExpenses: seq<Expense>, strategy: Strategy, extraPayment: Option<real>)
    returns (r: DebtResult)
    ensures r.totalDebt == Totals.Sum(Debts(sourceExpenses), Balance)
    ensures r.monthlyPayments == Totals.Sum(Debts(sourceExpenses), MinimumPayment)
    ensures r.sortedDebts == SortedDebts(Debts(sourceExpenses), strategy)
    ensures Payoff(r.payoffMonths, r.totalInterest)
      == Simulate(r.sortedDebts, OrElse(extraPayment, 0.0), 0, 0.0)
  {
    var debts := Debts(sourceExpenses);
    var totalDebt := Totals.Sum(debts, Balance);
    var monthlyPayments := Totals.Sum(debts, MinimumPayment);
    var sorted := SortedDebts(debts, strategy);
    var month, totalInterest := RunPayoff(sorted, OrElse(extraPayment, 0.0));
    r := DebtResult(totalDebt, monthlyPayments, month, totalInterest, sorted);
  }

  /** The monthly loop on copies of the ordered debts: it stops when every
      debt is paid off or after 360 months. */
  method RunPayoff(sorted: seq<Expense>, extra: real) returns (month: nat, totalInterest: real)
    ensures Payoff(month, totalInterest) == Simulate(sorted, extra, 0, 0.0)
  {
    totalInterest := 0.0;
    month := 0;
    var remaining := sorted;
    while |remaining| > 0 && month < MaxMonths
      invariant month <= MaxMonths
      invariant Simulate(remaining, extra, month, totalInterest) == Simulate(sorted, extra, 0, 0.0)
      decreases MaxMonths - month
    {
      var next, interest := PayMonth(remaining, extra);
      assert Simulate(remaining, extra, month, totalInterest)
        == Simulate(Outstanding(next), extra, month + 1, totalInterest + interest);
      month := month + 1;
      totalInterest := totalInterest + interest;
      remaining := Outstanding(next);
    }
  }

  /** The body of one month of the loop: every remaining debt accrues its
      interest and takes its payment, in order; the extra payment is used up
      by the first debt. */
  method PayMonth(remaining: seq<Expense>, extra: real) returns (next: seq<Expense>, interest: real)
    ensures next == Stepped(remaining, extra)
    ensures interest == InterestSum(remaining)
  {
    var extraThisMonth := extra;
    next := [];
    interest := 0.0;
    var index := 0;
    while index < |remaining|
      invariant 0 <= index <= |remaining|
      invariant next == Stepped(remaining, extra)[..index]
      invariant interest == InterestSum(remaining[..index])
      invariant index == 0 ==> extraThisMonth == extra
    {
      var debt := remaining[index];
      var monthlyInterest := MonthInterest(debt);
      assert remaining[..index + 1][..index] == remaining[..index];
      assert InterestSum(remaining[..index + 1]) == InterestSum(remaining[..index]) + monthlyInterest;
      interest := interest + monthlyInterest;
      var payment := debt.minimumPayment;
      if index == 0 && extraThisMonth > 0.0 {
        payment := payment + extraThisMonth;
        extraThisMonth := 0.0;
      }
      assert payment == Payment(debt, index, extra);
      var balance := NewBalance(debt.balance, payment, monthlyInterest);
      assert Stepped(remaining, extra)[..index + 1]
        == Stepped(remaining, extra)[..index] + [debt.(balance := balance)];
      next := next + [debt.(balance := balance)];
      index := index + 1;
    }
    assert remaining[..index] == remaining;
    assert Stepped(remaining, extra)[..index] == Stepped(remaining, extra);
  }

  // ---------------------------------------------------------------------
  // Properties of the simulation
  // ---------------------------------------------------------------------

  /** For a non-negative balance, a month never takes it below 0, and it
      does not grow exactly when the payment covers the month's interest;
      when it does not, the balance grows by the shortfall. */
  lemma BalanceStep(balance: real, payment: real, interest: real)
    requires balance >= 0.0
    ensures NewBalance(balance, payment, interest) >= 0.0
    ensures NewBalance(balance, payment, interest) <= balance <==> payment >= interest
    ensures payment < interest ==>
      NewBalance(balance, payment, interest) == balance + (interest - payment)
    ensures payment >= interest + balance ==> NewBalance(balance, payment, interest) == 0.0
  {
  }

  /** Only the first remaining debt receives the extra payment. */
  lemma ExtraOnlyToFirst(ds: seq<Expense>, extra: real)
    ensures forall i :: 0 < i < |ds| ==>
      Stepped(ds, extra)[i].balance == NewBalance(ds[i].balance, ds[i].minimumPayment, MonthInterest(ds[i]))
    ensures |ds| > 0 && extra > 0.0 ==>
      Stepped(ds, extra)[0].balance
        == NewBalance(ds[0].balance, ds[0].minimumPayment + extra, MonthInterest(ds[0]))
  {
  }

  /** A month never takes a non-negative balance below 0. */
  lemma RemainingPositive(ds: seq<Expense>, extra: real)
    ensures forall i :: 0 <= i < |ds| && ds[i].balance >= 0.0 ==> Stepped(ds, extra)[i].balance >= 0.0
  {
  }

  /** A month in which every payment clears its debt and the month's
      interest ends the simulation. */
  lemma {:induction false} AllPaidOffInOneMonth(ds: seq<Expense>, extra: real)
    requires forall i :: 0 <= i < |ds| ==> Payment(ds[i], i, extra) >= MonthInterest(ds[i]) + ds[i].balance
    ensures Outstanding(Stepped(ds, extra)) == []
  {
    var s := Stepped(ds, extra);
    assert forall i :: 0 <= i < |ds| ==> s[i].balance == 0.0;
    NoneOutstanding(s);
  }

  lemma {:induction false} NoneOutstanding(ds: seq<Expense>)
    requires forall i :: 0 <= i < |ds| ==> ds[i].balance <= 0.0
    ensures Outstanding(ds) == []
  {
    if |ds| > 0 {
      NoneOutstanding(ds[1..]);
    }
  }

  /** The loop runs at most 360 months, never fewer than it has already
      run, and at least one more while debts remain. */
  lemma {:induction false} SimulateMonths(ds: seq<Expense>, extra: real, month: nat, interest: real)
    requires month <= MaxMonths
    ensures month <= Simulate(ds, extra, month, interest).months <= MaxMonths
    ensures |ds| > 0 && month < MaxMonths ==> Simulate(ds, extra, month, interest).months > month
    ensures |ds| == 0 ==> Simulate(ds, extra, month, interest) == Payoff(month, interest)
    decreases MaxMonths - month
  {
    if |ds| > 0 && month < MaxMonths {
      SimulateMonths(Outstanding(Stepped(ds, extra)), extra, month + 1, interest + InterestSum(ds));
    }
  }

  /** The payoff takes at most 360 months, and 0 exactly when there is no
      active debt. */
  lemma PayoffMonths(sourceExpenses: seq<Expense>, strategy: Strategy, extra: real)
    ensures var p := Simulate(SortedDebts(Debts(sourceExpenses), strategy), extra, 0, 0.0);
      && p.months <= MaxMonths
      && (p.months == 0 <==> Debts(sourceExpenses) == [])
  {
    SimulateMonths(SortedDebts(Debts(sourceExpenses), strategy), extra, 0, 0.0);
  }

  /** The debts the result lists are the active debt templates themselves,
      with their original balances, each exactly as often as in the input. */
  lemma SortedDebtsAreInputs(sourceExpenses: seq<Expense>, strategy: Strategy)
    ensures forall x :: x in SortedDebts(Debts(sourceExpenses), strategy) <==>
      x in sourceExpenses && x.isDebt && x.active
    ensures multiset(SortedDebts(Debts(sourceExpenses), strategy)) == multiset(Debts(sourceExpenses))
  {
    var r := SortedDebts(Debts(sourceExpenses), strategy);
    forall x ensures x in r <==> x in Debts(sourceExpenses) {
      assert x in r <==> x in multiset(r);
      assert x in Debts(sourceExpenses) <==> x in multiset(Debts(sourceExpenses));
    }
  }
}
