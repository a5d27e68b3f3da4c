/** The two period-total calculations: `calculatePeriodTotals` of
    src/utils/calculations.js, which counts `amountCleared`, and the
    component's own version in src/ExpenseTrackingApp.jsx, which counts
    partial payments through `originalAmount` and `paidAmount`. */
module Totals {
  import opened Values
  import AppOps
  import Generator

  datatype Summary = Summary(
    totalIncome: real,
    totalExpenses: real,
    totalPaid: real,
    unpaidAmount: real,
    difference: real,
    remainingAfterPaid: real)

  /** `reduce((sum, e) => sum + f(e), 0)`; a filter before the reduce is a
      share `f` that is 0 on the records the filter drops. */
  function Sum(es: seq<Expense>, f: Expense -> real): real {
    if |es| == 0 then 0.0 else f(es[0]) + Sum(es[1..], f)
  }

  lemma {:induction false} SumAppend(a: seq<Expense>, b: seq<Expense>, f: Expense -> real)
    ensures Sum(a + b, f) == Sum(a, f) + Sum(b, f)
  {
    if |a| == 0 {
      assert a + b == b;
    } else {
      assert (a + b)[1..] == a[1..] + b;
      SumAppend(a[1..], b, f);
    }
  }

  lemma {:induction false} SumAdd(es: seq<Expense>, f: Expense -> real, g: Expense -> real, h: Expense -> real)
    requires forall e :: h(e) == f(e) + g(e)
    ensures Sum(es, h) == Sum(es, f) + Sum(es, g)
  {
    if |es| > 0 {
      SumAdd(es[1..], f, g, h);
    }
  }

  // ---------------------------------------------------------------------
  // src/utils/calculations.js
  // ---------------------------------------------------------------------

  function Amount(e: Expense): real {
    e.amount
  }

  /** Paid or cleared base records count `amountCleared ?? amount`. */
  function BasePaid(e: Expense): real {
    if e.status == Paid || e.status == Cleared then Coalesce(e.amountCleared, e.amount) else 0.0
  }

  /** Paid or cleared one-offs count their amount. */
  function OneOffPaid(e: Expense): real {
    if e.status == Paid || e.status == Cleared then e.amount else 0.0
  }

  /** Pending and paid records count their current amount; cleared ones
      do not.  Both versions use this rule. */
  function Unpaid(e: Expense): real {
    if e.status == Pending || e.status == Paid then e.amount else 0.0
  }

  function PeriodTotals(p: Period): (r: Summary)
    ensures r.totalIncome == p.defaultIncome + p.additionalIncome
    ensures r.difference == r.totalIncome - r.totalExpenses
    ensures r.remainingAfterPaid == r.totalIncome - r.totalPaid
  {
    var income := p.defaultIncome + p.additionalIncome;
    var expenses := Sum(p.expenses, Amount) + Sum(p.oneOffExpenses, Amount);
    var paid := Sum(p.expenses, BasePaid) + Sum(p.oneOffExpenses, OneOffPaid);
    var unpaid := Sum(p.expenses, Unpaid) + Sum(p.oneOffExpenses, Unpaid);
    Summary(income, expenses, paid, unpaid, income - expenses, income - paid)
  }

  /** The amount a cleared record carries; what the unpaid total leaves out. */
  function ClearedAmount(e: Expense): real {
    if e.status == Cleared then e.amount else 0.0
  }

  /** Every record is either counted as unpaid or cleared: total expenses
      split into the unpaid amount and the cleared amounts. */
  lemma ExpensesSplit(p: Period)
    ensures PeriodTotals(p).totalExpenses
      == PeriodTotals(p).unpaidAmount + Sum(p.expenses, ClearedAmount) + Sum(p.oneOffExpenses, ClearedAmount)
  {
    SumAdd(p.expenses, Unpaid, ClearedAmount, Amount);
    SumAdd(p.oneOffExpenses, Unpaid, ClearedAmount, Amount);
  }

  /** A period with nothing paid or cleared: nothing counts as paid and
      everything counts as unpaid. */
  lemma {:induction false} AllPendingNothingPaid(es: seq<Expense>)
    requires forall j :: 0 <= j < |es| ==> es[j].status == Pending
    ensures Sum(es, BasePaid) == 0.0 && Sum(es, OneOffPaid) == 0.0
    ensures Sum(es, Unpaid) == Sum(es, Amount)
  {
    if |es| > 0 {
      AllPendingNothingPaid(es[1..]);
    }
  }

  lemma AllPendingPeriod(p: Period)
    requires forall j :: 0 <= j < |p.expenses| ==> p.expenses[j].status == Pending
    requires forall j :: 0 <= j < |p.oneOffExpenses| ==> p.oneOffExpenses[j].status == Pending
    ensures PeriodTotals(p).totalPaid == 0.0
    ensures PeriodTotals(p).unpaidAmount == PeriodTotals(p).totalExpenses
    ensures PeriodTotals(p).remainingAfterPaid == PeriodTotals(p).totalIncome
  {
    AllPendingNothingPaid(p.expenses);
    AllPendingNothingPaid(p.oneOffExpenses);
  }

  /** A period without records: every total is 0 except the income. */
  lemma EmptyPeriodTotals(p: Period)
    requires p.expenses == [] && p.oneOffExpenses == []
    ensures var income := p.defaultIncome + p.additionalIncome;
      PeriodTotals(p) == Summary(income, 0.0, 0.0, 0.0, income, income)
  {
  }

  /** A period with only the fields a test period sets. */
  function TestPeriod(defaultIncome: real, additionalIncome: real,
                      expenses: seq<Expense>, oneOffs: seq<Expense>): Period {
    Period(0, A, 0, 14, defaultIncome, additionalIncome, expenses, oneOffs, [])
  }

  function TestRecord(amount: real, s: Status): Expense {
    Blank.(amount := amount, status := s)
  }

  /** Income 2000 + 100; a paid 500 and a pending 250; a cleared one-off 50. */
  lemma MixedStatusExample()
    ensures PeriodTotals(TestPeriod(2000.0, 100.0,
                                    [TestRecord(500.0, Paid), TestRecord(250.0, Pending)],
                                    [TestRecord(50.0, Cleared)]))
      == Summary(2100.0, 800.0, 550.0, 750.0, 1300.0, 1550.0)
  {
    var p := TestPeriod(2000.0, 100.0, [TestRecord(500.0, Paid), TestRecord(250.0, Pending)],
                        [TestRecord(50.0, Cleared)]);
    assert p.expenses[1..][1..] == [];
    assert p.oneOffExpenses[1..] == [];
  }

  /** Income 1500 and no records. */
  lemma NoExpensesExample()
    ensures PeriodTotals(TestPeriod(1500.0, 0.0, [], []))
      == Summary(1500.0, 0.0, 0.0, 0.0, 1500.0, 1500.0)
  {
  }

  /** Income 1000 and a pending 1200: the difference is negative. */
  lemma OverspentExample()
    ensures PeriodTotals(TestPeriod(1000.0, 0.0, [TestRecord(1200.0, Pending)], []))
      == Summary(1000.0, 1200.0, 0.0, 1200.0, -200.0, 1000.0)
  {
    var p := TestPeriod(1000.0, 0.0, [TestRecord(1200.0, Pending)], []);
    assert p.expenses[1..] == [];
  }

  // ---------------------------------------------------------------------
  // src/ExpenseTrackingApp.jsx
  // ---------------------------------------------------------------------

  /** A record's full amount: `originalAmount || amount`. */
  function Total(e: Expense): real {
    OrElse(e.originalAmount, e.amount)
  }

  /** What a record counts as paid: its full amount when cleared, the paid
      amount (or else the full amount) when paid, the partial payments when
      pending. */
  function AppPaid(e: Expense): real {
    match e.status
    case Cleared => Total(e)
    case Paid => OrElse(e.paidAmount, Total(e))
    case Pending => OrElse(e.paidAmount, 0.0)
  }

  function AppPeriodTotals(p: Period): (r: Summary)
    ensures r.totalIncome == p.defaultIncome + p.additionalIncome
    ensures r.difference == r.totalIncome - r.totalExpenses
    ensures r.remainingAfterPaid == r.totalIncome - r.totalPaid
  {
    var income := p.defaultIncome + p.additionalIncome;
    var all := p.expenses + p.oneOffExpenses;
    var expenses := Sum(all, Total);
    var paid := Sum(all, AppPaid);
    var unpaid := Sum(p.expenses, Unpaid) + Sum(p.oneOffExpenses, Unpaid);
    Summary(income, expenses, paid, unpaid, income - expenses, income - paid)
  }

  /** A record with no partial-payment data and, for a base record, no
      cleared amount other than its own amount. */
  predicate Plain(e: Expense, isBase: bool) {
    && !AppOps.Truthy(e.originalAmount)
    && !AppOps.Truthy(e.paidAmount)
    && (isBase ==> e.amountCleared.None? || e.amountCleared == Some(e.amount))
  }

  lemma {:induction false} PlainShares(es: seq<Expense>, isBase: bool)
    requires forall j :: 0 <= j < |es| ==> Plain(es[j], isBase)
    ensures Sum(es, Total) == Sum(es, Amount)
    ensures isBase ==> Sum(es, AppPaid) == Sum(es, BasePaid)
    ensures !isBase ==> Sum(es, AppPaid) == Sum(es, OneOffPaid)
  {
    if |es| > 0 {
      PlainShares(es[1..], isBase);
    }
  }

  /** Without partial payments, and with cleared amounts equal to the
      amounts, the two calculations give the same totals. */
  lemma VersionsAgree(p: Period)
    requires forall j :: 0 <= j < |p.expenses| ==> Plain(p.expenses[j], true)
    requires forall j :: 0 <= j < |p.oneOffExpenses| ==> Plain(p.oneOffExpenses[j], false)
    ensures AppPeriodTotals(p) == PeriodTotals(p)
  {
    PlainShares(p.expenses, true);
    PlainShares(p.oneOffExpenses, false);
    SumAppend(p.expenses, p.oneOffExpenses, Total);
    SumAppend(p.expenses, p.oneOffExpenses, AppPaid);
  }

  /** A pending record whose full amount is known: a payment `p > 0` keeps
      its full amount and raises what it counts as paid by exactly `p`. */
  lemma PaymentShares(x: Expense, p: real)
    requires x.status == Pending && p > 0.0
    requires OrElse(x.paidAmount, 0.0) >= 0.0
    requires Total(x) != 0.0
    ensures Total(AppOps.PaymentApplied(x, p)) == Total(x)
    ensures AppPaid(AppOps.PaymentApplied(x, p)) == AppPaid(x) + p
  {
  }

  /** The payment, once per record with the id. */
  function PaidTimes(es: seq<Expense>, id: int, p: real): real {
    if |es| == 0 then 0.0 else (if es[0].id == id then p else 0.0) + PaidTimes(es[1..], id, p)
  }

  /** Over a list, the payment is counted once per record it is applied
      to, and the total expenses do not move. */
  lemma {:induction false} PaidListShares(es: seq<Expense>, id: int, p: real)
    requires p > 0.0
    requires forall j :: 0 <= j < |es| && es[j].id == id ==>
      es[j].status == Pending && OrElse(es[j].paidAmount, 0.0) >= 0.0 && Total(es[j]) != 0.0
    ensures Sum(AppOps.PaidList(es, id, p), Total) == Sum(es, Total)
    ensures Sum(AppOps.PaidList(es, id, p), AppPaid) == Sum(es, AppPaid) + PaidTimes(es, id, p)
  {
    if |es| > 0 {
      var r := AppOps.PaidList(es, id, p);
      PaidListTail(es, id, p);
      PaidListShares(es[1..], id, p);
      var c := PaidTimes(es[1..], id, p);
      var rest := Sum(es[1..], AppPaid);
      assert Sum(r[1..], AppPaid) == rest + c;
      assert Sum(r, AppPaid) == AppPaid(r[0]) + Sum(r[1..], AppPaid);
      assert Sum(es, AppPaid) == AppPaid(es[0]) + rest;
      if es[0].id == id {
        PaymentShares(es[0], p);
        assert AppPaid(r[0]) == AppPaid(es[0]) + p;
      }
    }
  }

  /** With unique ids the payment is counted exactly once if the id is
      present, and not at all otherwise. */
  lemma {:induction false} PaidTimesUnique(es: seq<Expense>, id: int, p: real)
    requires Generator.UniqueIds(es)
    ensures PaidTimes(es, id, p) == if HasId(es, id) then p else 0.0
  {
    if |es| > 0 {
      assert Generator.UniqueIds(es[1..]);
      PaidTimesUnique(es[1..], id, p);
      if es[0].id == id {
        assert !HasId(es[1..], id);
      } else {
        assert HasId(es, id) <==> HasId(es[1..], id) by {
          if HasId(es, id) {
            var k :| 0 <= k < |es| && es[k].id == id;
            assert es[1..][k - 1].id == id;
          }
        }
      }
    }
  }

  lemma PaidListTail(es: seq<Expense>, id: int, p: real)
    requires |es| > 0
    ensures AppOps.PaidList(es, id, p)[1..] == AppOps.PaidList(es[1..], id, p)
    ensures AppOps.PaidList(es, id, p)[0]
      == if es[0].id == id then AppOps.PaymentApplied(es[0], p) else es[0]
  {
  }

  /** One period's App totals after a payment on the records of one kind. */
  lemma PeriodPaymentTotals(q: Period, isOneOff: bool, id: int, p: real)
    requires p > 0.0
    requires var es := if isOneOff then q.oneOffExpenses else q.expenses;
      forall j :: 0 <= j < |es| && es[j].id == id ==>
        es[j].status == Pending && OrElse(es[j].paidAmount, 0.0) >= 0.0 && Total(es[j]) != 0.0
    ensures var n := PaidTimes(if isOneOff then q.oneOffExpenses else q.expenses, id, p);
      var after := if isOneOff then q.(oneOffExpenses := AppOps.PaidList(q.oneOffExpenses, id, p))
                   else q.(expenses := AppOps.PaidList(q.expenses, id, p));
      && AppPeriodTotals(after).totalExpenses == AppPeriodTotals(q).totalExpenses
      && AppPeriodTotals(after).totalPaid == AppPeriodTotals(q).totalPaid + n
      && AppPeriodTotals(after).totalIncome == AppPeriodTotals(q).totalIncome
  {
    var after := if isOneOff then q.(oneOffExpenses := AppOps.PaidList(q.oneOffExpenses, id, p))
                 else q.(expenses := AppOps.PaidList(q.expenses, id, p));
    PaidListShares(if isOneOff then q.oneOffExpenses else q.expenses, id, p);
    SumAppend(q.expenses, q.oneOffExpenses, Total);
    SumAppend(q.expenses, q.oneOffExpenses, AppPaid);
    SumAppend(after.expenses, after.oneOffExpenses, Total);
    SumAppend(after.expenses, after.oneOffExpenses, AppPaid);
  }

  /** A partial payment on pending records of the modal's period: that
      period's total expenses are unchanged and its total paid rises by the
      payment. */
  lemma PartialPaymentTotals(ps: seq<Period>, periodId: int, e: Expense, p: real)
    requires p > 0.0
    requires 0 <= IndexOfPeriod(ps, periodId)
    requires var q := ps[IndexOfPeriod(ps, periodId)];
      var es := if e.isOneOff then q.oneOffExpenses else q.expenses;
      forall j :: 0 <= j < |es| && es[j].id == e.id ==>
        es[j].status == Pending && OrElse(es[j].paidAmount, 0.0) >= 0.0 && Total(es[j]) != 0.0
    requires var q := ps[IndexOfPeriod(ps, periodId)];
      var es := if e.isOneOff then q.oneOffExpenses else q.expenses;
      Generator.UniqueIds(es) && HasId(es, e.id)
    ensures var k := IndexOfPeriod(ps, periodId);
      var q := ps[k];
      var r := AppOps.PartiallyPaid(ps, periodId, e, p);
      && AppPeriodTotals(r[k]).totalExpenses == AppPeriodTotals(q).totalExpenses
      && AppPeriodTotals(r[k]).totalPaid == AppPeriodTotals(q).totalPaid + p
      && AppPeriodTotals(r[k]).totalIncome == AppPeriodTotals(q).totalIncome
  {
    var k := IndexOfPeriod(ps, periodId);
    var r := AppOps.PartiallyPaid(ps, periodId, e, p);
    PeriodPaymentTotals(ps[k], e.isOneOff, e.id, p);
    PaidTimesUnique(if e.isOneOff then ps[k].oneOffExpenses else ps[k].expenses, e.id, p);
    if e.isOneOff {
      assert r[k] == ps[k].(oneOffExpenses := AppOps.PaidList(ps[k].oneOffExpenses, e.id, p));
    } else {
      assert r[k] == ps[k].(expenses := AppOps.PaidList(ps[k].expenses, e.id, p));
    }
  }
}
