/** Records shared by the whole engine: expense templates, period instances,
    one-offs, pay periods and the income schedule, plus the small JavaScript
    idioms (`x || d`, `x ?? d`, `find`, `filter`, the bounded undo push) that
    every operation uses. */
module Values {

  datatype Option<T> = None | Some(value: T)

  /** The two alternating paycheck tracks. */
  datatype Track = A | B

  /** pending -> paid -> cleared, or pending -> cleared directly. */
  datatype Status = Pending | Paid | Cleared

  /** One record shape for templates, period instances and one-offs: the
      source spreads one into the other, so they share their fields.  An
      absent or null optional number is `None`; an absent string is "". */
  datatype Expense = Expense(
    id: int,
    description: string,
    category: string,
    amount: real,
    dueDate: int,
    paycheck: Track,
    isDebt: bool,
    balance: real,
    apr: real,
    minimumPayment: real,
    active: bool,
    periodId: Option<int>,
    status: Status,
    amountCleared: Option<real>,
    position: Option<int>,
    notes: string,
    originalAmount: Option<real>,
    paidAmount: Option<real>,
    isOneOff: bool,
    createdAt: Option<int>)

  /** A record with every field at its empty value. */
  const Blank: Expense :=
    Expense(0, "", "", 0.0, 0, A, false, 0.0, 0.0, 0.0, false, None, Pending,
            None, None, "", None, None, false, None)

  /** A pay period; dates are day numbers. */
  datatype Period = Period(
    id: int,
    track: Track,
    startDay: int,
    endDay: int,
    defaultIncome: real,
    additionalIncome: real,
    expenses: seq<Expense>,
    oneOffExpenses: seq<Expense>,
    excludedExpenseIds: seq<int>)

  /** The income schedule; `startDay` is the already-parsed start date. */
  datatype IncomeSettings = IncomeSettings(
    paycheckA: real,
    paycheckB: real,
    startDay: int,
    firstPaycheckType: Track)

  /** JavaScript `x || d` on an optional number: null and 0 are falsy. */
  function OrElse(x: Option<real>, d: real): (r: real)
    ensures x.Some? && x.value != 0.0 ==> r == x.value
    ensures (x.None? || x.value == 0.0) ==> r == d
  {
    if x.Some? && x.value != 0.0 then x.value else d
  }

  /** JavaScript `{ ...e, ...x }` for two records: the keys `x` carries win,
      and a key `x` lacks keeps `e`'s value.  An absent optional number or
      timestamp is `None` and absent notes are empty, so those fall back to
      `e`; every other field is always present on `x`. */
  function Spread(e: Expense, x: Expense): (r: Expense)
    ensures r.id == x.id && r.description == x.description && r.category == x.category
    ensures r.amount == x.amount && r.status == x.status && r.active == x.active
    ensures r.originalAmount == (if x.originalAmount.Some? then x.originalAmount else e.originalAmount)
    ensures r.paidAmount == (if x.paidAmount.Some? then x.paidAmount else e.paidAmount)
    ensures r.amountCleared == (if x.amountCleared.Some? then x.amountCleared else e.amountCleared)
    ensures r.notes == (if x.notes != "" then x.notes else e.notes)
    ensures r.position == (if x.position.Some? then x.position else e.position)
  {
    var notes := if x.notes != "" then x.notes else e.notes;
    Expense(x.id, x.description, x.category, x.amount, x.dueDate, x.paycheck, x.isDebt,
            x.balance, x.apr, x.minimumPayment, x.active, Either(x.periodId, e.periodId),
            x.status, Either(x.amountCleared, e.amountCleared), Either(x.position, e.position),
            notes, Either(x.originalAmount, e.originalAmount), Either(x.paidAmount, e.paidAmount),
            x.isOneOff, Either(x.createdAt, e.createdAt))
  }

  /** A key present on the record spread last wins. */
  function Either<T>(x: Option<T>, e: Option<T>): Option<T> {
    if x.Some? then x else e
  }

  /** Spreading the same record twice is spreading it once. */
  lemma SpreadIdempotent(e: Expense, x: Expense)
    ensures Spread(Spread(e, x), x) == Spread(e, x)
  {
  }

  /** JavaScript `x ?? d`: only null falls back. */
  function Coalesce<T>(x: Option<T>, d: T): T {
    match x
    case Some(v) => v
    case None => d
  }

  predicate HasId(es: seq<Expense>, id: int) {
    exists k :: 0 <= k < |es| && es[k].id == id
  }

  /** `es.filter(e => e.id !== id)` */
  function RemoveId(es: seq<Expense>, id: int): (r: seq<Expense>)
    ensures |r| <= |es|
    ensures forall x :: x in r <==> x in es && x.id != id
    ensures !HasId(r, id)
    ensures !HasId(es, id) ==> r == es
  {
    if |es| == 0 then []
    else if es[0].id == id then RemoveId(es[1..], id)
    else [es[0]] + RemoveId(es[1..], id)
  }

  /** `ids.filter(x => x !== id)` */
  function RemoveInt(ids: seq<int>, id: int): (r: seq<int>)
    ensures |r| <= |ids|
    ensures forall x :: x in r <==> x in ids && x != id
    ensures id !in ids ==> r == ids
  {
    if |ids| == 0 then []
    else if ids[0] == id then RemoveInt(ids[1..], id)
    else [ids[0]] + RemoveInt(ids[1..], id)
  }

  /** `periods.findIndex(p => p.id === id)`: the first match, or -1. */
  function IndexOfPeriod(ps: seq<Period>, id: int): (r: int)
    ensures -1 <= r < |ps|
    ensures r >= 0 ==> ps[r].id == id && forall k :: 0 <= k < r ==> ps[k].id != id
    ensures r == -1 <==> forall k :: 0 <= k < |ps| ==> ps[k].id != id
  {
    if |ps| == 0 then -1
    else if ps[0].id == id then 0
    else
      var r := IndexOfPeriod(ps[1..], id);
      if r < 0 then -1 else r + 1
  }

  /** `es.findIndex(e => e.id === id)`: the first match, or -1. */
  function IndexOfExpense(es: seq<Expense>, id: int): (r: int)
    ensures -1 <= r < |es|
    ensures r >= 0 ==> es[r].id == id && forall k :: 0 <= k < r ==> es[k].id != id
    ensures r == -1 <==> !HasId(es, id)
  {
    if |es| == 0 then -1
    else if es[0].id == id then 0
    else
      var r := IndexOfExpense(es[1..], id);
      assert forall k :: 0 <= k < |es| - 1 ==> es[1..][k] == es[k + 1];
      if r < 0 then -1 else r + 1
  }

  /** `list.map(e => e.id === id ? f(e) : e)` for a replacement value. */
  function ReplaceId(es: seq<Expense>, id: int, x: Expense): (r: seq<Expense>)
    ensures |r| == |es|
    ensures forall k :: 0 <= k < |es| ==> r[k] == (if es[k].id == id then x else es[k])
  {
    seq(|es|, k requires 0 <= k < |es| => if es[k].id == id then x else es[k])
  }

  /** `[...stack.slice(-9), x]`: keep the newest nine entries, then push. */
  function PushBounded<T>(stack: seq<T>, x: T): (r: seq<T>)
    ensures |r| <= 10 && |r| == (if |stack| <= 9 then |stack| else 9) + 1
    ensures r[|r| - 1] == x
    ensures r[..|r| - 1] == stack[|stack| - (|r| - 1)..]
  {
    (if |stack| <= 9 then stack else stack[|stack| - 9..]) + [x]
  }
}
