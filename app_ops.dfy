/** Value-level definitions of the period updates made by the main
    component (src/ExpenseTrackingApp.jsx), where they differ from the
    store: a move that de-duplicates exclusions and assigns positions, a
    delete over every matching period, partial payments, the save that
    undoes the modal's flattening, status changes with an explicit cleared
    amount, the list sort, and the one-off defaults. */
module AppOps {
  import opened Values
  import opened Sorting
  import Generator
  import PeriodOps

  // ---------------------------------------------------------------------
  // Move (`moveExpense`)
  // ---------------------------------------------------------------------

  /** The moved record in the destination, after every position there. */
  function AppArrived(e: Expense, toId: int, pos: int): (r: Expense)
    ensures r.id == e.id && r.periodId == Some(toId) && r.status == Pending
    ensures r.position == Some(pos)
    ensures !e.isOneOff ==> r.amountCleared == Some(e.amount)
    ensures e.isOneOff ==> r.amountCleared == e.amountCleared
    ensures r == e.(periodId := r.periodId, status := r.status, amountCleared := r.amountCleared,
                    position := r.position)
  {
    PeriodOps.Arrived(e, toId).(position := Some(pos))
  }

  /** The source side: the record leaves, and a template instance's id is
      added to the exclusions unless it is already there. */
  function AppLeaveFrom(p: Period, e: Expense): Period {
    if e.isOneOff then p.(oneOffExpenses := RemoveId(p.oneOffExpenses, e.id))
    else p.(expenses := RemoveId(p.expenses, e.id),
            excludedExpenseIds := if e.id in p.excludedExpenseIds then p.excludedExpenseIds
                                  else p.excludedExpenseIds + [e.id])
  }

  /** The destination side: appended after the largest position of its
      list; a template instance's id is no longer excluded. */
  function AppArriveAt(p: Period, e: Expense, toId: int): Period {
    if e.isOneOff then
      p.(oneOffExpenses := p.oneOffExpenses
           + [AppArrived(e, toId, Generator.MaxPosition(p.oneOffExpenses) + 1)])
    else
      p.(excludedExpenseIds := RemoveInt(p.excludedExpenseIds, e.id),
         expenses := p.expenses + [AppArrived(e, toId, Generator.MaxPosition(p.expenses) + 1)])
  }

  function AppMoved(ps: seq<Period>, e: Expense, fromId: int, toId: int): (r: seq<Period>)
    ensures |r| == |ps|
    ensures forall k :: 0 <= k < |ps| ==> r[k].id == ps[k].id
    ensures IndexOfPeriod(ps, fromId) < 0 || IndexOfPeriod(ps, toId) < 0 ==> r == ps
  {
    var fi := IndexOfPeriod(ps, fromId);
    var ti := IndexOfPeriod(ps, toId);
    if fi < 0 || ti < 0 then ps
    else
      var left := ps[fi := AppLeaveFrom(ps[fi], e)];
      left[ti := AppArriveAt(left[ti], e, toId)]
  }

  /** Where the two period updates of a move land. */
  lemma AppMovedShape(ps: seq<Period>, e: Expense, fromId: int, toId: int)
    requires fromId != toId
    requires IndexOfPeriod(ps, fromId) >= 0 && IndexOfPeriod(ps, toId) >= 0
    ensures var r := AppMoved(ps, e, fromId, toId);
      var fi := IndexOfPeriod(ps, fromId);
      var ti := IndexOfPeriod(ps, toId);
      && fi != ti
      && r[fi] == AppLeaveFrom(ps[fi], e)
      && r[ti] == AppArriveAt(ps[ti], e, toId)
      && (forall k :: 0 <= k < |ps| && k != fi && k != ti ==> r[k] == ps[k])
  {
  }

  /** The destination side of an instance move, one period at a time. */
  lemma ArriveInstance(p: Period, e: Expense, toId: int)
    requires !e.isOneOff
    ensures var q := AppArriveAt(p, e, toId);
      var dst := p.expenses;
      && q == p.(excludedExpenseIds := RemoveInt(p.excludedExpenseIds, e.id),
                 expenses := dst + [AppArrived(e, toId, Generator.MaxPosition(dst) + 1)])
      && e.id !in q.excludedExpenseIds
      && |q.expenses| == |dst| + 1
      && q.expenses[..|dst|] == dst
      && q.expenses[|dst|].id == e.id
      && q.expenses[|dst|].status == Pending
      && (forall j :: 0 <= j < |dst| ==>
            Coalesce(dst[j].position, -1) < q.expenses[|dst|].position.value)
  {
    Generator.MaxPositionBounds(p.expenses);
    var q := AppArriveAt(p, e, toId);
    assert q.expenses[..|p.expenses|] == p.expenses;
  }

  /** The source side of an instance move, one period at a time. */
  lemma LeaveInstance(p: Period, e: Expense)
    requires !e.isOneOff
    ensures var q := AppLeaveFrom(p, e);
      var src := p.excludedExpenseIds;
      && q == p.(expenses := RemoveId(p.expenses, e.id),
                 excludedExpenseIds := q.excludedExpenseIds)
      && (forall x :: x in q.expenses <==> x in p.expenses && x.id != e.id)
      && !HasId(q.expenses, e.id)
      && (forall x :: x in q.excludedExpenseIds <==> x in src || x == e.id)
      && multiset(q.excludedExpenseIds)[e.id] == (if e.id in src then multiset(src)[e.id] else 1)
  {
    var src := p.excludedExpenseIds;
    if e.id !in src {
      assert multiset(src + [e.id])[e.id] == multiset(src)[e.id] + 1;
    }
  }

  /** Moving a template instance between two distinct periods: the source
      loses exactly the records with its id and excludes the id exactly as
      often as before, or once if it did not; the destination no longer
      excludes it and gets it appended, pending, fully uncleared, at a
      position above every position already there; nothing else in either
      period, and no other period, changes. */
  lemma AppMoveInstance(ps: seq<Period>, e: Expense, fromId: int, toId: int)
    requires !e.isOneOff && fromId != toId
    requires IndexOfPeriod(ps, fromId) >= 0 && IndexOfPeriod(ps, toId) >= 0
    ensures var r := AppMoved(ps, e, fromId, toId);
      var fi := IndexOfPeriod(ps, fromId);
      var ti := IndexOfPeriod(ps, toId);
      var src := ps[fi].excludedExpenseIds;
      var dst := ps[ti].expenses;
      && (forall k :: 0 <= k < |ps| && k != fi && k != ti ==> r[k] == ps[k])
      && r[fi] == ps[fi].(expenses := RemoveId(ps[fi].expenses, e.id),
                          excludedExpenseIds := r[fi].excludedExpenseIds)
      && (forall x :: x in r[fi].expenses <==> x in ps[fi].expenses && x.id != e.id)
      && !HasId(r[fi].expenses, e.id)
      && (forall x :: x in r[fi].excludedExpenseIds <==> x in src || x == e.id)
      && multiset(r[fi].excludedExpenseIds)[e.id] == (if e.id in src then multiset(src)[e.id] else 1)
      && r[ti] == ps[ti].(excludedExpenseIds := RemoveInt(ps[ti].excludedExpenseIds, e.id),
                          expenses := dst + [AppArrived(e, toId, Generator.MaxPosition(dst) + 1)])
      && e.id !in r[ti].excludedExpenseIds
      && |r[ti].expenses| == |dst| + 1
      && r[ti].expenses[..|dst|] == dst
      && r[ti].expenses[|dst|].id == e.id
      && r[ti].expenses[|dst|].status == Pending
      && (forall j :: 0 <= j < |dst| ==>
            Coalesce(dst[j].position, -1) < r[ti].expenses[|dst|].position.value)
  {
    AppMovedShape(ps, e, fromId, toId);
    LeaveInstance(ps[IndexOfPeriod(ps, fromId)], e);
    ArriveInstance(ps[IndexOfPeriod(ps, toId)], e, toId);
  }

  /** The destination side of a one-off move, one period at a time. */
  lemma ArriveOneOff(p: Period, e: Expense, toId: int)
    requires e.isOneOff
    ensures var q := AppArriveAt(p, e, toId);
      var dst := p.oneOffExpenses;
      && q == p.(oneOffExpenses := dst + [AppArrived(e, toId, Generator.MaxPosition(dst) + 1)])
      && q.oneOffExpenses[|dst|].status == Pending
      && q.oneOffExpenses[|dst|].amountCleared == e.amountCleared
      && (forall j :: 0 <= j < |dst| ==>
            Coalesce(dst[j].position, -1) < q.oneOffExpenses[|dst|].position.value)
  {
    Generator.MaxPositionBounds(p.oneOffExpenses);
  }

  /** Moving a one-off between two distinct periods touches only the two
      one-off lists: the source loses exactly the records with its id, and
      the destination gets it appended, pending, at a position above every
      one-off already there. */
  lemma AppMoveOneOff(ps: seq<Period>, e: Expense, fromId: int, toId: int)
    requires e.isOneOff && fromId != toId
    requires IndexOfPeriod(ps, fromId) >= 0 && IndexOfPeriod(ps, toId) >= 0
    ensures var r := AppMoved(ps, e, fromId, toId);
      var fi := IndexOfPeriod(ps, fromId);
      var ti := IndexOfPeriod(ps, toId);
      var dst := ps[ti].oneOffExpenses;
      && (forall k :: 0 <= k < |ps| && k != fi && k != ti ==> r[k] == ps[k])
      && r[fi] == ps[fi].(oneOffExpenses := RemoveId(ps[fi].oneOffExpenses, e.id))
      && (forall x :: x in r[fi].oneOffExpenses <==> x in ps[fi].oneOffExpenses && x.id != e.id)
      && r[ti] == ps[ti].(oneOffExpenses := dst + [AppArrived(e, toId, Generator.MaxPosition(dst) + 1)])
      && r[ti].oneOffExpenses[|dst|].status == Pending
      && r[ti].oneOffExpenses[|dst|].amountCleared == e.amountCleared
      && (forall j :: 0 <= j < |dst| ==>
            Coalesce(dst[j].position, -1) < r[ti].oneOffExpenses[|dst|].position.value)
  {
    AppMovedShape(ps, e, fromId, toId);
    ArriveOneOff(ps[IndexOfPeriod(ps, toId)], e, toId);
  }

  /** Unlike the store's move, moving the same instance out of a period
      again does not grow that period's exclusion list. */
  lemma AppMoveKeepsExclusions(ps: seq<Period>, e: Expense, fromId: int, toId: int)
    requires !e.isOneOff && fromId != toId
    requires IndexOfPeriod(ps, fromId) >= 0 && IndexOfPeriod(ps, toId) >= 0
    requires e.id in ps[IndexOfPeriod(ps, fromId)].excludedExpenseIds
    ensures AppMoved(ps, e, fromId, toId)[IndexOfPeriod(ps, fromId)].excludedExpenseIds
      == ps[IndexOfPeriod(ps, fromId)].excludedExpenseIds
  {
  }

  // ---------------------------------------------------------------------
  // Delete (`handleDelete`)
  // ---------------------------------------------------------------------

  /** Every period with the modal's id loses the record; for a template
      instance the id is added to that period's exclusions once. */
  function AppDeleted(ps: seq<Period>, periodId: Option<int>, e: Expense): (r: seq<Period>)
    ensures |r| == |ps|
    ensures forall k :: 0 <= k < |ps| ==>
      if periodId != Some(ps[k].id) then r[k] == ps[k]
      else if e.isOneOff then
        && !HasId(r[k].oneOffExpenses, e.id)
        && (forall x :: x in r[k].oneOffExpenses <==> x in ps[k].oneOffExpenses && x.id != e.id)
        && r[k] == ps[k].(oneOffExpenses := r[k].oneOffExpenses)
      else
        && !HasId(r[k].expenses, e.id)
        && (forall x :: x in r[k].expenses <==> x in ps[k].expenses && x.id != e.id)
        && e.id in r[k].excludedExpenseIds
        && (forall x :: x in r[k].excludedExpenseIds <==> x in ps[k].excludedExpenseIds || x == e.id)
        && multiset(r[k].excludedExpenseIds)[e.id] <= multiset(ps[k].excludedExpenseIds)[e.id] + 1
        && r[k] == ps[k].(expenses := r[k].expenses, excludedExpenseIds := r[k].excludedExpenseIds)
  {
    seq(|ps|, k requires 0 <= k < |ps| =>
      if periodId != Some(ps[k].id) then ps[k] else AppLeaveFrom(ps[k], e))
  }

  // ---------------------------------------------------------------------
  // Partial payment (`handleSave` of the partial-payment modal)
  // ---------------------------------------------------------------------

  /** JavaScript truthiness of an optional number. */
  predicate Truthy(x: Option<real>) {
    x.Some? && x.value != 0.0
  }

  /** What is left to pay on a record, as the modal computes it. */
  function Remaining(e: Expense): real {
    if Truthy(e.originalAmount) then e.originalAmount.value - OrElse(e.paidAmount, 0.0)
    else e.amount
  }

  /** A payment is accepted when it parses, is positive and does not exceed
      what is left. */
  predicate Accepts(e: Expense, payment: Option<real>) {
    payment.Some? && payment.value > 0.0 && payment.value <= Remaining(e)
  }

  const Epsilon: real := 0.001

  /** One record after a payment of `p`. */
  function PaymentApplied(x: Expense, p: real): (r: Expense)
    ensures r.originalAmount == Some(OrElse(x.originalAmount, x.amount))
    ensures r.paidAmount == Some(OrElse(x.paidAmount, 0.0) + p)
    ensures r.amount + r.paidAmount.value == r.originalAmount.value
    ensures r.status == Paid <==> r.amount <= Epsilon
    ensures r.status == Pending <==> r.amount > Epsilon
    ensures r == x.(originalAmount := r.originalAmount, paidAmount := r.paidAmount,
                    amount := r.amount, status := r.status)
  {
    var original := OrElse(x.originalAmount, x.amount);
    var paid := OrElse(x.paidAmount, 0.0) + p;
    var left := original - paid;
    x.(originalAmount := Some(original), paidAmount := Some(paid), amount := left,
       status := if left <= Epsilon then Paid else Pending)
  }

  /** The original amount is captured once: later payments keep it. */
  lemma PaymentKeepsOriginal(x: Expense, p: real, q: real)
    requires Truthy(Some(OrElse(x.originalAmount, x.amount)))
    ensures PaymentApplied(PaymentApplied(x, p), q).originalAmount == PaymentApplied(x, p).originalAmount
    ensures PaymentApplied(PaymentApplied(x, p), q).paidAmount.value
      == OrElse(PaymentApplied(x, p).paidAmount, 0.0) + q
  {
  }

  /** An accepted payment never pays more than is owed: on a record whose
      paid amount is only set alongside an original amount, what is left
      stays non-negative. */
  lemma AcceptedPaymentNeverOverpays(x: Expense, payment: Option<real>)
    requires Accepts(x, payment)
    requires !Truthy(x.originalAmount) ==> !Truthy(x.paidAmount)
    ensures PaymentApplied(x, payment.value).amount >= 0.0
    ensures PaymentApplied(x, payment.value).paidAmount.value > OrElse(x.paidAmount, 0.0)
  {
  }

  /** Partial payment on the period list: in the first period with that id,
      every record of the payment's kind with that id is updated.  A missing
      period (a thrown error in the source) leaves the list unchanged. */
  function PartiallyPaid(ps: seq<Period>, periodId: int, e: Expense, p: real): (r: seq<Period>)
    ensures |r| == |ps|
    ensures forall k :: 0 <= k < |ps| && k != IndexOfPeriod(ps, periodId) ==> r[k] == ps[k]
    ensures IndexOfPeriod(ps, periodId) >= 0 ==>
      var k := IndexOfPeriod(ps, periodId);
      var es := if e.isOneOff then ps[k].oneOffExpenses else ps[k].expenses;
      var rs := if e.isOneOff then r[k].oneOffExpenses else r[k].expenses;
      && |rs| == |es|
      && (forall j :: 0 <= j < |es| ==>
            rs[j] == (if es[j].id == e.id then PaymentApplied(es[j], p) else es[j]))
      && (e.isOneOff ==> r[k] == ps[k].(oneOffExpenses := rs))
      && (!e.isOneOff ==> r[k] == ps[k].(expenses := rs))
  {
    var k := IndexOfPeriod(ps, periodId);
    if k < 0 then ps
    else if e.isOneOff then ps[k := ps[k].(oneOffExpenses := PaidList(ps[k].oneOffExpenses, e.id, p))]
    else ps[k := ps[k].(expenses := PaidList(ps[k].expenses, e.id, p))]
  }

  function PaidList(es: seq<Expense>, id: int, p: real): (r: seq<Expense>)
    ensures |r| == |es|
    ensures forall j :: 0 <= j < |es| ==> r[j] == (if es[j].id == id then PaymentApplied(es[j], p) else es[j])
  {
    seq(|es|, j requires 0 <= j < |es| => if es[j].id == id then PaymentApplied(es[j], p) else es[j])
  }

  // ---------------------------------------------------------------------
  // Modal save (`handleExpenseModalSave`)
  // ---------------------------------------------------------------------

  /** What the edit modal shows: the amount field holds the total. */
  function Flattened(e: Expense): Expense {
    e.(amount := OrElse(e.originalAmount, e.amount))
  }

  /** The record the modal saves.  A changed total drops the payment
      history and reopens a paid or cleared record; an unchanged total gets
      the stored amount and payment history back. */
  function Unflattened(original: Expense, updated: Expense): (r: Expense)
    ensures updated.amount != OrElse(original.originalAmount, original.amount) ==>
      && r.amount == updated.amount
      && r.paidAmount == Some(0.0) && r.originalAmount.None?
      && r.status == (if updated.status == Paid || updated.status == Cleared then Pending else updated.status)
      && r == updated.(paidAmount := r.paidAmount, originalAmount := r.originalAmount, status := r.status)
    ensures updated.amount == OrElse(original.originalAmount, original.amount) ==>
      && r.amount == original.amount
      && r.originalAmount == original.originalAmount
      && r.paidAmount == original.paidAmount
      && r == updated.(amount := r.amount, originalAmount := r.originalAmount, paidAmount := r.paidAmount)
  {
    if updated.amount != OrElse(original.originalAmount, original.amount) then
      updated.(paidAmount := Some(0.0), originalAmount := None,
               status := if updated.status == Paid || updated.status == Cleared then Pending else updated.status)
    else
      updated.(amount := original.amount, originalAmount := original.originalAmount,
               paidAmount := original.paidAmount)
  }

  /** Opening the modal and saving without edits gives back the stored
      record, partial payments included. */
  lemma SaveUneditedRoundTrip(e: Expense)
    ensures Unflattened(e, Flattened(e)) == e
  {
  }

  /** A total changed in the modal is what the App's totals then count for
      that record, with nothing counted as paid while it is pending. */
  lemma SaveChangedTotal(original: Expense, updated: Expense)
    requires updated.amount != OrElse(original.originalAmount, original.amount)
    requires updated.amount != 0.0
    ensures OrElse(Unflattened(original, updated).originalAmount, Unflattened(original, updated).amount)
      == updated.amount
    ensures Unflattened(original, updated).status != Paid
    ensures !Truthy(Unflattened(original, updated).paidAmount)
  {
  }

  /** The period list after an instance-scope save. */
  function AppInstanceSaved(ps: seq<Period>, periodId: Option<int>, original: Expense, updated: Expense)
    : (r: seq<Period>)
    ensures periodId.None? ==> r == ps
    ensures periodId.Some? ==> r == PeriodOps.InstanceSaved(ps, periodId.value, Unflattened(original, updated))
  {
    if periodId.None? then ps else PeriodOps.InstanceSaved(ps, periodId.value, Unflattened(original, updated))
  }

  // ---------------------------------------------------------------------
  // Status change (`updateExpenseStatus` with an optional cleared amount)
  // ---------------------------------------------------------------------

  function AppStatusUpdated(ps: seq<Period>, periodId: int, id: int, s: Status, cleared: Option<real>)
    : (r: seq<Period>)
    ensures |r| == |ps|
    ensures forall k :: 0 <= k < |ps| ==>
      && |r[k].expenses| == |ps[k].expenses|
      && r[k] == ps[k].(expenses := r[k].expenses)
      && forall j :: 0 <= j < |ps[k].expenses| ==>
        var e := ps[k].expenses[j];
        if ps[k].id == periodId && e.id == id then
          r[k].expenses[j] == e.(status := s, amountCleared := if cleared.Some? then cleared else e.amountCleared)
        else r[k].expenses[j] == e
  {
    seq(|ps|, k requires 0 <= k < |ps| =>
      if ps[k].id != periodId then ps[k]
      else ps[k].(expenses := seq(|ps[k].expenses|, j requires 0 <= j < |ps[k].expenses| =>
        var e := ps[k].expenses[j];
        if e.id == id then e.(status := s, amountCleared := if cleared.Some? then cleared else e.amountCleared)
        else e)))
  }

  /** Without a cleared amount the App's status change agrees with the
      store's on every status but "cleared", which only the store fills in. */
  lemma StatusVersionsAgree(ps: seq<Period>, periodId: int, id: int, s: Status)
    requires s != Cleared
    ensures AppStatusUpdated(ps, periodId, id, s, None) == PeriodOps.StatusUpdated(ps, periodId, id, s)
  {
    var a := AppStatusUpdated(ps, periodId, id, s, None);
    var b := PeriodOps.StatusUpdated(ps, periodId, id, s);
    forall k | 0 <= k < |ps| ensures a[k] == b[k] {
      assert a[k].expenses == b[k].expenses;
    }
  }

  // ---------------------------------------------------------------------
  // Sorting (`getSortableValue`, `sortExpenses`)
  // ---------------------------------------------------------------------

  datatype SortKey = DefaultKey | DateKey | OtherKey
  datatype SortDirection = Asc | Desc

  /** A calendar date with a zero-based month, as `Date` reports it. */
  datatype CalendarDay = CalendarDay(year: int, month: int, day: int)

  /** The month in which a due day falls for a period starting on `start`:
      a due day before the start day belongs to the next month. */
  function DueMonth(start: CalendarDay, dueDay: int): (r: CalendarDay)
    ensures r.day == dueDay
    ensures dueDay >= start.day ==> r.year == start.year && r.month == start.month
    ensures dueDay < start.day && start.month < 11 ==> r.year == start.year && r.month == start.month + 1
    ensures dueDay < start.day && start.month >= 11 ==> r.year == start.year + 1 && r.month == 0
  {
    if dueDay < start.day then
      if start.month + 1 > 11 then CalendarDay(start.year + 1, 0, dueDay)
      else CalendarDay(start.year, start.month + 1, dueDay)
    else CalendarDay(start.year, start.month, dueDay)
  }

  /** A start in a valid month gives a due month that is valid too and is
      never earlier than the start. */
  lemma DueMonthValid(start: CalendarDay, dueDay: int)
    requires 0 <= start.month <= 11
    ensures 0 <= DueMonth(start, dueDay).month <= 11
    ensures var r := DueMonth(start, dueDay);
      r.year > start.year || (r.year == start.year && r.month >= start.month)
  {
  }

  /** The sort value; `startOf` is the period's start date (absent when no
      period is given) and `time` turns a calendar date into a timestamp. */
  function SortableValue(e: Expense, startOf: Option<CalendarDay>, key: SortKey,
                         time: CalendarDay -> real): real
  {
    if key == DateKey then
      if e.isOneOff then (if e.createdAt.Some? then e.createdAt.value as real else 0.0)
      else if startOf.Some? && e.dueDate != 0 then time(DueMonth(startOf.value, e.dueDate))
      else 0.0
    else Coalesce(e.position, 0) as real
  }

  /** The key the stable sort compares: descending order is ascending
      order of the negated value. */
  function SortKeyOf(startOf: Option<CalendarDay>, key: SortKey, dir: SortDirection,
                     time: CalendarDay -> real): Expense -> real
  {
    e => if dir == Asc then SortableValue(e, startOf, key, time) else -SortableValue(e, startOf, key, time)
  }

  /** The 'default' key returns the list itself; any other key returns the
      same records ordered by their sort value. Records with equal sort
      values come out in their input order, since `Sorting.SortBy` inserts
      each head before equal keys, but no clause here states that. */
  function SortExpenses(es: seq<Expense>, startOf: Option<CalendarDay>, key: SortKey,
                        dir: SortDirection, time: CalendarDay -> real): (r: seq<Expense>)
    ensures key == DefaultKey ==> r == es
    ensures multiset(r) == multiset(es)
    ensures key != DefaultKey && dir == Asc ==> forall i, j :: 0 <= i < j < |r| ==>
      SortableValue(r[i], startOf, key, time) <= SortableValue(r[j], startOf, key, time)
    ensures key != DefaultKey && dir == Desc ==> forall i, j :: 0 <= i < j < |r| ==>
      SortableValue(r[i], startOf, key, time) >= SortableValue(r[j], startOf, key, time)
  {
    if key == DefaultKey then es
    else
      var r := SortBy(es, SortKeyOf(startOf, key, dir, time));
      assert forall i, j :: 0 <= i < j < |r| ==>
        SortKeyOf(startOf, key, dir, time)(r[i]) <= SortKeyOf(startOf, key, dir, time)(r[j]);
      r
  }

  /** Sorting an already sorted list changes nothing. */
  lemma SortExpensesIdempotent(es: seq<Expense>, startOf: Option<CalendarDay>, key: SortKey,
                               dir: SortDirection, time: CalendarDay -> real)
    ensures var once := SortExpenses(es, startOf, key, dir, time);
      SortExpenses(once, startOf, key, dir, time) == once
  {
    if key != DefaultKey {
      var k := SortKeyOf(startOf, key, dir, time);
      SortBySorted(SortBy(es, k), k);
    }
  }

  // ---------------------------------------------------------------------
  // One-offs (`addOneOff` of the component)
  // ---------------------------------------------------------------------

  /** The component's new one-off: like the store's, but with the defaults
      '' / 0 / 'Other' / '' under the form fields. */
  function NewAppOneOff(f: PeriodOps.OneOffFields, freshId: int, now: int): (r: Expense)
    ensures r.id == freshId && r.isOneOff && r.createdAt == Some(now)
    ensures r.category == Coalesce(f.category, "Other")
    ensures r.description == Coalesce(f.description, "")
    ensures r.amount == Coalesce(f.amount, 0.0)
  {
    PeriodOps.Patched(Blank.(id := freshId, isOneOff := true, status := Pending,
                             createdAt := Some(now), category := "Other"), f)
  }

  /** The two one-off constructors differ only in the default category. */
  lemma OneOffVersionsDiffer(f: PeriodOps.OneOffFields, freshId: int, now: int)
    ensures NewAppOneOff(f, freshId, now)
      == PeriodOps.NewOneOff(f, freshId, now).(category := Coalesce(f.category, "Other"))
  {
  }
}
