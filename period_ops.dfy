/** Value-level definitions of the store's updates of the period list
    (src/store/expenseStore.js): move, re-add, delete, status change,
    modal save, income refresh and the one-off helpers.  The store class
    (`Store.ExpenseStore`) applies them to its state. */
module PeriodOps {
  import opened Values
  import Generator

  // ---------------------------------------------------------------------
  // Move between periods (`_moveExpense`)
  // ---------------------------------------------------------------------

  /** The moved record as it lands in the destination period. */
  function Arrived(e: Expense, toId: int): (r: Expense)
    ensures r.id == e.id && r.amount == e.amount && r.isOneOff == e.isOneOff
    ensures r.periodId == Some(toId) && r.status == Pending
    ensures !e.isOneOff ==> r.amountCleared == Some(e.amount)
    ensures e.isOneOff ==> r.amountCleared == e.amountCleared
  {
    if e.isOneOff then e.(periodId := Some(toId), status := Pending)
    else e.(periodId := Some(toId), status := Pending, amountCleared := Some(e.amount))
  }

  /** The source side of a move: the record leaves; a template instance's id
      is appended to the exclusions, whether or not it is already there. */
  function LeaveFrom(p: Period, e: Expense): Period {
    if e.isOneOff then p.(oneOffExpenses := RemoveId(p.oneOffExpenses, e.id))
    else p.(expenses := RemoveId(p.expenses, e.id),
            excludedExpenseIds := p.excludedExpenseIds + [e.id])
  }

  /** The destination side of a move: the record is appended; a template
      instance's id is removed from the exclusions. */
  function ArriveAt(p: Period, e: Expense, toId: int): Period {
    if e.isOneOff then p.(oneOffExpenses := p.oneOffExpenses + [Arrived(e, toId)])
    else p.(excludedExpenseIds := RemoveInt(p.excludedExpenseIds, e.id),
            expenses := p.expenses + [Arrived(e, toId)])
  }

  /** The period list after `_moveExpense(e, fromId, toId)`.  Both periods are
      looked up by id; when either is missing the source throws before
      anything is stored, so the list is unchanged.  The destination is
      updated after the source, as on the shared clone. */
  function Moved(ps: seq<Period>, e: Expense, fromId: int, toId: int): (r: seq<Period>)
    ensures |r| == |ps|
    ensures forall k :: 0 <= k < |ps| ==> r[k].id == ps[k].id
    ensures IndexOfPeriod(ps, fromId) < 0 || IndexOfPeriod(ps, toId) < 0 ==> r == ps
  {
    var fi := IndexOfPeriod(ps, fromId);
    var ti := IndexOfPeriod(ps, toId);
    if fi < 0 || ti < 0 then ps
    else
      var left := ps[fi := LeaveFrom(ps[fi], e)];
      left[ti := ArriveAt(left[ti], e, toId)]
  }

  /** Moving a template instance between two distinct periods: it leaves the
      source, which now excludes its id; it is appended, pending and fully
      uncleared, to the destination, which no longer excludes it; no other
      period and no one-off list changes. */
  lemma MoveInstance(ps: seq<Period>, e: Expense, fromId: int, toId: int)
    requires !e.isOneOff && fromId != toId
    requires IndexOfPeriod(ps, fromId) >= 0 && IndexOfPeriod(ps, toId) >= 0
    ensures var r := Moved(ps, e, fromId, toId);
      var fi := IndexOfPeriod(ps, fromId);
      var ti := IndexOfPeriod(ps, toId);
      && (forall k :: 0 <= k < |ps| && k != fi && k != ti ==> r[k] == ps[k])
      && (forall x :: x in r[fi].expenses <==> x in ps[fi].expenses && x.id != e.id)
      && r[fi].excludedExpenseIds == ps[fi].excludedExpenseIds + [e.id]
      && r[fi].oneOffExpenses == ps[fi].oneOffExpenses
      && r[ti].expenses == ps[ti].expenses + [Arrived(e, toId)]
      && e.id !in r[ti].excludedExpenseIds
      && (forall x :: x in r[ti].excludedExpenseIds <==> x in ps[ti].excludedExpenseIds && x != e.id)
      && r[ti].oneOffExpenses == ps[ti].oneOffExpenses
  {
  }

  /** Moving a one-off touches only the two one-off lists. */
  lemma MoveOneOff(ps: seq<Period>, e: Expense, fromId: int, toId: int)
    requires e.isOneOff && fromId != toId
    requires IndexOfPeriod(ps, fromId) >= 0 && IndexOfPeriod(ps, toId) >= 0
    ensures var r := Moved(ps, e, fromId, toId);
      var fi := IndexOfPeriod(ps, fromId);
      var ti := IndexOfPeriod(ps, toId);
      && (forall k :: 0 <= k < |ps| && k != fi && k != ti ==> r[k] == ps[k])
      && r[fi] == ps[fi].(oneOffExpenses := r[fi].oneOffExpenses)
      && !HasId(r[fi].oneOffExpenses, e.id)
      && r[ti] == ps[ti].(oneOffExpenses := ps[ti].oneOffExpenses + [Arrived(e, toId)])
  {
  }

  /** The exclusion list is not de-duplicated: moving an instance out of a
      period that already excludes its id adds a second copy. */
  lemma MoveRepeatsExclusion(ps: seq<Period>, e: Expense, fromId: int, toId: int)
    requires !e.isOneOff && fromId != toId
    requires IndexOfPeriod(ps, fromId) >= 0 && IndexOfPeriod(ps, toId) >= 0
    requires e.id in ps[IndexOfPeriod(ps, fromId)].excludedExpenseIds
    ensures multiset(Moved(ps, e, fromId, toId)[IndexOfPeriod(ps, fromId)].excludedExpenseIds)[e.id] >= 2
  {
    var fi := IndexOfPeriod(ps, fromId);
    MoveInstance(ps, e, fromId, toId);
    assert multiset(ps[fi].excludedExpenseIds)[e.id] >= 1;
  }

  /** The store's undo of a move replays the move backwards.  That does not
      restore the list: the instance comes back at the end of the source,
      pending and fully uncleared, and the destination now excludes its id,
      so a later rebuild will not re-insert that template there. */
  lemma MoveUndoNotExact(ps: seq<Period>, e: Expense, fromId: int, toId: int)
    requires !e.isOneOff && fromId != toId
    requires IndexOfPeriod(ps, fromId) >= 0 && IndexOfPeriod(ps, toId) >= 0
    ensures var r := Moved(Moved(ps, e, fromId, toId), e, toId, fromId);
      var fi := IndexOfPeriod(ps, fromId);
      var ti := IndexOfPeriod(ps, toId);
      && (forall k :: 0 <= k < |ps| && k != fi && k != ti ==> r[k] == ps[k])
      && r[fi].expenses == RemoveId(ps[fi].expenses, e.id) + [Arrived(e, fromId)]
      && (forall x :: x in r[fi].excludedExpenseIds <==> x in ps[fi].excludedExpenseIds && x != e.id)
      && !HasId(r[ti].expenses, e.id)
      && e.id in r[ti].excludedExpenseIds
  {
    var m := Moved(ps, e, fromId, toId);
    MoveInstance(ps, e, fromId, toId);
    IndexOfSameIds(ps, m, fromId);
    IndexOfSameIds(ps, m, toId);
    MoveInstance(m, e, toId, fromId);
    var fi := IndexOfPeriod(ps, fromId);
    var ti := IndexOfPeriod(ps, toId);
    RemoveIdAppend(ps[ti].expenses, Arrived(e, toId), e.id);
  }

  /** Two period lists with the same ids in the same places agree on where
      an id is found. */
  lemma {:induction false} IndexOfSameIds(ps: seq<Period>, qs: seq<Period>, id: int)
    requires |ps| == |qs|
    requires forall k :: 0 <= k < |ps| ==> ps[k].id == qs[k].id
    ensures IndexOfPeriod(ps, id) == IndexOfPeriod(qs, id)
  {
    if |ps| > 0 && ps[0].id != id {
      IndexOfSameIds(ps[1..], qs[1..], id);
    }
  }

  /** Filtering distributes over an append. */
  lemma {:induction false} RemoveIdAppend(es: seq<Expense>, x: Expense, id: int)
    ensures RemoveId(es + [x], id) == RemoveId(es, id) + (if x.id == id then [] else [x])
  {
    if |es| > 0 {
      assert (es + [x])[1..] == es[1..] + [x];
      RemoveIdAppend(es[1..], x, id);
    } else {
      assert [x][1..] == [];
    }
  }

  lemma {:induction false} RemoveIntAppend(ids: seq<int>, x: int, id: int)
    ensures RemoveInt(ids + [x], id) == RemoveInt(ids, id) + (if x == id then [] else [x])
  {
    if |ids| > 0 {
      assert (ids + [x])[1..] == ids[1..] + [x];
      RemoveIntAppend(ids[1..], x, id);
    } else {
      assert [x][1..] == [];
    }
  }

  // ---------------------------------------------------------------------
  // Re-adding and deleting (`_addExpense`, `deleteEditingExpense`)
  // ---------------------------------------------------------------------

  /** The list after `_addExpense(e, periodId)`: the first period with that
      id gets the record appended; a template instance is also removed from
      its exclusions.  A missing period leaves the list unchanged. */
  function ExpenseAdded(ps: seq<Period>, e: Expense, periodId: int): (r: seq<Period>)
    ensures |r| == |ps|
    ensures forall k :: 0 <= k < |ps| && k != IndexOfPeriod(ps, periodId) ==> r[k] == ps[k]
    ensures IndexOfPeriod(ps, periodId) >= 0 ==>
      var k := IndexOfPeriod(ps, periodId);
      if e.isOneOff then r[k] == ps[k].(oneOffExpenses := ps[k].oneOffExpenses + [e])
      else && r[k].expenses == ps[k].expenses + [e]
           && e.id !in r[k].excludedExpenseIds
           && r[k] == ps[k].(expenses := r[k].expenses, excludedExpenseIds := r[k].excludedExpenseIds)
  {
    var k := IndexOfPeriod(ps, periodId);
    if k < 0 then ps
    else if e.isOneOff then ps[k := ps[k].(oneOffExpenses := ps[k].oneOffExpenses + [e])]
    else ps[k := ps[k].(expenses := ps[k].expenses + [e],
                        excludedExpenseIds := RemoveInt(ps[k].excludedExpenseIds, e.id))]
  }

  /** The periods part of `deleteEditingExpense`: the first period with the
      modal's id loses the record; a template instance's id is appended to
      that period's exclusions (not de-duplicated). */
  function Deleted(ps: seq<Period>, e: Expense, periodId: int): (r: seq<Period>)
    ensures |r| == |ps|
    ensures forall k :: 0 <= k < |ps| && k != IndexOfPeriod(ps, periodId) ==> r[k] == ps[k]
    ensures IndexOfPeriod(ps, periodId) >= 0 ==>
      var k := IndexOfPeriod(ps, periodId);
      if e.isOneOff then
        && !HasId(r[k].oneOffExpenses, e.id)
        && r[k] == ps[k].(oneOffExpenses := r[k].oneOffExpenses)
      else
        && !HasId(r[k].expenses, e.id)
        && r[k].excludedExpenseIds == ps[k].excludedExpenseIds + [e.id]
        && r[k] == ps[k].(expenses := r[k].expenses, excludedExpenseIds := r[k].excludedExpenseIds)
  {
    var k := IndexOfPeriod(ps, periodId);
    if k < 0 then ps
    else ps[k := LeaveFrom(ps[k], e)]
  }

  /** Deleting the last instance of a period and undoing (re-adding it)
      restores the period list exactly, when the id was neither excluded
      nor present elsewhere in that period. */
  lemma DeleteUndoRestores(ps: seq<Period>, e: Expense, periodId: int)
    requires !e.isOneOff
    requires IndexOfPeriod(ps, periodId) >= 0
    requires var p := ps[IndexOfPeriod(ps, periodId)];
      && |p.expenses| > 0 && p.expenses[|p.expenses| - 1] == e
      && !HasId(p.expenses[..|p.expenses| - 1], e.id)
      && e.id !in p.excludedExpenseIds
    ensures ExpenseAdded(Deleted(ps, e, periodId), e, periodId) == ps
  {
    var k := IndexOfPeriod(ps, periodId);
    var p := ps[k];
    var init := p.expenses[..|p.expenses| - 1];
    assert p.expenses == init + [e];
    RemoveIdAppend(init, e, e.id);
    assert RemoveId(p.expenses, e.id) == init;
    RemoveIntAppend(p.excludedExpenseIds, e.id, e.id);
    var q := p.(expenses := init, excludedExpenseIds := p.excludedExpenseIds + [e.id]);
    var d := Deleted(ps, e, periodId);
    assert d == ps[k := q];
    IndexOfSameIds(ps, d, periodId);
    assert q.(expenses := q.expenses + [e], excludedExpenseIds := RemoveInt(q.excludedExpenseIds, e.id)) == p;
    assert ExpenseAdded(d, e, periodId) == d[k := p];
  }

  /** A deleted instance can come back: re-adding it after a delete puts it
      at the end of the period and lifts the exclusion that the delete added. */
  lemma DeleteUndoReadds(ps: seq<Period>, e: Expense, periodId: int)
    requires !e.isOneOff
    requires IndexOfPeriod(ps, periodId) >= 0
    ensures var r := ExpenseAdded(Deleted(ps, e, periodId), e, periodId);
      var k := IndexOfPeriod(ps, periodId);
      && r[k].expenses == RemoveId(ps[k].expenses, e.id) + [e]
      && (forall x :: x in r[k].excludedExpenseIds <==> x in ps[k].excludedExpenseIds && x != e.id)
  {
    var d := Deleted(ps, e, periodId);
    IndexOfSameIds(ps, d, periodId);
  }

  // ---------------------------------------------------------------------
  // Status change, modal save, income refresh
  // ---------------------------------------------------------------------

  /** The instance after `updateExpenseStatus`: clearing records the full
      amount as cleared; other statuses keep the cleared amount. */
  function WithStatus(e: Expense, s: Status): Expense {
    e.(status := s, amountCleared := if s == Cleared then Some(e.amount) else e.amountCleared)
  }

  /** `updateExpenseStatus(periodId, expenseId, newStatus)`: every template
      instance with that id, in every period with that id, takes the new
      status; one-offs are not looked at. */
  function StatusUpdated(ps: seq<Period>, periodId: int, id: int, s: Status): (r: seq<Period>)
    ensures |r| == |ps|
    ensures forall k :: 0 <= k < |ps| ==>
      && |r[k].expenses| == |ps[k].expenses|
      && r[k] == ps[k].(expenses := r[k].expenses)
      && forall j :: 0 <= j < |ps[k].expenses| ==>
        var e := ps[k].expenses[j];
        if ps[k].id == periodId && e.id == id then
          && r[k].expenses[j].status == s
          && r[k].expenses[j].amountCleared == (if s == Cleared then Some(e.amount) else e.amountCleared)
          && r[k].expenses[j] == e.(status := s, amountCleared := r[k].expenses[j].amountCleared)
        else r[k].expenses[j] == e
  {
    seq(|ps|, k requires 0 <= k < |ps| =>
      if ps[k].id != periodId then ps[k]
      else ps[k].(expenses := seq(|ps[k].expenses|, j requires 0 <= j < |ps[k].expenses| =>
        if ps[k].expenses[j].id == id then WithStatus(ps[k].expenses[j], s) else ps[k].expenses[j])))
  }

  /** Setting the same status twice is the same as setting it once. */
  lemma StatusUpdatedIdempotent(ps: seq<Period>, periodId: int, id: int, s: Status)
    ensures StatusUpdated(StatusUpdated(ps, periodId, id, s), periodId, id, s) == StatusUpdated(ps, periodId, id, s)
  {
    var r := StatusUpdated(ps, periodId, id, s);
    var r2 := StatusUpdated(r, periodId, id, s);
    forall k | 0 <= k < |ps| ensures r2[k] == r[k] {
      assert r2[k].expenses == r[k].expenses;
    }
  }

  /** Instance-scope `handleExpenseModalSave`: in every period with the
      modal's id, the record with the edited record's id is replaced by it,
      among the one-offs or the template instances according to its kind. */
  function InstanceSaved(ps: seq<Period>, periodId: int, x: Expense): (r: seq<Period>)
    ensures |r| == |ps|
    ensures forall k :: 0 <= k < |ps| ==>
      if ps[k].id != periodId then r[k] == ps[k]
      else if x.isOneOff then r[k] == ps[k].(oneOffExpenses := ReplaceId(ps[k].oneOffExpenses, x.id, x))
      else r[k] == ps[k].(expenses := ReplaceId(ps[k].expenses, x.id, x))
  {
    seq(|ps|, k requires 0 <= k < |ps| =>
      if ps[k].id != periodId then ps[k]
      else if x.isOneOff then ps[k].(oneOffExpenses := ReplaceId(ps[k].oneOffExpenses, x.id, x))
      else ps[k].(expenses := ReplaceId(ps[k].expenses, x.id, x)))
  }

  /** Saving the record that is already stored changes nothing. */
  lemma InstanceSavedUnchanged(ps: seq<Period>, periodId: int, x: Expense)
    requires forall k, j :: (0 <= k < |ps| && 0 <= j < |ps[k].expenses| && ps[k].id == periodId
      && ps[k].expenses[j].id == x.id) ==> ps[k].expenses[j] == x
    requires forall k, j :: (0 <= k < |ps| && 0 <= j < |ps[k].oneOffExpenses| && ps[k].id == periodId
      && ps[k].oneOffExpenses[j].id == x.id) ==> ps[k].oneOffExpenses[j] == x
    ensures InstanceSaved(ps, periodId, x) == ps
  {
    var r := InstanceSaved(ps, periodId, x);
    forall k | 0 <= k < |ps| ensures r[k] == ps[k] {
      if ps[k].id == periodId {
        assert ReplaceId(ps[k].expenses, x.id, x) == ps[k].expenses;
        assert ReplaceId(ps[k].oneOffExpenses, x.id, x) == ps[k].oneOffExpenses;
      }
    }
  }

  /** Instance `e` of period `k` after a template-scope edit: the edited
      record is spread over it, then it takes the period's id, and the edited
      status in the modal's period or pending in a later one. */
  function ScopeEdited(e: Expense, x: Expense, periodIdOfK: int, current: bool): Expense {
    Spread(e, x).(periodId := Some(periodIdOfK), status := if current then x.status else Pending)
  }

  /** Template-scope edit of the period list: periods before the modal's
      index are untouched; from that index on, every instance with the
      edited id has the edited record spread over it and takes its
      period's id, so fields the edited record lacks stay; the modal's
      period keeps the edited status and later ones become pending.  A
      modal period that is not found gives index -1, which edits every
      period and sets every matching instance pending. */
  function TemplateScopeEdited(ps: seq<Period>, current: int, x: Expense): (r: seq<Period>)
    ensures |r| == |ps|
    ensures forall k :: 0 <= k < |ps| && k < current ==> r[k] == ps[k]
    ensures forall k :: 0 <= k < |ps| && k >= current ==>
      && r[k] == ps[k].(expenses := r[k].expenses)
      && |r[k].expenses| == |ps[k].expenses|
      && forall j :: 0 <= j < |ps[k].expenses| ==>
        if ps[k].expenses[j].id == x.id then
          && r[k].expenses[j] == ScopeEdited(ps[k].expenses[j], x, ps[k].id, k == current)
          && r[k].expenses[j].status == (if k == current then x.status else Pending)
          && r[k].expenses[j].amount == x.amount
          && r[k].expenses[j].originalAmount
             == (if x.originalAmount.Some? then x.originalAmount else ps[k].expenses[j].originalAmount)
          && r[k].expenses[j].paidAmount
             == (if x.paidAmount.Some? then x.paidAmount else ps[k].expenses[j].paidAmount)
          && r[k].expenses[j].notes == (if x.notes != "" then x.notes else ps[k].expenses[j].notes)
        else r[k].expenses[j] == ps[k].expenses[j]
  {
    seq(|ps|, k requires 0 <= k < |ps| =>
      if k < current then ps[k]
      else ps[k].(expenses := seq(|ps[k].expenses|, j requires 0 <= j < |ps[k].expenses| =>
        if ps[k].expenses[j].id == x.id then ScopeEdited(ps[k].expenses[j], x, ps[k].id, k == current)
        else ps[k].expenses[j])))
  }

  /** An edited record without payment history (the template's own record,
      say) leaves every matching instance's original and paid amounts as
      they were, while its amount becomes the edited one. */
  lemma TemplateScopeKeepsPaymentHistory(ps: seq<Period>, current: int, x: Expense, k: nat, j: nat)
    requires x.originalAmount.None? && x.paidAmount.None?
    requires current <= k < |ps| && j < |ps[k].expenses| && ps[k].expenses[j].id == x.id
    ensures var e := TemplateScopeEdited(ps, current, x)[k].expenses[j];
      && e.originalAmount == ps[k].expenses[j].originalAmount
      && e.paidAmount == ps[k].expenses[j].paidAmount
      && e.amount == x.amount
  {
  }

  /** Applying the same template-scope edit twice is applying it once. */
  lemma TemplateScopeIdempotent(ps: seq<Period>, current: int, x: Expense)
    ensures TemplateScopeEdited(TemplateScopeEdited(ps, current, x), current, x)
      == TemplateScopeEdited(ps, current, x)
  {
    var r := TemplateScopeEdited(ps, current, x);
    var r2 := TemplateScopeEdited(r, current, x);
    forall k | 0 <= k < |ps| ensures r2[k] == r[k] {
      if k >= current {
        assert r2[k].expenses == r[k].expenses;
      }
    }
  }

  /** `updateIncomeInPeriods`: each period's default income is re-read from
      the settings by its own paycheck type; nothing else changes. */
  function IncomeUpdated(ps: seq<Period>, income: IncomeSettings): (r: seq<Period>)
    ensures |r| == |ps|
    ensures forall k :: 0 <= k < |ps| ==>
      && r[k].defaultIncome == (if ps[k].track == A then income.paycheckA else income.paycheckB)
      && r[k] == ps[k].(defaultIncome := r[k].defaultIncome)
  {
    seq(|ps|, k requires 0 <= k < |ps| =>
      ps[k].(defaultIncome := if ps[k].track == A then income.paycheckA else income.paycheckB))
  }

  /** Refreshing the income of a rebuilt list gives what a rebuild with the
      new paycheck amounts would have given. */
  lemma IncomeUpdatedMatchesRebuild(ts: seq<Expense>, income: IncomeSettings, prev: seq<Period>,
                                    next: IncomeSettings)
    ensures IncomeUpdated(Generator.Generated(ts, income, prev), next)
      == Generator.Generated(ts, income.(paycheckA := next.paycheckA, paycheckB := next.paycheckB), prev)
  {
    var g := Generator.Generated(ts, income, prev);
    var income2 := income.(paycheckA := next.paycheckA, paycheckB := next.paycheckB);
    var g2 := Generator.Generated(ts, income2, prev);
    var r := IncomeUpdated(g, next);
    forall i | 0 <= i < |g| ensures r[i] == g2[i] {
      assert g[i] == Generator.BuildPeriod(ts, income, prev, i);
      assert g2[i] == Generator.BuildPeriod(ts, income2, prev, i);
    }
  }

  // ---------------------------------------------------------------------
  // One-offs (`addOneOff`, `updateOneOff`)
  // ---------------------------------------------------------------------

  /** The form fields of a one-off; an absent field is `None`. */
  datatype OneOffFields = OneOffFields(
    description: Option<string>,
    amount: Option<real>,
    category: Option<string>,
    notes: Option<string>,
    status: Option<Status>)

  /** `{ ...record, ...patch }`: present fields of the patch win. */
  function Patched(e: Expense, f: OneOffFields): (r: Expense)
    ensures r.id == e.id && r.isOneOff == e.isOneOff && r.createdAt == e.createdAt
    ensures r.description == Coalesce(f.description, e.description)
    ensures r.amount == Coalesce(f.amount, e.amount)
    ensures r.category == Coalesce(f.category, e.category)
    ensures r.notes == Coalesce(f.notes, e.notes)
    ensures r.status == Coalesce(f.status, e.status)
  {
    e.(description := Coalesce(f.description, e.description),
       amount := Coalesce(f.amount, e.amount),
       category := Coalesce(f.category, e.category),
       notes := Coalesce(f.notes, e.notes),
       status := Coalesce(f.status, e.status))
  }

  /** The store's new one-off: a fresh id, pending, stamped with the
      creation time, then the form fields. */
  function NewOneOff(f: OneOffFields, freshId: int, now: int): (r: Expense)
    ensures r.id == freshId && r.isOneOff && r.createdAt == Some(now)
    ensures r.status == Coalesce(f.status, Pending)
  {
    Patched(Blank.(id := freshId, isOneOff := true, status := Pending, createdAt := Some(now)), f)
  }

  /** The first period with that id gets `e` appended to its one-offs; a
      missing period (a thrown error in the source) changes nothing. */
  function OneOffAdded(ps: seq<Period>, periodId: int, e: Expense): (r: seq<Period>)
    ensures |r| == |ps|
    ensures forall k :: 0 <= k < |ps| && k != IndexOfPeriod(ps, periodId) ==> r[k] == ps[k]
    ensures IndexOfPeriod(ps, periodId) >= 0 ==>
      var k := IndexOfPeriod(ps, periodId);
      r[k] == ps[k].(oneOffExpenses := ps[k].oneOffExpenses + [e])
  {
    var k := IndexOfPeriod(ps, periodId);
    if k < 0 then ps
    else ps[k := ps[k].(oneOffExpenses := ps[k].oneOffExpenses + [e])]
  }

  /** The first one-off with that id, in the first period with that id, is
      patched; nothing else changes. */
  function OneOffUpdated(ps: seq<Period>, periodId: int, id: int, f: OneOffFields): (r: seq<Period>)
    ensures |r| == |ps|
    ensures forall k :: 0 <= k < |ps| && k != IndexOfPeriod(ps, periodId) ==> r[k] == ps[k]
    ensures IndexOfPeriod(ps, periodId) >= 0 ==>
      var k := IndexOfPeriod(ps, periodId);
      var os := ps[k].oneOffExpenses;
      var j := IndexOfExpense(os, id);
      && r[k] == ps[k].(oneOffExpenses := r[k].oneOffExpenses)
      && |r[k].oneOffExpenses| == |os|
      && (j < 0 ==> r[k].oneOffExpenses == os)
      && (j >= 0 ==> r[k].oneOffExpenses == os[j := Patched(os[j], f)])
  {
    var k := IndexOfPeriod(ps, periodId);
    if k < 0 then ps
    else
      var os := ps[k].oneOffExpenses;
      var j := IndexOfExpense(os, id);
      if j < 0 then ps
      else ps[k := ps[k].(oneOffExpenses := os[j := Patched(os[j], f)])]
  }

  /** Updating a one-off right after adding it under a fresh id is the same
      as adding the patched record. */
  lemma AddThenUpdateOneOff(ps: seq<Period>, periodId: int, e: Expense, f: OneOffFields)
    requires IndexOfPeriod(ps, periodId) >= 0
    requires !HasId(ps[IndexOfPeriod(ps, periodId)].oneOffExpenses, e.id)
    ensures OneOffUpdated(OneOffAdded(ps, periodId, e), periodId, e.id, f)
      == OneOffAdded(ps, periodId, Patched(e, f))
  {
    var k := IndexOfPeriod(ps, periodId);
    var a := OneOffAdded(ps, periodId, e);
    IndexOfSameIds(ps, a, periodId);
    var os := ps[k].oneOffExpenses;
    var os2 := os + [e];
    assert IndexOfExpense(os2, e.id) == |os| by {
      assert os2[|os|].id == e.id;
      forall j | 0 <= j < |os| ensures os2[j].id != e.id {
        assert os2[j] == os[j];
      }
    }
    assert os2[|os| := Patched(e, f)] == os + [Patched(e, f)];
  }
}
