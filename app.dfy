/** The state kept by the main component (src/ExpenseTrackingApp.jsx): the
    templates, the periods, an undo stack of whole-list snapshots and the
    expense modal, with the handlers that change them. */
module App {
  import opened Values
  import opened AppOps
  import PeriodOps
  import Store
  import Templates

  const SnapshotLimit: nat := 10

  class ExpenseTrackingApp {
    var sourceExpenses: seq<Expense>
    var periods: seq<Period>
    var undoStack: seq<seq<Period>>
    var modalOpen: bool
    var modalExpense: Option<Expense>
    var modalPeriodId: Option<int>

    ghost predicate Valid()
      reads this
    {
      |undoStack| <= SnapshotLimit
    }

    /** An empty component state; loading a saved state is not modelled. */
    constructor(templates: seq<Expense>)
      ensures Valid()
      ensures sourceExpenses == templates && periods == [] && undoStack == []
      ensures !modalOpen && modalExpense.None? && modalPeriodId.None?
    {
      sourceExpenses := templates;
      periods := [];
      undoStack := [];
      modalOpen := false;
      modalExpense := None;
      modalPeriodId := None;
    }

    /** The effect that keeps only the newest ten snapshots. */
    method TrimUndo()
      modifies this
      ensures Valid()
      ensures |old(undoStack)| <= SnapshotLimit ==> undoStack == old(undoStack)
      ensures |old(undoStack)| > SnapshotLimit ==>
        undoStack == old(undoStack)[|old(undoStack)| - SnapshotLimit..]
      ensures periods == old(periods) && sourceExpenses == old(sourceExpenses)
      ensures modalOpen == old(modalOpen) && modalExpense == old(modalExpense)
      ensures modalPeriodId == old(modalPeriodId)
    {
      if |undoStack| > SnapshotLimit {
        undoStack := undoStack[|undoStack| - SnapshotLimit..];
      }
    }

    /** `moveExpense`: a target outside the list changes nothing; otherwise
        a snapshot is pushed and the record moves to the neighbouring period
        (a source period that is not found leaves the periods as they are). */
    method MoveExpense(e: Expense, fromId: int, direction: Store.Direction)
      requires Valid()
      modifies this
      ensures Valid()
      ensures var fi := IndexOfPeriod(old(periods), fromId);
        var ti := if direction == Store.Forward then fi + 1 else fi - 1;
        if ti < 0 || ti >= |old(periods)| then
          periods == old(periods) && undoStack == old(undoStack)
        else
          && undoStack == PushBounded(old(undoStack), old(periods))
          && periods == AppMoved(old(periods), e, fromId, old(periods)[ti].id)
      ensures sourceExpenses == old(sourceExpenses)
      ensures modalOpen == old(modalOpen) && modalExpense == old(modalExpense)
      ensures modalPeriodId == old(modalPeriodId)
    {
      var fromIndex := IndexOfPeriod(periods, fromId);
      var toIndex := if direction == Store.Forward then fromIndex + 1 else fromIndex - 1;
      if toIndex < 0 || toIndex >= |periods| {
        return;
      }
      var toId := periods[toIndex].id;
      undoStack := PushBounded(undoStack, periods);
      MoveRaw(e, fromId, toId);
    }

    /** The update applied to a copy of the periods by `moveExpense`. */
    method MoveRaw(e: Expense, fromId: int, toId: int)
      modifies this
      ensures periods == AppMoved(old(periods), e, fromId, toId)
      ensures sourceExpenses == old(sourceExpenses) && undoStack == old(undoStack)
      ensures modalOpen == old(modalOpen) && modalExpense == old(modalExpense)
      ensures modalPeriodId == old(modalPeriodId)
    {
      var fi := IndexOfPeriod(periods, fromId);
      var ti := IndexOfPeriod(periods, toId);
      if fi < 0 || ti < 0 {
        return;
      }
      var from := periods[fi];
      if e.isOneOff {
        from := from.(oneOffExpenses := RemoveId(from.oneOffExpenses, e.id));
      } else {
        from := from.(expenses := RemoveId(from.expenses, e.id));
        if e.id !in from.excludedExpenseIds {
          from := from.(excludedExpenseIds := from.excludedExpenseIds + [e.id]);
        }
      }
      periods := periods[fi := from];
      var to := periods[ti];
      if e.isOneOff {
        var pos := Generator.MaxPosition(to.oneOffExpenses) + 1;
        to := to.(oneOffExpenses := to.oneOffExpenses + [AppArrived(e, toId, pos)]);
      } else {
        to := to.(excludedExpenseIds := RemoveInt(to.excludedExpenseIds, e.id));
        var pos := Generator.MaxPosition(to.expenses) + 1;
        to := to.(expenses := to.expenses + [AppArrived(e, toId, pos)]);
      }
      periods := periods[ti := to];
    }

    /** `handleUndo`: restores the newest snapshot and pops it; an empty
        stack changes nothing. */
    method HandleUndo()
      requires Valid()
      modifies this
      ensures Valid()
      ensures old(undoStack) == [] ==> periods == old(periods) && undoStack == []
      ensures old(undoStack) != [] ==>
        && periods == old(undoStack)[|old(undoStack)| - 1]
        && undoStack == old(undoStack)[..|old(undoStack)| - 1]
      ensures sourceExpenses == old(sourceExpenses)
      ensures modalOpen == old(modalOpen) && modalExpense == old(modalExpense)
      ensures modalPeriodId == old(modalPeriodId)
    {
      if |undoStack| > 0 {
        periods := undoStack[|undoStack| - 1];
        undoStack := undoStack[..|undoStack| - 1];
      }
    }

    /** A move followed by an undo gives back exactly the periods before the
        move, and, when the stack had room, the stack before it. */
    method MoveThenUndo(e: Expense, fromId: int, direction: Store.Direction)
      requires Valid()
      modifies this
      ensures Valid()
      ensures var fi := IndexOfPeriod(old(periods), fromId);
        var ti := if direction == Store.Forward then fi + 1 else fi - 1;
        0 <= ti < |old(periods)| ==>
          && periods == old(periods)
          && (|old(undoStack)| < SnapshotLimit ==> undoStack == old(undoStack))
    {
      MoveExpense(e, fromId, direction);
      HandleUndo();
    }

    /** `handleDelete` of the edit modal: a snapshot is pushed, every period
        with the modal's id loses the record (a template instance's id is
        excluded there once) and the modal closes. */
    method HandleDelete(edited: Expense)
      requires Valid()
      modifies this
      ensures Valid()
      ensures undoStack == PushBounded(old(undoStack), old(periods))
      ensures periods == AppDeleted(old(periods), old(modalPeriodId), edited)
      ensures sourceExpenses == old(sourceExpenses)
      ensures !modalOpen && modalExpense.None? && modalPeriodId.None?
    {
      undoStack := PushBounded(undoStack, periods);
      periods := AppDeleted(periods, modalPeriodId, edited);
      modalOpen := false;
      modalExpense := None;
      modalPeriodId := None;
    }

    /** `handleSave` of the partial-payment modal; `payment` is the parsed
        input, absent when it is not a number.  A refused payment changes
        nothing; an accepted one pushes a snapshot and updates the records
        with the payment's id in the first period with that id. */
    method PartialPayment(periodId: int, e: Expense, payment: Option<real>)
      requires Valid()
      modifies this
      ensures Valid()
      ensures !Accepts(e, payment) ==> periods == old(periods) && undoStack == old(undoStack)
      ensures Accepts(e, payment) ==>
        && undoStack == PushBounded(old(undoStack), old(periods))
        && periods == PartiallyPaid(old(periods), periodId, e, payment.value)
      ensures sourceExpenses == old(sourceExpenses)
      ensures modalOpen == old(modalOpen) && modalExpense == old(modalExpense)
      ensures modalPeriodId == old(modalPeriodId)
    {
      if payment.None? || payment.value <= 0.0 || payment.value > Remaining(e) {
        return;
      }
      undoStack := PushBounded(undoStack, periods);
      var k := IndexOfPeriod(periods, periodId);
      if k < 0 {
        return;
      }
      var p := periods[k];
      if e.isOneOff {
        p := p.(oneOffExpenses := PaidList(p.oneOffExpenses, e.id, payment.value));
      } else {
        p := p.(expenses := PaidList(p.expenses, e.id, payment.value));
      }
      periods := periods[k := p];
    }

    /** `handleExpenseModalSave`: the saved record (see
        `AppOps.Unflattened`) replaces the one in the modal's period and the
        modal closes.  Without a modal expense nothing changes. */
    method HandleExpenseModalSave(updated: Expense)
      modifies this
      ensures old(modalExpense).None? ==>
        && periods == old(periods) && modalOpen == old(modalOpen)
        && modalExpense == old(modalExpense) && modalPeriodId == old(modalPeriodId)
      ensures old(modalExpense).Some? ==>
        && periods == AppInstanceSaved(old(periods), old(modalPeriodId), old(modalExpense).value, updated)
        && !modalOpen && modalExpense.None? && modalPeriodId.None?
      ensures sourceExpenses == old(sourceExpenses) && undoStack == old(undoStack)
    {
      if modalExpense.None? {
        return;
      }
      periods := AppInstanceSaved(periods, modalPeriodId, modalExpense.value, updated);
      modalOpen := false;
      modalExpense := None;
      modalPeriodId := None;
    }

    /** `handleScopeConfirm`: the template scope rewrites the template (and
        re-activates it) and the instances from the modal's period on; the
        instance scope is `HandleExpenseModalSave`.  The modal closes. */
    method HandleScopeConfirm(edited: Expense, scope: Store.EditScope)
      modifies this
      ensures scope == Store.TemplateScope ==>
        && sourceExpenses == ReplaceId(old(sourceExpenses), edited.id, edited.(active := true))
        && periods == PeriodOps.TemplateScopeEdited(old(periods),
                                                    Store.ModalIndex(old(periods), old(modalPeriodId)), edited)
        && !modalOpen && modalExpense.None? && modalPeriodId.None?
      ensures scope == Store.InstanceScope ==>
        && sourceExpenses == old(sourceExpenses)
        && (old(modalExpense).None? ==> periods == old(periods) && modalExpense.None?)
        && (old(modalExpense).Some? ==>
              && periods == AppInstanceSaved(old(periods), old(modalPeriodId), old(modalExpense).value, edited)
              && !modalOpen && modalExpense.None? && modalPeriodId.None?)
      ensures undoStack == old(undoStack)
    {
      if scope == Store.TemplateScope {
        sourceExpenses := ReplaceId(sourceExpenses, edited.id, edited.(active := true));
        var current := Store.ModalIndex(periods, modalPeriodId);
        periods := PeriodOps.TemplateScopeEdited(periods, current, edited);
        modalOpen := false;
        modalExpense := None;
        modalPeriodId := None;
      } else {
        HandleExpenseModalSave(edited);
      }
    }

    /** `updateExpenseStatus`; an absent `cleared` keeps the stored one. */
    method UpdateExpenseStatus(periodId: int, id: int, s: Status, cleared: Option<real>)
      modifies this
      ensures periods == AppStatusUpdated(old(periods), periodId, id, s, cleared)
      ensures sourceExpenses == old(sourceExpenses) && undoStack == old(undoStack)
      ensures modalOpen == old(modalOpen) && modalExpense == old(modalExpense)
      ensures modalPeriodId == old(modalPeriodId)
    {
      periods := AppStatusUpdated(periods, periodId, id, s, cleared);
    }

    /** `handleDeleteExpense` of the template list: the soft delete of
        `Templates.TemplateDeleted`; the periods are left to the next rebuild. */
    method DeleteTemplate(expenseId: int)
      modifies this
      ensures sourceExpenses == Templates.TemplateDeleted(old(sourceExpenses), expenseId)
      ensures periods == old(periods) && undoStack == old(undoStack)
      ensures modalOpen == old(modalOpen) && modalExpense == old(modalExpense)
      ensures modalPeriodId == old(modalPeriodId)
    {
      sourceExpenses := Templates.TemplateDeleted(sourceExpenses, expenseId);
    }

    /** `addOneOff`; `freshId` and `now` stand for `makeId()` and the clock. */
    method AddOneOff(periodId: int, fields: PeriodOps.OneOffFields, freshId: int, now: int)
      modifies this
      ensures periods == PeriodOps.OneOffAdded(old(periods), periodId, NewAppOneOff(fields, freshId, now))
      ensures sourceExpenses == old(sourceExpenses) && undoStack == old(undoStack)
      ensures modalOpen == old(modalOpen) && modalExpense == old(modalExpense)
      ensures modalPeriodId == old(modalPeriodId)
    {
      var k := IndexOfPeriod(periods, periodId);
      if k < 0 {
        return;
      }
      var p := periods[k];
      p := p.(oneOffExpenses := p.oneOffExpenses + [NewAppOneOff(fields, freshId, now)]);
      periods := periods[k := p];
    }

    /** `updateOneOff`: the first one-off with that id takes the patch. */
    method UpdateOneOff(periodId: int, id: int, patch: PeriodOps.OneOffFields)
      modifies this
      ensures periods == PeriodOps.OneOffUpdated(old(periods), periodId, id, patch)
      ensures sourceExpenses == old(sourceExpenses) && undoStack == old(undoStack)
      ensures modalOpen == old(modalOpen) && modalExpense == old(modalExpense)
      ensures modalPeriodId == old(modalPeriodId)
    {
      var k := IndexOfPeriod(periods, periodId);
      if k < 0 {
        return;
      }
      var p := periods[k];
      var j := IndexOfExpense(p.oneOffExpenses, id);
      if j >= 0 {
        p := p.(oneOffExpenses := p.oneOffExpenses[j := PeriodOps.Patched(p.oneOffExpenses[j], patch)]);
        periods := periods[k := p];
      }
    }
  }
}
