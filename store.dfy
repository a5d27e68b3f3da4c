/** The persisted store of src/store/expenseStore.js: templates, income
    settings, the 24 periods, the undo stack of replayable actions and the
    expense modal, with the actions that change them in place. */
module Store {
  import opened Values
  import opened Generator
  import opened PeriodOps

  /** An undo entry: a move to replay, or a deleted record to re-add. */
  datatype UndoAction =
    | MoveAction(expense: Expense, fromPeriodId: int, toPeriodId: int)
    | AddAction(expense: Expense, periodId: Option<int>)

  datatype Direction = Forward | Backward

  datatype EditScope = InstanceScope | TemplateScope

  const UndoLimit: nat := 10

  /** The six starter templates of a new store. */
  const DefaultTemplates: seq<Expense> := [
    Blank.(id := 1, description := "Rent", category := "Housing", amount := 1200.0,
           dueDate := 1, paycheck := A, active := true),
    Blank.(id := 2, description := "Credit Card", category := "Debt", amount := 150.0,
           dueDate := 15, paycheck := B, isDebt := true, balance := 3500.0, apr := 18.5,
           minimumPayment := 150.0, active := true),
    Blank.(id := 3, description := "Groceries", category := "Food", amount := 400.0,
           dueDate := 10, paycheck := A, active := true),
    Blank.(id := 4, description := "Car Payment", category := "Transportation", amount := 350.0,
           dueDate := 20, paycheck := B, isDebt := true, balance := 8500.0, apr := 4.5,
           minimumPayment := 350.0, active := true),
    Blank.(id := 5, description := "Utilities", category := "Housing", amount := 150.0,
           dueDate := 5, paycheck := A, active := true),
    Blank.(id := 6, description := "Student Loan", category := "Debt", amount := 200.0,
           dueDate := 25, paycheck := B, isDebt := true, balance := 15000.0, apr := 6.8,
           minimumPayment := 200.0, active := true)
  ]

  /** The starter templates have distinct ids, so regeneration from them is
      idempotent (`Generator.GeneratedIdempotent`). */
  lemma DefaultTemplatesUnique()
    ensures UniqueActiveIds(DefaultTemplates)
    ensures forall k :: 0 <= k < |DefaultTemplates| ==> DefaultTemplates[k].id == k + 1
  {
    assert forall k :: 0 <= k < |DefaultTemplates| ==> DefaultTemplates[k].id == k + 1;
  }

  /** What `handleUndo` does with a popped action. */
  function Replayed(ps: seq<Period>, a: UndoAction): seq<Period> {
    match a
    case MoveAction(e, fromId, toId) => Moved(ps, e, fromId, toId)
    case AddAction(e, Some(pid)) => ExpenseAdded(ps, e, pid)
    case AddAction(_, None) => ps
  }

  /** `periods.findIndex(p => p.id === id)` for a possibly null id. */
  function ModalIndex(ps: seq<Period>, id: Option<int>): (r: int)
    ensures -1 <= r < |ps|
    ensures id.None? ==> r == -1
    ensures id.Some? ==> r == IndexOfPeriod(ps, id.value)
  {
    if id.None? then -1 else IndexOfPeriod(ps, id.value)
  }

  class ExpenseStore {
    var sourceExpenses: seq<Expense>
    var incomeSettings: IncomeSettings
    var periods: seq<Period>
    var undoStack: seq<UndoAction>
    var modalOpen: bool
    var modalExpense: Option<Expense>
    var modalPeriodId: Option<int>

    ghost predicate Valid()
      reads this
    {
      |undoStack| <= UndoLimit
    }

    /** The initial state; `startDay` stands for "now". */
    constructor(startDay: int)
      ensures Valid()
      ensures sourceExpenses == DefaultTemplates
      ensures incomeSettings == IncomeSettings(2800.0, 2800.0, startDay, A)
      ensures periods == [] && undoStack == []
      ensures !modalOpen && modalExpense.None? && modalPeriodId.None?
    {
      sourceExpenses := DefaultTemplates;
      incomeSettings := IncomeSettings(2800.0, 2800.0, startDay, A);
      periods := [];
      undoStack := [];
      modalOpen := false;
      modalExpense := None;
      modalPeriodId := None;
    }

    /** `generatePeriods`: rebuilds the 24 periods from the templates, the
        income settings and the current periods. */
    method GeneratePeriods()
      modifies this
      ensures periods == Generated(old(sourceExpenses), old(incomeSettings), old(periods))
      ensures sourceExpenses == old(sourceExpenses) && incomeSettings == old(incomeSettings)
      ensures undoStack == old(undoStack)
      ensures modalOpen == old(modalOpen) && modalExpense == old(modalExpense)
      ensures modalPeriodId == old(modalPeriodId)
    {
      var ts := sourceExpenses;
      var income := incomeSettings;
      var prev := periods;
      var generated: seq<Period> := [];
      for i := 0 to PeriodCount
        invariant |generated| == i
        invariant forall k :: 0 <= k < i ==> generated[k] == BuildPeriod(ts, income, prev, k)
      {
        var isA := IsAPaycheck(income.firstPaycheckType, i);
        var track := if isA then A else B;
        var existing := FindPeriod(prev, i);
        var periodExpenses: seq<Expense>;
        if existing.Some? && |existing.value.expenses| > 0 {
          var mapped := Resynced(existing.value.expenses, ts, i);
          var additions := Candidates(ts, track, mapped, existing.value.excludedExpenseIds);
          periodExpenses := mapped;
          for j := 0 to |additions|
            invariant AppendAll(periodExpenses, additions[j..], i) == AppendAll(mapped, additions, i)
          {
            assert additions[j..][1..] == additions[j + 1..];
            periodExpenses := periodExpenses + [Instantiate(additions[j], i, MaxPosition(periodExpenses) + 1)];
          }
          assert additions[|additions|..] == [];
        } else {
          periodExpenses := Fresh(ts, track, i);
        }
        generated := generated + [Period(
          id := i,
          track := track,
          startDay := income.startDay + PeriodDays * i,
          endDay := income.startDay + PeriodDays * i + PeriodDays,
          defaultIncome := if isA then income.paycheckA else income.paycheckB,
          additionalIncome := if existing.Some? then existing.value.additionalIncome else 0.0,
          expenses := periodExpenses,
          oneOffExpenses := if existing.Some? then existing.value.oneOffExpenses else [],
          excludedExpenseIds := if existing.Some? then existing.value.excludedExpenseIds else [])];
      }
      periods := generated;
    }

    /** `_moveExpense`: the record leaves the source period and is appended
        to the destination, on a copy of the list. */
    method MoveRaw(e: Expense, fromId: int, toId: int)
      modifies this
      ensures periods == Moved(old(periods), e, fromId, toId)
      ensures sourceExpenses == old(sourceExpenses) && incomeSettings == old(incomeSettings)
      ensures undoStack == old(undoStack)
      ensures modalOpen == old(modalOpen) && modalExpense == old(modalExpense)
      ensures modalPeriodId == old(modalPeriodId)
    {
      var fi := IndexOfPeriod(periods, fromId);
      var ti := IndexOfPeriod(periods, toId);
      if fi < 0 || ti < 0 {
        return;
      }
      var from := periods[fi];
      if e.isOneOff {
        from := from.(oneOffExpenses := RemoveId(from.oneOffExpenses, e.id));
      } else {
        from := from.(expenses := RemoveId(from.expenses, e.id));
        from := from.(excludedExpenseIds := from.excludedExpenseIds + [e.id]);
      }
      periods := periods[fi := from];
      var to := periods[ti];
      if e.isOneOff {
        to := to.(oneOffExpenses := to.oneOffExpenses + [Arrived(e, toId)]);
      } else {
        to := to.(excludedExpenseIds := RemoveInt(to.excludedExpenseIds, e.id));
        to := to.(expenses := to.expenses + [Arrived(e, toId)]);
      }
      periods := periods[ti := to];
    }

    /** `moveExpense`: a move to the neighbouring period in list order.  A
        target outside the list changes nothing; otherwise the reverse move
        is pushed on the bounded undo stack and the move is applied. */
    method MoveExpense(e: Expense, fromId: int, direction: Direction)
      requires Valid()
      modifies this
      ensures Valid()
      ensures var fi := IndexOfPeriod(old(periods), fromId);
        var ti := if direction == Forward then fi + 1 else fi - 1;
        if ti < 0 || ti >= |old(periods)| then
          periods == old(periods) && undoStack == old(undoStack)
        else
          && undoStack == PushBounded(old(undoStack), MoveAction(e, old(periods)[ti].id, fromId))
          && periods == Moved(old(periods), e, fromId, old(periods)[ti].id)
      ensures sourceExpenses == old(sourceExpenses) && incomeSettings == old(incomeSettings)
      ensures modalOpen == old(modalOpen) && modalExpense == old(modalExpense)
      ensures modalPeriodId == old(modalPeriodId)
    {
      var fromIndex := IndexOfPeriod(periods, fromId);
      var toIndex := if direction == Forward then fromIndex + 1 else fromIndex - 1;
      if toIndex < 0 || toIndex >= |periods| {
        return;
      }
      var toId := periods[toIndex].id;
      undoStack := PushBounded(undoStack, MoveAction(e, toId, fromId));
      MoveRaw(e, fromId, toId);
    }

    /** `_addExpense` */
    method AddExpenseRaw(e: Expense, periodId: Option<int>)
      modifies this
      ensures periods == Replayed(old(periods), AddAction(e, periodId))
      ensures sourceExpenses == old(sourceExpenses) && incomeSettings == old(incomeSettings)
      ensures undoStack == old(undoStack)
      ensures modalOpen == old(modalOpen) && modalExpense == old(modalExpense)
      ensures modalPeriodId == old(modalPeriodId)
    {
      if periodId.None? {
        return;
      }
      var k := IndexOfPeriod(periods, periodId.value);
      if k < 0 {
        return;
      }
      var p := periods[k];
      if e.isOneOff {
        p := p.(oneOffExpenses := p.oneOffExpenses + [e]);
      } else {
        p := p.(expenses := p.expenses + [e]);
        p := p.(excludedExpenseIds := RemoveInt(p.excludedExpenseIds, e.id));
      }
      periods := periods[k := p];
    }

    /** `handleUndo`: pops exactly the newest action and replays it; an
        empty stack changes nothing. */
    method HandleUndo()
      requires Valid()
      modifies this
      ensures Valid()
      ensures old(undoStack) == [] ==> periods == old(periods) && undoStack == []
      ensures old(undoStack) != [] ==>
        && undoStack == old(undoStack)[..|old(undoStack)| - 1]
        && periods == Replayed(old(periods), old(undoStack)[|old(undoStack)| - 1])
      ensures sourceExpenses == old(sourceExpenses) && incomeSettings == old(incomeSettings)
      ensures modalOpen == old(modalOpen) && modalExpense == old(modalExpense)
      ensures modalPeriodId == old(modalPeriodId)
    {
      if |undoStack| > 0 {
        var last := undoStack[|undoStack| - 1];
        undoStack := undoStack[..|undoStack| - 1];
        match last
        case MoveAction(e, fromId, toId) =>
          MoveRaw(e, fromId, toId);
        case AddAction(e, pid) =>
          AddExpenseRaw(e, pid);
      }
    }

    /** `deleteEditingExpense`: without a modal expense nothing happens;
        otherwise a re-add is pushed on the undo stack, the record leaves the
        modal's period and the modal closes. */
    method DeleteEditingExpense()
      requires Valid()
      modifies this
      ensures Valid()
      ensures old(modalExpense).None? ==>
        && periods == old(periods) && undoStack == old(undoStack)
        && modalOpen == old(modalOpen) && modalPeriodId == old(modalPeriodId) && modalExpense.None?
      ensures old(modalExpense).Some? ==>
        var e := old(modalExpense).value;
        && undoStack == PushBounded(old(undoStack), AddAction(e, old(modalPeriodId)))
        && periods == (if old(modalPeriodId).Some? then Deleted(old(periods), e, old(modalPeriodId).value)
                       else old(periods))
        && !modalOpen && modalExpense.None? && modalPeriodId.None?
      ensures sourceExpenses == old(sourceExpenses) && incomeSettings == old(incomeSettings)
    {
      if modalExpense.None? {
        return;
      }
      var e := modalExpense.value;
      undoStack := PushBounded(undoStack, AddAction(e, modalPeriodId));
      if modalPeriodId.Some? {
        var k := IndexOfPeriod(periods, modalPeriodId.value);
        if k >= 0 {
          var p := periods[k];
          if e.isOneOff {
            p := p.(oneOffExpenses := RemoveId(p.oneOffExpenses, e.id));
          } else {
            p := p.(expenses := RemoveId(p.expenses, e.id));
            p := p.(excludedExpenseIds := p.excludedExpenseIds + [e.id]);
          }
          periods := periods[k := p];
        }
      }
      modalOpen := false;
      modalExpense := None;
      modalPeriodId := None;
    }

    /** `updateExpenseStatus` */
    method UpdateExpenseStatus(periodId: int, id: int, s: Status)
      modifies this
      ensures periods == StatusUpdated(old(periods), periodId, id, s)
      ensures sourceExpenses == old(sourceExpenses) && incomeSettings == old(incomeSettings)
      ensures undoStack == old(undoStack)
      ensures modalOpen == old(modalOpen) && modalExpense == old(modalExpense)
      ensures modalPeriodId == old(modalPeriodId)
    {
      periods := StatusUpdated(periods, periodId, id, s);
    }

    /** `handleExpenseModalSave`: a template-scope save rewrites the template
        (re-activating it) and the instances from the modal's period on; an
        instance-scope save replaces the record in the modal's period only.
        The modal closes either way. */
    method HandleExpenseModalSave(x: Expense, scope: EditScope)
      modifies this
      ensures scope == TemplateScope ==>
        && sourceExpenses == ReplaceId(old(sourceExpenses), x.id, x.(active := true))
        && periods == TemplateScopeEdited(old(periods), ModalIndex(old(periods), old(modalPeriodId)), x)
      ensures scope == InstanceScope ==>
        && sourceExpenses == old(sourceExpenses)
        && periods == (if old(modalPeriodId).Some? then InstanceSaved(old(periods), old(modalPeriodId).value, x)
                       else old(periods))
      ensures incomeSettings == old(incomeSettings) && undoStack == old(undoStack)
      ensures !modalOpen && modalExpense.None? && modalPeriodId.None?
    {
      if scope == TemplateScope {
        sourceExpenses := ReplaceId(sourceExpenses, x.id, x.(active := true));
        var current := ModalIndex(periods, modalPeriodId);
        periods := TemplateScopeEdited(periods, current, x);
      } else if modalPeriodId.Some? {
        periods := InstanceSaved(periods, modalPeriodId.value, x);
      }
      modalOpen := false;
      modalExpense := None;
      modalPeriodId := None;
    }

    /** `updateIncomeInPeriods` */
    method UpdateIncomeInPeriods()
      modifies this
      ensures periods == IncomeUpdated(old(periods), old(incomeSettings))
      ensures sourceExpenses == old(sourceExpenses) && incomeSettings == old(incomeSettings)
      ensures undoStack == old(undoStack)
      ensures modalOpen == old(modalOpen) && modalExpense == old(modalExpense)
      ensures modalPeriodId == old(modalPeriodId)
    {
      periods := IncomeUpdated(periods, incomeSettings);
    }

    /** `addOneOff`; `freshId` and `now` stand for `makeId()` and the clock. */
    method AddOneOff(periodId: int, fields: OneOffFields, freshId: int, now: int)
      modifies this
      ensures periods == OneOffAdded(old(periods), periodId, NewOneOff(fields, freshId, now))
      ensures sourceExpenses == old(sourceExpenses) && incomeSettings == old(incomeSettings)
      ensures undoStack == old(undoStack)
      ensures modalOpen == old(modalOpen) && modalExpense == old(modalExpense)
      ensures modalPeriodId == old(modalPeriodId)
    {
      var k := IndexOfPeriod(periods, periodId);
      if k < 0 {
        return;
      }
      var p := periods[k];
      p := p.(oneOffExpenses := p.oneOffExpenses + [NewOneOff(fields, freshId, now)]);
      periods := periods[k := p];
    }

    /** `updateOneOff` */
    method UpdateOneOff(periodId: int, id: int, patch: OneOffFields)
      modifies this
      ensures periods == OneOffUpdated(old(periods), periodId, id, patch)
      ensures sourceExpenses == old(sourceExpenses) && incomeSettings == old(incomeSettings)
      ensures undoStack == old(undoStack)
      ensures modalOpen == old(modalOpen) && modalExpense == old(modalExpense)
      ensures modalPeriodId == old(modalPeriodId)
    {
      var k := IndexOfPeriod(periods, periodId);
      if k < 0 {
        return;
      }
      var p := periods[k];
      var j := IndexOfExpense(p.oneOffExpenses, id);
      if j >= 0 {
        p := p.(oneOffExpenses := p.oneOffExpenses[j := Patched(p.oneOffExpenses[j], patch)]);
        periods := periods[k := p];
      }
    }
  }

  /** A move followed by its undo puts the instance back into its source
      period and out of the destination, but leaves the destination
      excluding it (`PeriodOps.MoveUndoNotExact`). */
  lemma MoveUndoReplay(ps: seq<Period>, e: Expense, fromId: int, toId: int)
    requires !e.isOneOff && fromId != toId
    requires IndexOfPeriod(ps, fromId) >= 0 && IndexOfPeriod(ps, toId) >= 0
    ensures var r := Replayed(Moved(ps, e, fromId, toId), MoveAction(e, toId, fromId));
      && HasId(r[IndexOfPeriod(ps, fromId)].expenses, e.id)
      && !HasId(r[IndexOfPeriod(ps, toId)].expenses, e.id)
      && e.id in r[IndexOfPeriod(ps, toId)].excludedExpenseIds
  {
    MoveUndoNotExact(ps, e, fromId, toId);
    var r := Replayed(Moved(ps, e, fromId, toId), MoveAction(e, toId, fromId));
    var fi := IndexOfPeriod(ps, fromId);
    var n := |RemoveId(ps[fi].expenses, e.id)|;
    assert r[fi].expenses[n].id == e.id;
  }
}
