/** Period generation (src/store/expenseStore.js, `generatePeriods`): the
    rebuild of the 24 pay periods from the template list, the income schedule
    and the previous period list.  This module holds the value-level
    definition of one rebuilt period; the loop that assembles the 24 of them
    is `Store.ExpenseStore.GeneratePeriods`. */
module Generator {
  import opened Values

  const PeriodCount: nat := 24
  const PeriodDays: int := 14

  predicate IsAPaycheck(first: Track, i: int) {
    if first == A then i % 2 == 0 else i % 2 == 1
  }

  /** `prevPeriods.find(p => p.id === i)` */
  function FindPeriod(ps: seq<Period>, id: int): (r: Option<Period>)
    ensures r.Some? <==> exists k :: 0 <= k < |ps| && ps[k].id == id
    ensures r.Some? ==> r.value.id == id && r.value in ps
  {
    var k := IndexOfPeriod(ps, id);
    if k < 0 then None else Some(ps[k])
  }

  /** `sourceExpenses.find(se => se.id === id && se.active)` */
  function FindActiveTemplate(ts: seq<Expense>, id: int): (r: Option<Expense>)
    ensures r.Some? ==> r.value in ts && r.value.id == id && r.value.active
    ensures r.None? ==> forall k :: 0 <= k < |ts| && ts[k].id == id ==> !ts[k].active
  {
    if |ts| == 0 then None
    else if ts[0].id == id && ts[0].active then Some(ts[0])
    else FindActiveTemplate(ts[1..], id)
  }

  /** No two active templates share an id (template ids are allocated as
      max + 1, see `Templates.NewTemplateId`). */
  ghost predicate UniqueActiveIds(ts: seq<Expense>) {
    forall j, k :: 0 <= j < k < |ts| && ts[j].active && ts[k].active ==> ts[j].id != ts[k].id
  }

  ghost predicate UniqueIds(es: seq<Expense>) {
    forall j, k :: 0 <= j < k < |es| ==> es[j].id != es[k].id
  }

  /** The structural test that decides whether an instance has diverged
      from its template and must be kept as it is. */
  predicate IsIndividuallyModified(e: Expense, t: Expense, i: int) {
    || e.amount != t.amount
    || e.description != t.description
    || e.category != t.category
    || e.status != Pending
    || e.notes != ""
    || e.periodId != Some(i)
  }

  /** An existing instance re-synced from its active template, or kept. */
  function Resync(e: Expense, ts: seq<Expense>, i: int): (r: Expense)
    ensures r.id == e.id
    ensures FindActiveTemplate(ts, e.id).None? ==> r == e
    ensures FindActiveTemplate(ts, e.id).Some? ==>
      var t := FindActiveTemplate(ts, e.id).value;
      if IsIndividuallyModified(e, t, i) then r == e
      else
        && r.amount == t.amount && r.description == t.description && r.category == t.category
        && r.notes == t.notes && r.active && r.periodId == Some(i) && r.status == e.status == Pending
        && r.amountCleared == Some(if e.amountCleared.Some? && e.amountCleared.value != 0.0
                                   then e.amountCleared.value else t.amount)
        && r.position == Some(Coalesce(e.position, 0))
  {
    match FindActiveTemplate(ts, e.id)
    case None => e
    case Some(t) =>
      if IsIndividuallyModified(e, t, i) then e
      else t.(periodId := Some(i), status := e.status,
              amountCleared := Some(OrElse(e.amountCleared, t.amount)),
              position := Some(Coalesce(e.position, 0)))
  }

  function Resynced(es: seq<Expense>, ts: seq<Expense>, i: int): (r: seq<Expense>)
    ensures |r| == |es|
  {
    seq(|es|, k requires 0 <= k < |es| => Resync(es[k], ts, i))
  }

  /** A fresh instance of template `t` in period `i`. */
  function Instantiate(t: Expense, i: int, pos: int): Expense {
    t.(periodId := Some(i), status := Pending, amountCleared := Some(t.amount), position := Some(pos))
  }

  /** `es.reduce((m, e) => Math.max(m, e.position ?? -1), -1)` */
  function MaxPosition(es: seq<Expense>): int {
    if |es| == 0 then -1
    else
      var m := MaxPosition(es[..|es| - 1]);
      var p := Coalesce(es[|es| - 1].position, -1);
      if m < p then p else m
  }

  /** The reduce yields the largest position, -1 standing for "none". */
  lemma {:induction false} MaxPositionBounds(es: seq<Expense>)
    ensures MaxPosition(es) >= -1
    ensures forall k :: 0 <= k < |es| ==> Coalesce(es[k].position, -1) <= MaxPosition(es)
    ensures MaxPosition(es) == -1 || exists k :: 0 <= k < |es| && Coalesce(es[k].position, -1) == MaxPosition(es)
  {
    if |es| > 0 {
      var init := es[..|es| - 1];
      MaxPositionBounds(init);
      assert forall k :: 0 <= k < |es| - 1 ==> init[k] == es[k];
    }
  }

  /** Active templates assigned to `track`, in template order. */
  function Matching(ts: seq<Expense>, track: Track): (r: seq<Expense>)
    ensures |r| <= |ts|
    ensures forall t :: t in r <==> t in ts && t.active && t.paycheck == track
  {
    if |ts| == 0 then []
    else
      var rest := Matching(ts[1..], track);
      assert forall t :: t in ts <==> t == ts[0] || t in ts[1..];
      if ts[0].active && ts[0].paycheck == track then [ts[0]] + rest else rest
  }

  /** Active templates of `track` that are neither present nor excluded. */
  function Candidates(ts: seq<Expense>, track: Track, present: seq<Expense>, excluded: seq<int>)
    : (r: seq<Expense>)
    ensures |r| <= |ts|
    ensures forall t :: t in r <==>
      t in ts && t.active && t.paycheck == track && !HasId(present, t.id) && t.id !in excluded
  {
    if |ts| == 0 then []
    else
      var rest := Candidates(ts[1..], track, present, excluded);
      assert forall t :: t in ts <==> t == ts[0] || t in ts[1..];
      var t := ts[0];
      if t.active && t.paycheck == track && !HasId(present, t.id) && t.id !in excluded
      then [t] + rest else rest
  }

  /** The `forEach ... push` of new templates: each gets the position after
      the largest one already in the list (see `AppendedAt`). */
  function AppendAll(l: seq<Expense>, cs: seq<Expense>, i: int): (r: seq<Expense>)
    ensures |r| == |l| + |cs|
    ensures r[..|l|] == l
    decreases |cs|
  {
    if |cs| == 0 then l
    else
      var r := AppendAll(l + [Instantiate(cs[0], i, MaxPosition(l) + 1)], cs[1..], i);
      assert r[..|l|] == r[..|l| + 1][..|l|];
      r
  }

  /** The `k`-th appended template lands right after what came before it. */
  lemma {:induction false} AppendedAt(l: seq<Expense>, cs: seq<Expense>, i: int, k: int)
    requires 0 <= k < |cs|
    ensures var r := AppendAll(l, cs, i);
      r[|l| + k] == Instantiate(cs[k], i, MaxPosition(r[..|l| + k]) + 1)
    decreases |cs|
  {
    var l' := l + [Instantiate(cs[0], i, MaxPosition(l) + 1)];
    var r := AppendAll(l, cs, i);
    assert r == AppendAll(l', cs[1..], i);
    if k == 0 {
      assert r[..|l|] == r[..|l'|][..|l|];
      assert r[|l|] == r[..|l'|][|l|];
    } else {
      AppendedAt(l', cs[1..], i, k - 1);
      assert cs[1..][k - 1] == cs[k];
    }
  }

  lemma AppendedIds(l: seq<Expense>, cs: seq<Expense>, i: int)
    ensures var r := AppendAll(l, cs, i);
      forall k :: 0 <= k < |cs| ==> r[|l| + k].id == cs[k].id
  {
    forall k | 0 <= k < |cs| ensures AppendAll(l, cs, i)[|l| + k].id == cs[k].id {
      AppendedAt(l, cs, i, k);
    }
  }

  /** A period built from scratch: every matching template, all at
      position 0 (the maximum is taken over the list still being built). */
  function Fresh(ts: seq<Expense>, track: Track, i: int): (r: seq<Expense>)
    ensures |r| == |Matching(ts, track)|
  {
    var m := Matching(ts, track);
    seq(|m|, k requires 0 <= k < |m| => Instantiate(m[k], i, 0))
  }

  /** The instance list of period `i`, given its previous state. */
  function PeriodExpenses(ts: seq<Expense>, prior: Option<Period>, track: Track, i: int)
    : seq<Expense>
  {
    if prior.Some? && |prior.value.expenses| > 0 then
      var mapped := Resynced(prior.value.expenses, ts, i);
      AppendAll(mapped, Candidates(ts, track, mapped, prior.value.excludedExpenseIds), i)
    else
      Fresh(ts, track, i)
  }

  /** Period `i` of a rebuild. */
  function BuildPeriod(ts: seq<Expense>, income: IncomeSettings, prev: seq<Period>, i: int)
    : Period
  {
    var isA := IsAPaycheck(income.firstPaycheckType, i);
    var track := if isA then A else B;
    var prior := FindPeriod(prev, i);
    Period(
      id := i,
      track := track,
      startDay := income.startDay + PeriodDays * i,
      endDay := income.startDay + PeriodDays * i + PeriodDays,
      defaultIncome := if isA then income.paycheckA else income.paycheckB,
      additionalIncome := if prior.Some? then prior.value.additionalIncome else 0.0,
      expenses := PeriodExpenses(ts, prior, track, i),
      oneOffExpenses := if prior.Some? then prior.value.oneOffExpenses else [],
      excludedExpenseIds := if prior.Some? then prior.value.excludedExpenseIds else [])
  }

  /** The whole rebuild: always 24 periods, ids 0..23 in order, alternating
      tracks, 14-day windows, the user's per-period data carried over. */
  function Generated(ts: seq<Expense>, income: IncomeSettings, prev: seq<Period>)
    : (ps: seq<Period>)
    ensures |ps| == PeriodCount
    ensures forall i :: 0 <= i < |ps| ==> ps[i].id == i
    ensures forall i :: 0 <= i < |ps| ==>
      (ps[i].track == A <==> (if income.firstPaycheckType == A then i % 2 == 0 else i % 2 == 1))
    ensures forall i :: 0 <= i < |ps| ==>
      ps[i].defaultIncome == (if ps[i].track == A then income.paycheckA else income.paycheckB)
    ensures forall i :: 0 <= i < |ps| ==>
      ps[i].startDay == income.startDay + 14 * i && ps[i].endDay == ps[i].startDay + 14
    ensures forall i :: 0 <= i < |ps| ==>
      var prior := FindPeriod(prev, i);
      && ps[i].additionalIncome == (if prior.Some? then prior.value.additionalIncome else 0.0)
      && ps[i].oneOffExpenses == (if prior.Some? then prior.value.oneOffExpenses else [])
      && ps[i].excludedExpenseIds == (if prior.Some? then prior.value.excludedExpenseIds else [])
  {
    seq(PeriodCount, i requires 0 <= i < PeriodCount => BuildPeriod(ts, income, prev, i))
  }

  // ---------------------------------------------------------------------
  // Properties of one rebuilt period
  // ---------------------------------------------------------------------

  /** A previously materialized period keeps its instances, each re-synced
      or kept, in their old order and ahead of anything appended. */
  lemma ExistingInstancesFirst(ts: seq<Expense>, prior: Period, track: Track, i: int)
    requires |prior.expenses| > 0
    ensures var r := PeriodExpenses(ts, Some(prior), track, i);
      && |r| >= |prior.expenses|
      && forall k :: 0 <= k < |prior.expenses| ==> r[k] == Resync(prior.expenses[k], ts, i)
  {
    var mapped := Resynced(prior.expenses, ts, i);
    var r := PeriodExpenses(ts, Some(prior), track, i);
    assert r[..|mapped|] == mapped;
    forall k | 0 <= k < |prior.expenses| ensures r[k] == Resync(prior.expenses[k], ts, i) {
      assert r[k] == r[..|mapped|][k];
    }
  }

  /** What is appended after the kept instances: active templates of the
      period's track, absent from the kept list and not excluded, each at a
      position above every position before it. */
  lemma AppendedInstances(ts: seq<Expense>, prior: Period, track: Track, i: int, k: int)
    requires |prior.expenses| > 0
    requires |prior.expenses| <= k < |PeriodExpenses(ts, Some(prior), track, i)|
    ensures var r := PeriodExpenses(ts, Some(prior), track, i);
      exists t :: t in ts && t.active && t.paycheck == track
        && t.id !in prior.excludedExpenseIds && !HasId(r[..|prior.expenses|], t.id)
        && r[k].position.Some?
        && r[k] == Instantiate(t, i, r[k].position.value)
        && forall j :: 0 <= j < k ==> Coalesce(r[j].position, -1) < r[k].position.value
  {
    var mapped := Resynced(prior.expenses, ts, i);
    var cs := Candidates(ts, track, mapped, prior.excludedExpenseIds);
    var r := PeriodExpenses(ts, Some(prior), track, i);
    var n := |mapped|;
    var t := cs[k - n];
    assert t in cs;
    AppendedAt(mapped, cs, i, k - n);
    assert r[k] == Instantiate(t, i, MaxPosition(r[..k]) + 1);
    MaxPositionBounds(r[..k]);
    forall j | 0 <= j < k ensures Coalesce(r[j].position, -1) < r[k].position.value {
      assert r[..k][j] == r[j];
    }
  }

  /** Exclusion respected: a template id excluded from a period that still
      holds instances is never re-inserted by a rebuild. */
  lemma ExclusionRespected(ts: seq<Expense>, prior: Period, track: Track, i: int, id: int)
    requires |prior.expenses| > 0
    requires id in prior.excludedExpenseIds
    requires !HasId(prior.expenses, id)
    ensures !HasId(PeriodExpenses(ts, Some(prior), track, i), id)
  {
    var mapped := Resynced(prior.expenses, ts, i);
    var cs := Candidates(ts, track, mapped, prior.excludedExpenseIds);
    var r := PeriodExpenses(ts, Some(prior), track, i);
    var n := |mapped|;
    forall k | 0 <= k < |r| ensures r[k].id != id {
      if k < n {
        assert r[k] == r[..n][k] == mapped[k];
        assert mapped[k].id == prior.expenses[k].id;
      } else {
        AppendedAt(mapped, cs, i, k - n);
        assert cs[k - n] in cs;
      }
    }
  }

  /** The quirk of the emptiness test: once every instance has been moved or
      deleted out of a period, the next rebuild starts it from scratch and
      re-inserts even the excluded templates. */
  lemma EmptiedPeriodIgnoresExclusions(ts: seq<Expense>, prior: Period, track: Track, i: int, t: Expense)
    requires |prior.expenses| == 0
    requires t in ts && t.active && t.paycheck == track
    requires t.id in prior.excludedExpenseIds
    ensures HasId(PeriodExpenses(ts, Some(prior), track, i), t.id)
  {
    var m := Matching(ts, track);
    var k :| 0 <= k < |m| && m[k] == t;
    assert PeriodExpenses(ts, Some(prior), track, i)[k].id == t.id;
  }

  /** A period with no previous instances gets every active template of its
      track, in template order, pending, fully uncleared, at position 0. */
  lemma FreshPeriod(ts: seq<Expense>, prior: Option<Period>, track: Track, i: int)
    requires prior.None? || |prior.value.expenses| == 0
    ensures var r := PeriodExpenses(ts, prior, track, i);
      && |r| == |Matching(ts, track)|
      && forall k :: 0 <= k < |r| ==>
        var t := Matching(ts, track)[k];
        && r[k].id == t.id && r[k].amount == t.amount && r[k].status == Pending
        && r[k].amountCleared == Some(t.amount) && r[k].position == Some(0)
        && r[k].periodId == Some(i)
  {
  }

  /** An instance whose template has been deactivated is kept, not dropped. */
  lemma InactiveTemplateInstanceKept(ts: seq<Expense>, prior: Period, track: Track, i: int, k: int)
    requires 0 <= k < |prior.expenses|
    requires forall t :: t in ts && t.id == prior.expenses[k].id ==> !t.active
    ensures PeriodExpenses(ts, Some(prior), track, i)[k] == prior.expenses[k]
  {
    ExistingInstancesFirst(ts, prior, track, i);
  }

  // ---------------------------------------------------------------------
  // No duplicates
  // ---------------------------------------------------------------------

  lemma {:induction false} CandidatesUnique(ts: seq<Expense>, track: Track, present: seq<Expense>, excluded: seq<int>)
    requires UniqueActiveIds(ts)
    ensures UniqueIds(Candidates(ts, track, present, excluded))
  {
    if |ts| > 0 {
      assert UniqueActiveIds(ts[1..]) by {
        forall j, k | 0 <= j < k < |ts| - 1 && ts[1..][j].active && ts[1..][k].active
          ensures ts[1..][j].id != ts[1..][k].id
        {
          assert ts[1..][j] == ts[j + 1] && ts[1..][k] == ts[k + 1];
        }
      }
      CandidatesUnique(ts[1..], track, present, excluded);
      var rest := Candidates(ts[1..], track, present, excluded);
      forall x | x in rest ensures x.id != ts[0].id || !ts[0].active {
        var k :| 0 <= k < |ts| - 1 && ts[1..][k] == x;
        assert ts[k + 1] == x;
      }
    }
  }

  lemma {:induction false} MatchingUnique(ts: seq<Expense>, track: Track)
    requires UniqueActiveIds(ts)
    ensures UniqueIds(Matching(ts, track))
  {
    if |ts| > 0 {
      assert UniqueActiveIds(ts[1..]) by {
        forall j, k | 0 <= j < k < |ts| - 1 && ts[1..][j].active && ts[1..][k].active
          ensures ts[1..][j].id != ts[1..][k].id
        {
          assert ts[1..][j] == ts[j + 1] && ts[1..][k] == ts[k + 1];
        }
      }
      MatchingUnique(ts[1..], track);
      var rest := Matching(ts[1..], track);
      forall x | x in rest ensures x.id != ts[0].id || !ts[0].active {
        var k :| 0 <= k < |ts| - 1 && ts[1..][k] == x;
        assert ts[k + 1] == x;
      }
    }
  }

  /** Ids of a list made of `a` followed by `b`, when both are duplicate
      free and no id of `b` occurs in `a`. */
  lemma JoinedUnique(r: seq<Expense>, a: seq<Expense>, b: seq<Expense>)
    requires |r| == |a| + |b|
    requires forall k :: 0 <= k < |a| ==> r[k].id == a[k].id
    requires forall k :: 0 <= k < |b| ==> r[|a| + k].id == b[k].id
    requires UniqueIds(a) && UniqueIds(b)
    requires forall k :: 0 <= k < |b| ==> !HasId(a, b[k].id)
    ensures UniqueIds(r)
  {
    var n := |a|;
    forall j, k | 0 <= j < k < |r| ensures r[j].id != r[k].id {
      if k < n {
      } else if j < n {
        assert r[k].id == b[k - n].id;
      } else {
        assert r[j].id == b[j - n].id && r[k].id == b[k - n].id;
      }
    }
  }

  /** A rebuild adds no duplicate id: a period whose instance ids were
      distinct keeps them distinct, given distinct active template ids. */
  lemma NoDuplicateIds(ts: seq<Expense>, prior: Option<Period>, track: Track, i: int)
    requires UniqueActiveIds(ts)
    requires prior.Some? ==> UniqueIds(prior.value.expenses)
    ensures UniqueIds(PeriodExpenses(ts, prior, track, i))
  {
    if prior.Some? && |prior.value.expenses| > 0 {
      var mapped := Resynced(prior.value.expenses, ts, i);
      var cs := Candidates(ts, track, mapped, prior.value.excludedExpenseIds);
      var r := AppendAll(mapped, cs, i);
      CandidatesUnique(ts, track, mapped, prior.value.excludedExpenseIds);
      AppendedIds(mapped, cs, i);
      assert forall k :: 0 <= k < |mapped| ==> mapped[k].id == prior.value.expenses[k].id;
      assert forall k :: 0 <= k < |mapped| ==> r[k] == r[..|mapped|][k];
      assert forall k :: 0 <= k < |cs| ==> cs[k] in cs;
      JoinedUnique(r, mapped, cs);
    } else {
      MatchingUnique(ts, track);
    }
  }

  // ---------------------------------------------------------------------
  // Idempotence of regeneration
  // ---------------------------------------------------------------------

  lemma FindActiveIsUnique(ts: seq<Expense>, t: Expense)
    requires UniqueActiveIds(ts)
    requires t in ts && t.active
    ensures FindActiveTemplate(ts, t.id) == Some(t)
  {
    var f := FindActiveTemplate(ts, t.id);
    var k :| 0 <= k < |ts| && ts[k] == t;
    if f.Some? {
      var j :| 0 <= j < |ts| && ts[j] == f.value;
      if j < k {} else if k < j {}
    }
  }

  /** Re-syncing an already re-synced instance changes nothing. */
  lemma ResyncIdempotent(e: Expense, ts: seq<Expense>, i: int)
    ensures Resync(Resync(e, ts, i), ts, i) == Resync(e, ts, i)
  {
  }

  /** A template instance created by a rebuild survives the next one as is. */
  lemma InstantiateStable(t: Expense, ts: seq<Expense>, i: int, pos: int)
    requires UniqueActiveIds(ts)
    requires t in ts && t.active
    ensures Resync(Instantiate(t, i, pos), ts, i) == Instantiate(t, i, pos)
  {
    FindActiveIsUnique(ts, t);
  }

  lemma {:induction false} NoCandidates(ts: seq<Expense>, track: Track, present: seq<Expense>, excluded: seq<int>)
    requires forall t :: t in ts && t.active && t.paycheck == track && t.id !in excluded ==> HasId(present, t.id)
    ensures Candidates(ts, track, present, excluded) == []
  {
    if |ts| > 0 {
      NoCandidates(ts[1..], track, present, excluded);
    }
  }

  lemma KeptResyncStable(ts: seq<Expense>, mapped: seq<Expense>, before: seq<Expense>, cs: seq<Expense>, i: int)
    requires UniqueActiveIds(ts)
    requires mapped == Resynced(before, ts, i)
    requires forall t :: t in cs ==> t in ts && t.active
    ensures var l := AppendAll(mapped, cs, i);
      forall k :: 0 <= k < |l| ==> Resync(l[k], ts, i) == l[k]
  {
    var l := AppendAll(mapped, cs, i);
    var n := |mapped|;
    forall k | 0 <= k < |l| ensures Resync(l[k], ts, i) == l[k] {
      if k < n {
        assert l[k] == l[..n][k] == Resync(before[k], ts, i);
        ResyncIdempotent(before[k], ts, i);
      } else {
        assert cs[k - n] in cs;
        AppendedAt(mapped, cs, i, k - n);
        InstantiateStable(cs[k - n], ts, i, MaxPosition(l[..k]) + 1);
      }
    }
  }

  lemma FreshResyncStable(ts: seq<Expense>, track: Track, i: int)
    requires UniqueActiveIds(ts)
    ensures var l := Fresh(ts, track, i);
      forall k :: 0 <= k < |l| ==> Resync(l[k], ts, i) == l[k]
  {
    var l := Fresh(ts, track, i);
    var m := Matching(ts, track);
    forall k | 0 <= k < |l| ensures Resync(l[k], ts, i) == l[k] {
      assert m[k] in m;
      InstantiateStable(m[k], ts, i, 0);
    }
  }

  /** Every instance of a rebuilt list is a fixed point of `Resync`. */
  lemma RebuiltResyncStable(ts: seq<Expense>, prior: Option<Period>, track: Track, i: int)
    requires UniqueActiveIds(ts)
    ensures var l := PeriodExpenses(ts, prior, track, i);
      forall k :: 0 <= k < |l| ==> Resync(l[k], ts, i) == l[k]
  {
    if prior.Some? && |prior.value.expenses| > 0 {
      var mapped := Resynced(prior.value.expenses, ts, i);
      var cs := Candidates(ts, track, mapped, prior.value.excludedExpenseIds);
      assert PeriodExpenses(ts, prior, track, i) == AppendAll(mapped, cs, i);
      KeptResyncStable(ts, mapped, prior.value.expenses, cs, i);
    } else {
      FreshResyncStable(ts, track, i);
    }
  }

  lemma KeptComplete(ts: seq<Expense>, track: Track, mapped: seq<Expense>, excluded: seq<int>, i: int, t: Expense)
    requires t in ts && t.active && t.paycheck == track && t.id !in excluded
    ensures HasId(AppendAll(mapped, Candidates(ts, track, mapped, excluded), i), t.id)
  {
    var cs := Candidates(ts, track, mapped, excluded);
    if HasId(mapped, t.id) {
      KeptPresent(mapped, cs, i, t.id);
    } else {
      assert t in cs;
      AppendedPresent(mapped, cs, i, t);
    }
  }

  /** An id already kept stays in the list after the appends. */
  lemma KeptPresent(mapped: seq<Expense>, cs: seq<Expense>, i: int, id: int)
    requires HasId(mapped, id)
    ensures HasId(AppendAll(mapped, cs, i), id)
  {
    var l := AppendAll(mapped, cs, i);
    var k :| 0 <= k < |mapped| && mapped[k].id == id;
    assert l[k] == l[..|mapped|][k];
  }

  /** Every candidate's id is in the list after the appends. */
  lemma AppendedPresent(mapped: seq<Expense>, cs: seq<Expense>, i: int, t: Expense)
    requires t in cs
    ensures HasId(AppendAll(mapped, cs, i), t.id)
  {
    var l := AppendAll(mapped, cs, i);
    var k :| 0 <= k < |cs| && cs[k] == t;
    AppendedAt(mapped, cs, i, k);
    assert l[|mapped| + k].id == t.id;
  }

  /** After a rebuild, every template the period should hold is present. */
  lemma RebuiltComplete(ts: seq<Expense>, prior: Option<Period>, track: Track, i: int, t: Expense)
    requires t in ts && t.active && t.paycheck == track
    requires prior.Some? ==> t.id !in prior.value.excludedExpenseIds
    ensures HasId(PeriodExpenses(ts, prior, track, i), t.id)
  {
    if prior.Some? && |prior.value.expenses| > 0 {
      KeptComplete(ts, track, Resynced(prior.value.expenses, ts, i), prior.value.excludedExpenseIds, i, t);
    } else {
      var l := Fresh(ts, track, i);
      var m := Matching(ts, track);
      var k :| 0 <= k < |m| && m[k] == t;
      assert l[k].id == t.id;
    }
  }

  /** The instance list of a rebuilt period is a fixed point of the rebuild. */
  lemma PeriodExpensesIdempotent(ts: seq<Expense>, prior: Option<Period>, track: Track, i: int, q: Period)
    requires UniqueActiveIds(ts)
    requires q.expenses == PeriodExpenses(ts, prior, track, i)
    requires q.excludedExpenseIds == (if prior.Some? then prior.value.excludedExpenseIds else [])
    ensures PeriodExpenses(ts, Some(q), track, i) == q.expenses
  {
    var l := q.expenses;
    if |l| > 0 {
      RebuiltResyncStable(ts, prior, track, i);
      assert Resynced(l, ts, i) == l;
      forall t | t in ts && t.active && t.paycheck == track && t.id !in q.excludedExpenseIds
        ensures HasId(l, t.id)
      {
        RebuiltComplete(ts, prior, track, i, t);
      }
      NoCandidates(ts, track, l, q.excludedExpenseIds);
    }
  }

  /** Idempotence of regeneration: rebuilding from the result of a rebuild,
      with the same templates and income schedule, yields the same periods. */
  lemma GeneratedIdempotent(ts: seq<Expense>, income: IncomeSettings, prev: seq<Period>)
    requires UniqueActiveIds(ts)
    ensures Generated(ts, income, Generated(ts, income, prev)) == Generated(ts, income, prev)
  {
    var g := Generated(ts, income, prev);
    var g2 := Generated(ts, income, g);
    forall i | 0 <= i < PeriodCount ensures g2[i] == g[i] {
      var k := IndexOfPeriod(g, i);
      assert g[i].id == i;
      assert k == i;
      assert FindPeriod(g, i) == Some(g[i]);
      var prior := FindPeriod(prev, i);
      var track := if IsAPaycheck(income.firstPaycheckType, i) then A else B;
      assert g[i] == BuildPeriod(ts, income, prev, i);
      PeriodExpensesIdempotent(ts, prior, track, i, g[i]);
    }
  }
}
