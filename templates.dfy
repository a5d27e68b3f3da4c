/** The template list editor (`handleFormSave` and `handleDeleteExpense` of
    src/features/Expenses/SourceExpenseManagement.jsx and of its copy under
    src/features/Expenses/components/): fresh ids are allocated as the
    largest id plus one, an edit replaces the template in place and
    reactivates it, and a delete only deactivates. */
module Templates {
  import opened Values
  import Generator

  /** The template list together with the template open in the form. */
  datatype TemplateState = TemplateState(templates: seq<Expense>, editing: Option<Expense>)

  /** `Math.max(...ids, 0)` */
  function MaxId(ts: seq<Expense>): (m: int)
    ensures m >= 0
    ensures forall k :: 0 <= k < |ts| ==> ts[k].id <= m
    ensures m == 0 || exists k :: 0 <= k < |ts| && ts[k].id == m
  {
    if |ts| == 0 then 0
    else
      var rest := MaxId(ts[..|ts| - 1]);
      var last := ts[|ts| - 1].id;
      if last > rest then last else rest
  }

  /** `Math.max(...ids, 0) + 1`: at least 1, above every id in use, and
      either 1 or one more than an id in use. */
  function NewTemplateId(ts: seq<Expense>): (id: int)
    ensures id >= 1
    ensures forall k :: 0 <= k < |ts| ==> ts[k].id < id
    ensures id == 1 || exists k :: 0 <= k < |ts| && ts[k].id == id - 1
  {
    MaxId(ts) + 1
  }

  /** `handleFormSave`: an edit replaces every template with the edited id
      by the form data under that id, made active; otherwise the form data is
      appended, active, under a fresh id.  The form is closed either way. */
  function FormSaved(s: TemplateState, formData: Expense): (r: TemplateState)
    ensures r.editing.None?
    ensures s.editing.Some? ==>
      && |r.templates| == |s.templates|
      && forall k :: 0 <= k < |s.templates| ==>
           r.templates[k] == (if s.templates[k].id == s.editing.value.id
                              then formData.(id := s.editing.value.id, active := true)
                              else s.templates[k])
    ensures s.editing.None? ==>
      && |r.templates| == |s.templates| + 1
      && r.templates[..|s.templates|] == s.templates
      && r.templates[|s.templates|] == formData.(id := NewTemplateId(s.templates), active := true)
  {
    match s.editing
    case Some(editing) =>
      TemplateState(ReplaceId(s.templates, editing.id, formData.(id := editing.id, active := true)), None)
    case None =>
      TemplateState(s.templates + [formData.(id := NewTemplateId(s.templates), active := true)], None)
  }

  /** `handleDeleteExpense`: a soft delete that only deactivates. */
  function TemplateDeleted(ts: seq<Expense>, id: int): (r: seq<Expense>)
    ensures |r| == |ts|
    ensures forall k :: 0 <= k < |ts| ==>
      r[k] == (if ts[k].id == id then ts[k].(active := false) else ts[k])
  {
    seq(|ts|, k requires 0 <= k < |ts| => if ts[k].id == id then ts[k].(active := false) else ts[k])
  }

  /** Saving never introduces a duplicate id: an edit keeps every id, and a
      new template's id is above all of them. */
  lemma FormSavedKeepsIdsUnique(s: TemplateState, formData: Expense)
    requires Generator.UniqueIds(s.templates)
    ensures Generator.UniqueIds(FormSaved(s, formData).templates)
  {
    var r := FormSaved(s, formData).templates;
    if s.editing.Some? {
      assert forall k :: 0 <= k < |r| ==> r[k].id == s.templates[k].id;
    } else {
      var n := |s.templates|;
      forall j, k | 0 <= j < k < |r|
        ensures r[j].id != r[k].id
      {
        if k < n {
          assert r[j] == s.templates[j] && r[k] == s.templates[k];
        } else {
          assert r[j] == s.templates[j];
        }
      }
    }
  }

  /** The id a new template receives was not in use before the save. */
  lemma NewTemplateFresh(s: TemplateState, formData: Expense)
    requires s.editing.None?
    ensures !HasId(s.templates, FormSaved(s, formData).templates[|s.templates|].id)
    ensures HasId(FormSaved(s, formData).templates, NewTemplateId(s.templates))
  {
    var r := FormSaved(s, formData).templates;
    assert r[|s.templates|].id == NewTemplateId(s.templates);
  }

  /** An edit leaves every other template untouched and the edited ones
      active under their own id. */
  lemma EditReplacesOnlyMatch(s: TemplateState, formData: Expense, k: nat)
    requires s.editing.Some? && k < |s.templates|
    ensures var r := FormSaved(s, formData).templates;
      && (s.templates[k].id != s.editing.value.id ==> r[k] == s.templates[k])
      && (s.templates[k].id == s.editing.value.id ==> r[k].id == s.templates[k].id && r[k].active)
  {
  }

  /** After a delete no template with that id is active any more, so the
      period generator no longer finds it; everything else is kept. */
  lemma DeletedTemplateInactive(ts: seq<Expense>, id: int)
    ensures Generator.FindActiveTemplate(TemplateDeleted(ts, id), id).None?
    ensures forall k :: 0 <= k < |ts| ==> TemplateDeleted(ts, id)[k].id == ts[k].id
    ensures forall k :: 0 <= k < |ts| && ts[k].id != id ==> TemplateDeleted(ts, id)[k] == ts[k]
  {
    var r := TemplateDeleted(ts, id);
    FindInactive(r, id);
  }

  lemma {:induction false} FindInactive(ts: seq<Expense>, id: int)
    requires forall k :: 0 <= k < |ts| && ts[k].id == id ==> !ts[k].active
    ensures Generator.FindActiveTemplate(ts, id).None?
    decreases |ts|
  {
    if |ts| > 0 {
      FindInactive(ts[1..], id);
    }
  }

  /** Deleting twice is deleting once. */
  lemma DeleteIdempotent(ts: seq<Expense>, id: int)
    ensures TemplateDeleted(TemplateDeleted(ts, id), id) == TemplateDeleted(ts, id)
  {
  }

  /** Creating a template and then deleting it leaves it in the list,
      inactive: nothing is ever removed. */
  lemma SaveThenDeleteKeepsTemplate(s: TemplateState, formData: Expense)
    requires s.editing.None?
    ensures var r := FormSaved(s, formData).templates;
      var d := TemplateDeleted(r, NewTemplateId(s.templates));
      && |d| == |s.templates| + 1
      && d[..|s.templates|] == s.templates
      && d[|s.templates|] == formData.(id := NewTemplateId(s.templates), active := false)
  {
    var r := FormSaved(s, formData).templates;
    var d := TemplateDeleted(r, NewTemplateId(s.templates));
    forall k | 0 <= k < |s.templates|
      ensures d[k] == s.templates[k]
    {
      assert r[k] == s.templates[k];
    }
  }
}
