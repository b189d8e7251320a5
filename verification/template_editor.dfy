/**
 * The analysis-template editor screen: a form holding a template name and a list of
 * (name, unit) rows, its list handlers, and the two writes it makes to the store —
 * save (rename and replace every child, or create a template with its children) and
 * delete (the template and all its children, in one batch).
 */
module TemplateEditor {
  import opened Wrappers
  import opened Text
  import opened Store
  import Seed
  import opened Lists

  /** One row of the form's parameter list. */
  datatype FormItem = FormItem(name: string, unit: string)

  /** The row field an input edits. */
  datatype Field = Name | Unit

  /** What a press of "save" ends in: the empty-name alert, a finished write, or the failure alert. */
  datatype SaveOutcome = NameMissing | Saved | Failed

  const EMPTY_ROW: FormItem := FormItem("", "")

  function Get(row: FormItem, f: Field): string
  {
    match f
    case Name => row.name
    case Unit => row.unit
  }

  function Other(f: Field): Field
  {
    match f
    case Name => Unit
    case Unit => Name
  }

  /** No id occurs twice. */
  predicate Distinct(ids: seq<string>)
  {
    forall i, j :: 0 <= i < j < |ids| ==> ids[i] != ids[j]
  }

  /** Ids the store has just generated: pairwise different and none already used in `items`. */
  predicate FreshIds(ids: seq<string>, items: map<string, TemplateItem>)
  {
    Distinct(ids) && forall k :: 0 <= k < |ids| ==> ids[k] !in items
  }

  /** A list of distinct ids has as many members as elements. */
  lemma {:induction false} DistinctCardinality(ids: seq<string>)
    requires Distinct(ids)
    ensures |set k | 0 <= k < |ids| :: ids[k]| == |ids|
  {
    if ids != [] {
      var init := ids[..|ids| - 1];
      var last := ids[|ids| - 1];
      DistinctCardinality(init);
      assert (set k | 0 <= k < |ids| :: ids[k]) == (set k | 0 <= k < |init| :: init[k]) + {last};
      assert last !in (set k | 0 <= k < |init| :: init[k]);
    }
  }

  /** `handleItemChange`: row `i` gets `v` in field `f`; an index outside the list throws and changes nothing. */
  function SetField(s: seq<FormItem>, i: int, f: Field, v: string): (r: seq<FormItem>)
    ensures |r| == |s|
    ensures forall j :: 0 <= j < |s| && j != i ==> r[j] == s[j]
    ensures 0 <= i < |s| ==> Get(r[i], f) == v && Get(r[i], Other(f)) == Get(s[i], Other(f))
    ensures !(0 <= i < |s|) ==> r == s
  {
    if 0 <= i < |s| then
      s[i := match f case Name => s[i].(name := v) case Unit => s[i].(unit := v)]
    else s
  }

  /** The item row a form row is written as: each `@text` column trims what it is given. */
  function Row(tid: string, f: FormItem): TemplateItem
  {
    TemplateItem(tid, TextColumn(f.name), TextColumn(f.unit))
  }

  /** The records `items.map(...)` prepares for template `tid`, one per form row, in order. */
  function Rows(tid: string, form: seq<FormItem>): (rows: seq<TemplateItem>)
    ensures |rows| == |form|
    ensures forall k :: 0 <= k < |form| ==> rows[k] == Row(tid, form[k])
  {
    seq(|form|, k requires 0 <= k < |form| => Row(tid, form[k]))
  }

  /** With distinct new ids, id `ids[k]` ends up holding form row `k`. */
  lemma AddsRow(items: map<string, TemplateItem>, tid: string, form: seq<FormItem>, ids: seq<string>, k: int)
    requires |ids| == |form| && Distinct(ids) && 0 <= k < |ids|
    ensures Inserted(items, ids, Rows(tid, form))[ids[k]] == Row(tid, form[k])
  {
    var later := ids[k + 1..];
    forall j | 0 <= j < |later| ensures later[j] != ids[k] {
      assert later[j] == ids[k + 1 + j];
    }
    InsertedPlaces(items, ids, Rows(tid, form), k);
  }

  /** Under a parent with no children yet, the batch's rows are exactly its children. */
  lemma AddsChildren(items: map<string, TemplateItem>, tid: string, form: seq<FormItem>, ids: seq<string>)
    requires |ids| == |form| && Distinct(ids) && ChildIds(items, tid) == {}
    ensures forall id :: id in ChildIds(Inserted(items, ids, Rows(tid, form)), tid) <==> id in ids
  {
    var r := Inserted(items, ids, Rows(tid, form));
    forall id | id in ids ensures id in ChildIds(r, tid) {
      var k :| 0 <= k < |ids| && ids[k] == id;
      AddsRow(items, tid, form, ids, k);
    }
    forall id | id in r && id !in ids ensures r[id].templateId != tid {
      assert id !in ChildIds(items, tid);
    }
  }

  /** A set with the same members as a list of distinct ids has as many elements as the list. */
  lemma SameMembersSameSize(a: set<string>, ids: seq<string>)
    requires Distinct(ids) && forall id :: id in a <==> id in ids
    ensures |a| == |ids|
  {
    DistinctCardinality(ids);
    assert a == set k | 0 <= k < |ids| :: ids[k];
  }

  /**
   * The edit branch of `handleSave`: the template renamed to the trimmed name with its default
   * flag kept, its old children gone unless a new row reuses the id, every new row written, and
   * every other row and table untouched.
   */
  function EditSave(t: Tables, tid: string, name: string, form: seq<FormItem>, ids: seq<string>): (r: Tables)
    requires tid in t.templates && |ids| == |form|
    ensures r.components == t.components && r.chelators == t.chelators
    ensures r.templates.Keys == t.templates.Keys
    ensures r.templates[tid] == AnalysisTemplate(TextColumn(name), t.templates[tid].isDefault)
    ensures forall id :: id in t.templates && id != tid ==> r.templates[id] == t.templates[id]
    ensures forall id :: id in ChildIds(t.items, tid) && id !in ids ==> id !in r.items
    ensures forall id :: id in t.items && t.items[id].templateId != tid && id !in ids ==>
      id in r.items && r.items[id] == t.items[id]
    ensures forall id :: id in ids ==> id in r.items
  {
    t.(templates := t.templates[tid := t.templates[tid].(name := TextColumn(name))],
       items := Inserted(t.items - ChildIds(t.items, tid), ids, Rows(tid, form)))
  }

  /**
   * The create branch of `handleSave`: a new user template under `tid` with the trimmed name, then
   * one item per form row; every other template and item and the other tables stay.
   */
  function CreateSave(t: Tables, tid: string, name: string, form: seq<FormItem>, ids: seq<string>): (r: Tables)
    requires |ids| == |form|
    ensures r.components == t.components && r.chelators == t.chelators
    ensures r.templates.Keys == t.templates.Keys + {tid}
    ensures r.templates[tid] == AnalysisTemplate(TextColumn(name), false)
    ensures forall id :: id in t.templates && id != tid ==> r.templates[id] == t.templates[id]
    ensures forall id :: id in r.items <==> id in t.items || id in ids
    ensures forall id :: id in t.items && id !in ids ==> r.items[id] == t.items[id]
  {
    AddTemplate(t, tid, AnalysisTemplate(TextColumn(name), false), ids, Rows(tid, form))
  }

  /** Template `tpl` written under `tid` and row `rows[k]` under `ids[k]`; every other row stays. */
  function AddTemplate(t: Tables, tid: string, tpl: AnalysisTemplate, ids: seq<string>, rows: seq<TemplateItem>): (r: Tables)
    requires |ids| == |rows|
    ensures r.components == t.components && r.chelators == t.chelators
    ensures r.templates.Keys == t.templates.Keys + {tid} && r.templates[tid] == tpl
    ensures forall id :: id in t.templates && id != tid ==> r.templates[id] == t.templates[id]
    ensures forall id :: id in r.items <==> id in t.items || id in ids
    ensures forall id :: id in t.items && id !in ids ==> r.items[id] == t.items[id]
  {
    t.(templates := t.templates[tid := tpl], items := Inserted(t.items, ids, rows))
  }

  /**
   * The batch of `handleDelete`: every child of `tid`, then the template itself; no item is left
   * pointing at it and every other row stays.
   */
  function DeleteTemplate(t: Tables, tid: string): (r: Tables)
    ensures r.components == t.components && r.chelators == t.chelators
    ensures tid !in r.templates && ChildIds(r.items, tid) == {}
    ensures forall id :: id in t.items && t.items[id].templateId != tid ==> id in r.items && r.items[id] == t.items[id]
    ensures forall id :: id in t.templates && id != tid ==> id in r.templates && r.templates[id] == t.templates[id]
  {
    t.(templates := t.templates - {tid}, items := t.items - ChildIds(t.items, tid))
  }

  /**
   * What `handleSave` does, given the id the store would give a new template and the ids it
   * would give the new rows: a blank name stops before any write; editing a template that is
   * no longer in the table fails and writes nothing.
   */
  function SaveResult(t: Tables, editing: Option<string>, name: string, form: seq<FormItem>,
                      newTid: string, ids: seq<string>): (res: (SaveOutcome, Tables))
    requires |ids| == |form|
    ensures res.0 == NameMissing <==> Trim(name) == []
    ensures res.0 == Failed <==> Trim(name) != [] && editing.Some? && editing.value !in t.templates
    ensures res.0 != Saved ==> res.1 == t
    ensures res.1.components == t.components && res.1.chelators == t.chelators
    ensures res.0 == Saved ==> var tid := if editing.Some? then editing.value else newTid;
      && tid in res.1.templates && res.1.templates[tid].name == TextColumn(name)
      && forall id :: id in ids ==> id in res.1.items
    ensures res.0 == Saved && editing.None? ==> !res.1.templates[newTid].isDefault
  {
    if Trim(name) == [] then (NameMissing, t)
    else match editing
      case Some(tid) => if tid in t.templates then (Saved, EditSave(t, tid, name, form, ids)) else (Failed, t)
      case None => (Saved, CreateSave(t, newTid, name, form, ids))
  }

  /** What `handleDelete` does: the cascade when editing, nothing otherwise. */
  function DeleteResult(t: Tables, editing: Option<string>): (r: Tables)
    ensures editing.None? ==> r == t
    ensures editing.Some? ==> editing.value !in r.templates && ChildIds(r.items, editing.value) == {}
    ensures r.components == t.components && r.chelators == t.chelators
  {
    match editing
    case Some(tid) => DeleteTemplate(t, tid)
    case None => t
  }

  /** A name of blanks only is refused with no write at all, whatever the form holds. */
  lemma BlankNameWritesNothing(t: Tables, editing: Option<string>, name: string, form: seq<FormItem>,
                               newTid: string, ids: seq<string>)
    requires |ids| == |form|
    requires forall i :: 0 <= i < |name| ==> IsJsWhitespace(name[i])
    ensures SaveResult(t, editing, name, form, newTid, ids) == (NameMissing, t)
  {
    TrimEmptyIffBlank(name);
  }

  /** After an edit-save the children of the template are exactly the form rows, one per id, in name and unit. */
  lemma EditSaveReplacesChildren(t: Tables, tid: string, name: string, form: seq<FormItem>, ids: seq<string>)
    requires tid in t.templates && |ids| == |form| && Distinct(ids)
    ensures forall id :: id in ChildIds(EditSave(t, tid, name, form, ids).items, tid) <==> id in ids
    ensures forall k :: 0 <= k < |ids| ==> EditSave(t, tid, name, form, ids).items[ids[k]] == Row(tid, form[k])
  {
    var rest := t.items - ChildIds(t.items, tid);
    assert ChildIds(rest, tid) == {};
    AddsChildren(rest, tid, form, ids);
    forall k | 0 <= k < |ids|
      ensures EditSave(t, tid, name, form, ids).items[ids[k]] == Row(tid, form[k])
    {
      AddsRow(rest, tid, form, ids, k);
    }
  }

  /** A create-save gives the new template one linked child per form row, holding that row. */
  lemma CreateSaveAddsChildren(t: Tables, tid: string, name: string, form: seq<FormItem>, ids: seq<string>)
    requires ChildIds(t.items, tid) == {} && |ids| == |form| && Distinct(ids)
    ensures var r := CreateSave(t, tid, name, form, ids);
      && |ChildIds(r.items, tid)| == |form|
      && (forall k :: 0 <= k < |ids| ==> r.items[ids[k]] == Row(tid, form[k]))
  {
    var r := CreateSave(t, tid, name, form, ids);
    AddsChildren(t.items, tid, form, ids);
    SameMembersSameSize(ChildIds(r.items, tid), ids);
    forall k | 0 <= k < |ids| ensures r.items[ids[k]] == Row(tid, form[k]) {
      AddsRow(t.items, tid, form, ids, k);
    }
  }

  /** A create-save under an id not yet in use grows the template table by exactly one. */
  lemma CreateSaveTemplateCount(t: Tables, tid: string, name: string, form: seq<FormItem>, ids: seq<string>)
    requires tid !in t.templates && |ids| == |form|
    ensures |CreateSave(t, tid, name, form, ids).templates| == |t.templates| + 1
  {
    var r := CreateSave(t, tid, name, form, ids);
    assert r.templates.Keys == t.templates.Keys + {tid};
  }

  /** With fresh ids a create-save grows the item table by exactly the number of form rows. */
  lemma CreateSaveCount(t: Tables, tid: string, name: string, form: seq<FormItem>, ids: seq<string>)
    requires |ids| == |form| && FreshIds(ids, t.items)
    ensures |CreateSave(t, tid, name, form, ids).items| == |t.items| + |form|
  {
    InsertedSize(t.items, ids, Rows(tid, form));
  }

  lemma DeleteCount(t: Tables, tid: string)
    ensures |DeleteTemplate(t, tid).items| == |t.items| - |ChildIds(t.items, tid)|
  {
    var gone := ChildIds(t.items, tid);
    assert DeleteTemplate(t, tid).items.Keys == t.items.Keys - gone;
    assert gone <= t.items.Keys;
  }

  /**
   * Saving a form loaded from a template's children without touching the rows keeps the number of
   * children: the fetched rows and the recreated rows are counted by their distinct ids.
   */
  lemma UnchangedEditKeepsChildCount(t: Tables, tid: string, name: string, fetched: seq<string>, ids: seq<string>)
    requires tid in t.templates && Fetched(t.items, tid, fetched)
    requires |ids| == |fetched| && Distinct(ids)
    ensures |ChildIds(EditSave(t, tid, name, Loaded(t.items, fetched), ids).items, tid)| == |ChildIds(t.items, tid)|
  {
    var form := Loaded(t.items, fetched);
    EditSaveReplacesChildren(t, tid, name, form, ids);
    SameMembersSameSize(ChildIds(EditSave(t, tid, name, form, ids).items, tid), ids);
    SameMembersSameSize(ChildIds(t.items, tid), fetched);
  }

  /**
   * Editing a default template that the seed knows recreates its rows under fresh ids; a row
   * whose name is one of the default item names is then deleted by the next seed run.
   */
  lemma EditThenSeedDropsDefaultNamedRow(t: Tables, tid: string, name: string, form: seq<FormItem>, ids: seq<string>, k: int)
    requires tid in t.templates && t.templates[tid].isDefault && tid in Seed.CANONICAL_TEMPLATE_IDS
    requires |ids| == |form| && Distinct(ids) && 0 <= k < |ids|
    requires ids[k] !in Seed.CANONICAL_ITEM_IDS && TextColumn(form[k].name) in Seed.DEFAULT_ITEM_NAMES
    ensures ids[k] in EditSave(t, tid, name, form, ids).items
    ensures ids[k] !in Seed.Seeded(EditSave(t, tid, name, form, ids)).items
  {
    var r := EditSave(t, tid, name, form, ids);
    EditSaveReplacesChildren(t, tid, name, form, ids);
    assert r.items[ids[k]] == Row(tid, form[k]);
    assert r.templates[tid].isDefault;
    Seed.SeedDropsDefaultNamedChild(r.items, r.templates, ids[k]);
  }

  /** The rows `initialData.items.fetch()` returns, in the order of `fetched`: all children of `tid`, each once. */
  ghost predicate Fetched(items: map<string, TemplateItem>, tid: string, fetched: seq<string>)
  {
    Distinct(fetched) && forall id :: id in fetched <==> id in ChildIds(items, tid)
  }

  /** The form rows built from fetched children: name and unit of each, in fetch order. */
  function Loaded(items: map<string, TemplateItem>, fetched: seq<string>): (rows: seq<FormItem>)
    requires forall id :: id in fetched ==> id in items
    ensures |rows| == |fetched|
    ensures forall k :: 0 <= k < |fetched| ==> rows[k] == FormItem(items[fetched[k]].name, items[fetched[k]].unit)
  {
    if fetched == [] then []
    else [FormItem(items[fetched[0]].name, items[fetched[0]].unit)] + Loaded(items, fetched[1..])
  }

  /** The state of the editor screen. `editing` is the id of the template it was opened on, if any. */
  class TemplateForm {
    var name: string
    var items: seq<FormItem>
    const editing: Option<string>

    /** Opened on an existing template (id and record) or on none: the name is the record's, the list one empty row. */
    constructor (initial: Option<(string, AnalysisTemplate)>)
      ensures name == (if initial.Some? then initial.value.1.name else "")
      ensures items == [EMPTY_ROW]
      ensures editing == (if initial.Some? then Some(initial.value.0) else None)
    {
      name := if initial.Some? then initial.value.1.name else "";
      items := [EMPTY_ROW];
      editing := if initial.Some? then Some(initial.value.0) else None;
    }

    /** The name input. */
    method SetName(v: string)
      modifies this
      ensures name == v && items == old(items)
    {
      name := v;
    }

    /** The load effect: when editing, the list becomes the template's fetched children. */
    method LoadItems(db: Database, fetched: seq<string>)
      requires editing.Some? ==> Fetched(db.items, editing.value, fetched)
      modifies this
      ensures name == old(name)
      ensures items == (if editing.Some? then Loaded(db.items, fetched) else old(items))
    {
      if editing.Some? {
        items := Loaded(db.items, fetched);
      }
    }

    /** `handleItemChange`. */
    method ChangeItem(i: int, f: Field, v: string)
      modifies this
      ensures name == old(name) && items == SetField(old(items), i, f, v)
    {
      items := SetField(items, i, f, v);
    }

    /** `addItem`: one empty row at the end. */
    method AddItem()
      modifies this
      ensures name == old(name) && items == old(items) + [EMPTY_ROW]
    {
      items := items + [EMPTY_ROW];
    }

    /** `removeItem`. */
    method RemoveItem(i: int)
      modifies this
      ensures name == old(name) && items == RemoveAt(old(items), i)
    {
      items := RemoveAt(items, i);
    }

    /** `handleSave`, with the ids the store generates for a new template and for the new rows. */
    method Save(db: Database, newTid: string, ids: seq<string>) returns (outcome: SaveOutcome)
      requires |ids| == |items|
      modifies db
      ensures (outcome, db.Snapshot()) == SaveResult(old(db.Snapshot()), editing, name, items, newTid, ids)
    {
      if Trim(name) == [] {
        return NameMissing;
      }
      match editing {
        case Some(tid) =>
          if tid !in db.templates {
            return Failed;
          }
          db.RenameTemplate(tid, name);
          DestroyChildren(db, tid);
          CreateChildren(db, ids, Rows(tid, items));
        case None =>
          db.CreateTemplate(newTid, AnalysisTemplate(TextColumn(name), false));
          CreateChildren(db, ids, Rows(newTid, items));
      }
      outcome := Saved;
    }

    /** `handleDelete`. */
    method Delete(db: Database)
      modifies db
      ensures db.Snapshot() == DeleteResult(old(db.Snapshot()), editing)
    {
      if editing.Some? {
        DestroyChildren(db, editing.value);
        db.DestroyTemplate(editing.value);
      }
    }
  }

  /** The `prepareDestroyPermanently` operations for every fetched child of `tid`. */
  method DestroyChildren(db: Database, tid: string)
    modifies db
    ensures db.items == old(db.items) - ChildIds(old(db.items), tid)
    ensures db.components == old(db.components) && db.chelators == old(db.chelators) && db.templates == old(db.templates)
  {
    ghost var start := db.items;
    var children := ChildIds(db.items, tid);
    var doomed := children;
    while doomed != {}
      invariant doomed <= children
      invariant db.items == start - (children - doomed)
      invariant db.components == old(db.components) && db.chelators == old(db.chelators) && db.templates == old(db.templates)
      decreases doomed
    {
      var c :| c in doomed;
      db.DestroyItem(c);
      doomed := doomed - {c};
    }
  }

  /** The batch of `prepareCreate` operations: record `rows[k]` under the new id `ids[k]`, in order. */
  method CreateChildren(db: Database, ids: seq<string>, rows: seq<TemplateItem>)
    requires |ids| == |rows|
    modifies db
    ensures db.items == Inserted(old(db.items), ids, rows)
    ensures db.components == old(db.components) && db.chelators == old(db.chelators) && db.templates == old(db.templates)
  {
    ghost var start := db.items;
    var k := 0;
    while k < |rows|
      invariant 0 <= k <= |rows|
      invariant db.items == Inserted(start, ids[..k], rows[..k])
      invariant db.components == old(db.components) && db.chelators == old(db.chelators) && db.templates == old(db.templates)
    {
      assert rows[..k + 1][..k] == rows[..k] && ids[..k + 1][..k] == ids[..k];
      db.CreateItem(ids[k], rows[k]);
      k := k + 1;
    }
    assert rows[..k] == rows && ids[..k] == ids;
  }
}
