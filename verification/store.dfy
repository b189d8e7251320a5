/**
 * The four reference-data tables of the local database (component_types, chelator_types,
 * analysis_templates, analysis_template_items), each a map from record id to record.
 * `Tables` is their value at one moment; `Database` is the store the screens and the seed
 * write to, one table per field.
 */
module Store {
  import opened Text

  datatype ComponentType = ComponentType(name: string, iconName: string, isDefault: bool, sortOrder: int)

  datatype ChelatorType = ChelatorType(name: string, isDefault: bool, sortOrder: int)

  datatype AnalysisTemplate = AnalysisTemplate(name: string, isDefault: bool)

  datatype TemplateItem = TemplateItem(templateId: string, name: string, unit: string)

  datatype Tables = Tables(
    components: map<string, ComponentType>,
    chelators: map<string, ChelatorType>,
    templates: map<string, AnalysisTemplate>,
    items: map<string, TemplateItem>)

  /** The ids of the items whose `template_id` column names template `tid`: its children. */
  function ChildIds(items: map<string, TemplateItem>, tid: string): (ids: set<string>)
    ensures forall id :: id in ids <==> id in items && items[id].templateId == tid
  {
    set id | id in items && items[id].templateId == tid
  }

  /** Writing rows over a table without children of `tid` leaves only the written children. */
  lemma ChildIdsAfterMerge(a: map<string, TemplateItem>, b: map<string, TemplateItem>, tid: string)
    requires ChildIds(a, tid) == {}
    ensures ChildIds(a + b, tid) == ChildIds(b, tid)
  {
    forall id | id in a && id !in b ensures (a + b)[id].templateId != tid {
      assert id !in ChildIds(a, tid);
    }
  }

  /** Writing rows over a table whose rows are no children of `tid` keeps its children. */
  lemma ChildIdsBeforeMerge(a: map<string, TemplateItem>, b: map<string, TemplateItem>, tid: string)
    requires ChildIds(b, tid) == {} && a.Keys !! b.Keys
    ensures ChildIds(a + b, tid) == ChildIds(a, tid)
  {
    forall id | id in b ensures (a + b)[id].templateId != tid {
      assert id !in ChildIds(b, tid);
    }
  }

  /** A batch of `create` operations on one table: `vals[k]` written under `keys[k]`, in order. */
  function Inserted<K(!new), V>(m: map<K, V>, keys: seq<K>, vals: seq<V>): (r: map<K, V>)
    requires |keys| == |vals|
    ensures forall x :: x in r <==> x in m || x in keys
    ensures forall x :: x in m && x !in keys ==> r[x] == m[x]
  {
    if keys == [] then m
    else
      var n := |keys| - 1;
      assert forall x :: x in keys <==> x in keys[..n] || x == keys[n];
      Inserted(m, keys[..n], vals[..n])[keys[n] := vals[n]]
  }

  /** A row no later operation of the batch overwrites is the one written: key `keys[k]` holds `vals[k]`. */
  lemma {:induction false} InsertedPlaces<K(!new), V>(m: map<K, V>, keys: seq<K>, vals: seq<V>, k: int)
    requires |keys| == |vals| && 0 <= k < |keys| && keys[k] !in keys[k + 1..]
    ensures Inserted(m, keys, vals)[keys[k]] == vals[k]
  {
    var n := |keys| - 1;
    if k < n {
      assert keys[k + 1..] == keys[..n][k + 1..] + [keys[n]];
      InsertedPlaces(m, keys[..n], vals[..n], k);
    }
  }

  /** A batch of creates under distinct keys that are all new grows the table by one row per create. */
  lemma {:induction false} InsertedSize<K(!new), V>(m: map<K, V>, keys: seq<K>, vals: seq<V>)
    requires |keys| == |vals|
    requires forall i, j :: 0 <= i < j < |keys| ==> keys[i] != keys[j]
    requires forall k :: 0 <= k < |keys| ==> keys[k] !in m
    ensures |Inserted(m, keys, vals)| == |m| + |keys|
  {
    if keys != [] {
      var n := |keys| - 1;
      InsertedSize(m, keys[..n], vals[..n]);
      assert keys[n] !in keys[..n];
    }
  }

  /**
   * A text column stores what it is given with surrounding whitespace removed
   * (the `@text` decorator of the record classes trims on write).
   */
  function TextColumn(s: string): (r: string)
    ensures TrimmedAt(s, r, |s| - |TrimStart(s)|)
  {
    Trim(s)
  }
  /** A value without whitespace at either end is stored as it is. */
  lemma TextColumnKeepsTrimmed(s: string)
    requires s == [] || (!IsJsWhitespace(s[0]) && !IsJsWhitespace(s[|s| - 1]))
    ensures TextColumn(s) == s
  {
  }



  class Database {
    var components: map<string, ComponentType>
    var chelators: map<string, ChelatorType>
    var templates: map<string, AnalysisTemplate>
    var items: map<string, TemplateItem>

    function Snapshot(): Tables
      reads this
    {
      Tables(components, chelators, templates, items)
    }

    constructor (t: Tables)
      ensures Snapshot() == t
    {
      components, chelators, templates, items := t.components, t.chelators, t.templates, t.items;
    }

    /** `create` with a fixed id on component_types. */
    method CreateComponent(id: string, row: ComponentType)
      modifies this
      ensures components == old(components)[id := row]
      ensures chelators == old(chelators) && templates == old(templates) && items == old(items)
    {
      components := components[id := row];
    }

    /** `create` with a fixed id on chelator_types. */
    method CreateChelator(id: string, row: ChelatorType)
      modifies this
      ensures chelators == old(chelators)[id := row]
      ensures components == old(components) && templates == old(templates) && items == old(items)
    {
      chelators := chelators[id := row];
    }

    /** `create` with a given id on analysis_templates. */
    method CreateTemplate(id: string, row: AnalysisTemplate)
      modifies this
      ensures templates == old(templates)[id := row]
      ensures components == old(components) && chelators == old(chelators) && items == old(items)
    {
      templates := templates[id := row];
    }

    /** `create` with a given id on analysis_template_items. */
    method CreateItem(id: string, row: TemplateItem)
      modifies this
      ensures items == old(items)[id := row]
      ensures components == old(components) && chelators == old(chelators) && templates == old(templates)
    {
      items := items[id := row];
    }

    /** `update(t => t.name = name)` on an existing template. */
    method RenameTemplate(id: string, name: string)
      requires id in templates
      modifies this
      ensures templates == old(templates)[id := old(templates)[id].(name := TextColumn(name))]
      ensures components == old(components) && chelators == old(chelators) && items == old(items)
    {
      templates := templates[id := templates[id].(name := TextColumn(name))];
    }

    /** `destroyPermanently` of a component row. */
    method DestroyComponent(id: string)
      modifies this
      ensures components == old(components) - {id}
      ensures chelators == old(chelators) && templates == old(templates) && items == old(items)
    {
      components := components - {id};
    }

    /** `destroyPermanently` of a chelator row. */
    method DestroyChelator(id: string)
      modifies this
      ensures chelators == old(chelators) - {id}
      ensures components == old(components) && templates == old(templates) && items == old(items)
    {
      chelators := chelators - {id};
    }

    /** `destroyPermanently` of a template row (its children are not touched). */
    method DestroyTemplate(id: string)
      modifies this
      ensures templates == old(templates) - {id}
      ensures components == old(components) && chelators == old(chelators) && items == old(items)
    {
      templates := templates - {id};
    }

    /** `destroyPermanently` of a template item row. */
    method DestroyItem(id: string)
      modifies this
      ensures items == old(items) - {id}
      ensures components == old(components) && chelators == old(chelators) && templates == old(templates)
    {
      items := items - {id};
    }
  }
}
