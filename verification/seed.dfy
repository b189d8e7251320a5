/**
 * The reference-data bootstrap run at start-up: one write that purges default rows whose ids
 * are not the canonical ones, then one populate pass per table that inserts the fixed-id
 * defaults into a table only when it is empty.
 */
module Seed {
  import opened Store
  import opened Text

  // The id lists the purge tests with `includes`, as sets.
  const CANONICAL_COMPONENT_IDS: set<string> := {"comp_hb_01", "comp_fe_01", "comp_plt_01"}
  const CANONICAL_CHELATOR_IDS: set<string> := {"chel_none_01", "chel_desf_01", "chel_exja_01", "chel_jade_01"}
  const CANONICAL_TEMPLATE_IDS: set<string> := {"tmpl_cbc_01", "tmpl_biochem_01"}
  const CANONICAL_ITEM_IDS: set<string> := {
    "tmpl_item_hb_01", "tmpl_item_ery_01", "tmpl_item_leu_01", "tmpl_item_plt_01",
    "tmpl_item_fer_01", "tmpl_item_alt_01", "tmpl_item_ast_01", "tmpl_item_bil_01"}
  const DEFAULT_ITEM_NAMES: set<string> := {
    "Гемоглобин", "Эритроциты", "Лейкоциты", "Тромбоциты", "Ферритин", "АЛТ", "АСТ", "Билирубин общий"}

  const DEFAULT_COMPONENTS: map<string, ComponentType> := map[
    "comp_hb_01" := ComponentType("Гемоглобин", "droplet", true, 1),
    "comp_fe_01" := ComponentType("Ферритин", "flask-conical", true, 2),
    "comp_plt_01" := ComponentType("Тромбоциты", "history", true, 3)]

  const DEFAULT_CHELATORS: map<string, ChelatorType> := map[
    "chel_none_01" := ChelatorType("Нет", true, 0),
    "chel_desf_01" := ChelatorType("Десферал", true, 1),
    "chel_exja_01" := ChelatorType("Эксиджад", true, 2),
    "chel_jade_01" := ChelatorType("Джадену", true, 3)]

  const DEFAULT_TEMPLATES: map<string, AnalysisTemplate> := map[
    "tmpl_cbc_01" := AnalysisTemplate("Общий анализ крови", true),
    "tmpl_biochem_01" := AnalysisTemplate("Биохимический анализ", true)]

  const CBC_ITEMS: map<string, TemplateItem> := map[
    "tmpl_item_hb_01" := TemplateItem("tmpl_cbc_01", "Гемоглобин", "g/l"),
    "tmpl_item_ery_01" := TemplateItem("tmpl_cbc_01", "Эритроциты", "×10¹²/л"),
    "tmpl_item_leu_01" := TemplateItem("tmpl_cbc_01", "Лейкоциты", "×10⁹/л"),
    "tmpl_item_plt_01" := TemplateItem("tmpl_cbc_01", "Тромбоциты", "×10⁹/л")]

  const BIOCHEM_ITEMS: map<string, TemplateItem> := map[
    "tmpl_item_fer_01" := TemplateItem("tmpl_biochem_01", "Ферритин", "нг/мл"),
    "tmpl_item_alt_01" := TemplateItem("tmpl_biochem_01", "АЛТ", "Ед/л"),
    "tmpl_item_ast_01" := TemplateItem("tmpl_biochem_01", "АСТ", "Ед/л"),
    "tmpl_item_bil_01" := TemplateItem("tmpl_biochem_01", "Билирубин общий", "мкмоль/л")]

  /** The eight items of the two default templates. */
  const DEFAULT_ITEMS: map<string, TemplateItem> := CBC_ITEMS + BIOCHEM_ITEMS

  // ---------------------------------------------------------------------------------------
  // The purge rules, row by row

  predicate ComponentPurged(id: string, row: ComponentType)
  {
    row.isDefault && id !in CANONICAL_COMPONENT_IDS
  }

  predicate ChelatorPurged(id: string, row: ChelatorType)
  {
    row.isDefault && id !in CANONICAL_CHELATOR_IDS
  }

  predicate TemplatePurged(id: string, row: AnalysisTemplate)
  {
    row.isDefault && id !in CANONICAL_TEMPLATE_IDS
  }

  /**
   * An item goes when its id is not canonical, its name is a default item name and its parent
   * resolves, in the templates left by the template purge, to a default template. A parent that
   * does not resolve makes the fetch fail; the failure is swallowed and the item stays.
   */
  predicate ItemPurged(templates: map<string, AnalysisTemplate>, id: string, row: TemplateItem)
  {
    id !in CANONICAL_ITEM_IDS && row.name in DEFAULT_ITEM_NAMES
    && row.templateId in templates && templates[row.templateId].isDefault
  }

  /** The component rows the purge keeps: all but the default ones under non-canonical ids, unchanged. */
  function PurgeComponents(rows: map<string, ComponentType>): (kept: map<string, ComponentType>)
    ensures forall id :: id in kept <==> id in rows && !(rows[id].isDefault && id !in CANONICAL_COMPONENT_IDS)
    ensures forall id :: id in kept ==> kept[id] == rows[id]
  {
    map id | id in rows && !ComponentPurged(id, rows[id]) :: rows[id]
  }

  /** The chelator rows the purge keeps: all but the default ones under non-canonical ids, unchanged. */
  function PurgeChelators(rows: map<string, ChelatorType>): (kept: map<string, ChelatorType>)
    ensures forall id :: id in kept <==> id in rows && !(rows[id].isDefault && id !in CANONICAL_CHELATOR_IDS)
    ensures forall id :: id in kept ==> kept[id] == rows[id]
  {
    map id | id in rows && !ChelatorPurged(id, rows[id]) :: rows[id]
  }

  /** The template rows the purge keeps: all but the default ones under non-canonical ids, unchanged. */
  function PurgeTemplates(rows: map<string, AnalysisTemplate>): (kept: map<string, AnalysisTemplate>)
    ensures forall id :: id in kept <==> id in rows && !(rows[id].isDefault && id !in CANONICAL_TEMPLATE_IDS)
    ensures forall id :: id in kept ==> kept[id] == rows[id]
  {
    map id | id in rows && !TemplatePurged(id, rows[id]) :: rows[id]
  }

  /**
   * The items the purge keeps once the templates table is `templates`: an item goes only when it
   * has a non-canonical id, a default name and a parent that resolves to a default template.
   */
  function PurgeItems(items: map<string, TemplateItem>, templates: map<string, AnalysisTemplate>): (kept: map<string, TemplateItem>)
    ensures forall id :: id in kept <==> (id in items &&
      !(id !in CANONICAL_ITEM_IDS && items[id].name in DEFAULT_ITEM_NAMES
        && items[id].templateId in templates && templates[items[id].templateId].isDefault))
    ensures forall id :: id in kept ==> kept[id] == items[id]
  {
    map id | id in items && !ItemPurged(templates, id, items[id]) :: items[id]
  }

  /** The purge write: components, chelators and templates by their own rows, items against the purged templates. */
  function Purged(t: Tables): Tables
  {
    var templates := PurgeTemplates(t.templates);
    Tables(PurgeComponents(t.components), PurgeChelators(t.chelators), templates, PurgeItems(t.items, templates))
  }

  /** A populate pass: the defaults go into a table only when it is empty. */
  function FillComponents(rows: map<string, ComponentType>): map<string, ComponentType>
  {
    if |rows| == 0 then DEFAULT_COMPONENTS else rows
  }

  function FillChelators(rows: map<string, ChelatorType>): map<string, ChelatorType>
  {
    if |rows| == 0 then DEFAULT_CHELATORS else rows
  }

  function FillTemplates(rows: map<string, AnalysisTemplate>): map<string, AnalysisTemplate>
  {
    if |rows| == 0 then DEFAULT_TEMPLATES else rows
  }

  /** The template pass also writes the eight default items, and only then. */
  function FillItems(items: map<string, TemplateItem>, templates: map<string, AnalysisTemplate>): map<string, TemplateItem>
  {
    if |templates| == 0 then items + DEFAULT_ITEMS else items
  }

  /** The three populate passes, each looking at the table as the purge left it. */
  function Populated(p: Tables): Tables
  {
    Tables(FillComponents(p.components), FillChelators(p.chelators), FillTemplates(p.templates), FillItems(p.items, p.templates))
  }

  /** A component table after one run: purged, then filled with the defaults if nothing is left. */
  function SeedComponents(rows: map<string, ComponentType>): map<string, ComponentType>
  {
    FillComponents(PurgeComponents(rows))
  }

  function SeedChelators(rows: map<string, ChelatorType>): map<string, ChelatorType>
  {
    FillChelators(PurgeChelators(rows))
  }

  function SeedTemplates(rows: map<string, AnalysisTemplate>): map<string, AnalysisTemplate>
  {
    FillTemplates(PurgeTemplates(rows))
  }

  /** The items after one run: purged against the purged templates, plus the default items when the templates were refilled. */
  function SeedItems(items: map<string, TemplateItem>, templates: map<string, AnalysisTemplate>): map<string, TemplateItem>
  {
    var parents := PurgeTemplates(templates);
    FillItems(PurgeItems(items, parents), parents)
  }

  /**
   * What one run of the bootstrap leaves in the store, table by table: the components,
   * chelators and templates tables are never left empty, and every row was there before or is
   * one of the defaults.
   */
  function Seeded(t: Tables): (r: Tables)
    ensures |r.components| > 0 && |r.chelators| > 0 && |r.templates| > 0
    ensures forall id :: id in r.components ==> id in t.components || id in DEFAULT_COMPONENTS
    ensures forall id :: id in r.chelators ==> id in t.chelators || id in DEFAULT_CHELATORS
    ensures forall id :: id in r.templates ==> id in t.templates || id in DEFAULT_TEMPLATES
    ensures forall id :: id in r.items ==> id in t.items || id in DEFAULT_ITEMS
  {
    DefaultComponentsAreCanonical();
    DefaultChelatorsAreCanonical();
    DefaultTemplatesAreCanonical();
    Tables(SeedComponents(t.components), SeedChelators(t.chelators), SeedTemplates(t.templates), SeedItems(t.items, t.templates))
  }

  // ---------------------------------------------------------------------------------------
  // The bootstrap as it runs against the store

  method PurgeComponentRows(db: Database)
    modifies db
    ensures db.components == PurgeComponents(old(db.components))
    ensures db.chelators == old(db.chelators) && db.templates == old(db.templates) && db.items == old(db.items)
  {
    ghost var rows := db.components;
    var todo := db.components.Keys;
    while todo != {}
      invariant todo <= rows.Keys
      invariant db.components == map id | id in rows && (id in todo || !ComponentPurged(id, rows[id])) :: rows[id]
      invariant db.chelators == old(db.chelators) && db.templates == old(db.templates) && db.items == old(db.items)
      decreases |todo|
    {
      var id :| id in todo;
      if ComponentPurged(id, db.components[id]) {
        db.DestroyComponent(id);
      }
      todo := todo - {id};
    }
  }

  method PurgeChelatorRows(db: Database)
    modifies db
    ensures db.chelators == PurgeChelators(old(db.chelators))
    ensures db.components == old(db.components) && db.templates == old(db.templates) && db.items == old(db.items)
  {
    ghost var rows := db.chelators;
    var todo := db.chelators.Keys;
    while todo != {}
      invariant todo <= rows.Keys
      invariant db.chelators == map id | id in rows && (id in todo || !ChelatorPurged(id, rows[id])) :: rows[id]
      invariant db.components == old(db.components) && db.templates == old(db.templates) && db.items == old(db.items)
      decreases |todo|
    {
      var id :| id in todo;
      if ChelatorPurged(id, db.chelators[id]) {
        db.DestroyChelator(id);
      }
      todo := todo - {id};
    }
  }

  method PurgeTemplateRows(db: Database)
    modifies db
    ensures db.templates == PurgeTemplates(old(db.templates))
    ensures db.components == old(db.components) && db.chelators == old(db.chelators) && db.items == old(db.items)
  {
    ghost var rows := db.templates;
    var todo := db.templates.Keys;
    while todo != {}
      invariant todo <= rows.Keys
      invariant db.templates == map id | id in rows && (id in todo || !TemplatePurged(id, rows[id])) :: rows[id]
      invariant db.components == old(db.components) && db.chelators == old(db.chelators) && db.items == old(db.items)
      decreases |todo|
    {
      var id :| id in todo;
      if TemplatePurged(id, db.templates[id]) {
        db.DestroyTemplate(id);
      }
      todo := todo - {id};
    }
  }

  /** The item loop: each item's parent is looked up in the templates as the template loop left them. */
  method PurgeItemRows(db: Database)
    modifies db
    ensures db.items == PurgeItems(old(db.items), old(db.templates))
    ensures db.components == old(db.components) && db.chelators == old(db.chelators) && db.templates == old(db.templates)
  {
    ghost var rows := db.items;
    var todo := db.items.Keys;
    while todo != {}
      invariant todo <= rows.Keys
      invariant db.items == map id | id in rows && (id in todo || !ItemPurged(db.templates, id, rows[id])) :: rows[id]
      invariant db.components == old(db.components) && db.chelators == old(db.chelators) && db.templates == old(db.templates)
      decreases |todo|
    {
      var id :| id in todo;
      if ItemPurged(db.templates, id, db.items[id]) {
        db.DestroyItem(id);
      }
      todo := todo - {id};
    }
  }

  method PopulateComponents(db: Database)
    modifies db
    ensures db.components == FillComponents(old(db.components))
    ensures db.chelators == old(db.chelators) && db.templates == old(db.templates) && db.items == old(db.items)
  {
    if |db.components| == 0 {
      db.CreateComponent("comp_hb_01", ComponentType("Гемоглобин", "droplet", true, 1));
      db.CreateComponent("comp_fe_01", ComponentType("Ферритин", "flask-conical", true, 2));
      db.CreateComponent("comp_plt_01", ComponentType("Тромбоциты", "history", true, 3));
    }
  }

  method PopulateChelators(db: Database)
    modifies db
    ensures db.chelators == FillChelators(old(db.chelators))
    ensures db.components == old(db.components) && db.templates == old(db.templates) && db.items == old(db.items)
  {
    if |db.chelators| == 0 {
      db.CreateChelator("chel_none_01", ChelatorType("Нет", true, 0));
      db.CreateChelator("chel_desf_01", ChelatorType("Десферал", true, 1));
      db.CreateChelator("chel_exja_01", ChelatorType("Эксиджад", true, 2));
      db.CreateChelator("chel_jade_01", ChelatorType("Джадену", true, 3));
    }
  }

  /** The first default template and its four items. */
  method CreateCbcTemplate(db: Database)
    modifies db
    ensures db.components == old(db.components) && db.chelators == old(db.chelators)
    ensures db.templates == old(db.templates)["tmpl_cbc_01" := AnalysisTemplate("Общий анализ крови", true)]
    ensures db.items == old(db.items) + CBC_ITEMS
  {
    var cbc := "tmpl_cbc_01";
    ghost var items := db.items;
    db.CreateTemplate(cbc, AnalysisTemplate("Общий анализ крови", true));
    db.CreateItem("tmpl_item_hb_01", TemplateItem(cbc, "Гемоглобин", "g/l"));
    db.CreateItem("tmpl_item_ery_01", TemplateItem(cbc, "Эритроциты", "×10¹²/л"));
    db.CreateItem("tmpl_item_leu_01", TemplateItem(cbc, "Лейкоциты", "×10⁹/л"));
    db.CreateItem("tmpl_item_plt_01", TemplateItem(cbc, "Тромбоциты", "×10⁹/л"));
    MergeFour(items,
      "tmpl_item_hb_01", TemplateItem(cbc, "Гемоглобин", "g/l"),
      "tmpl_item_ery_01", TemplateItem(cbc, "Эритроциты", "×10¹²/л"),
      "tmpl_item_leu_01", TemplateItem(cbc, "Лейкоциты", "×10⁹/л"),
      "tmpl_item_plt_01", TemplateItem(cbc, "Тромбоциты", "×10⁹/л"));
  }

  /** The second default template and its four items. */
  method CreateBiochemTemplate(db: Database)
    modifies db
    ensures db.components == old(db.components) && db.chelators == old(db.chelators)
    ensures db.templates == old(db.templates)["tmpl_biochem_01" := AnalysisTemplate("Биохимический анализ", true)]
    ensures db.items == old(db.items) + BIOCHEM_ITEMS
  {
    var biochem := "tmpl_biochem_01";
    ghost var items := db.items;
    db.CreateTemplate(biochem, AnalysisTemplate("Биохимический анализ", true));
    db.CreateItem("tmpl_item_fer_01", TemplateItem(biochem, "Ферритин", "нг/мл"));
    db.CreateItem("tmpl_item_alt_01", TemplateItem(biochem, "АЛТ", "Ед/л"));
    db.CreateItem("tmpl_item_ast_01", TemplateItem(biochem, "АСТ", "Ед/л"));
    db.CreateItem("tmpl_item_bil_01", TemplateItem(biochem, "Билирубин общий", "мкмоль/л"));
    MergeFour(items,
      "tmpl_item_fer_01", TemplateItem(biochem, "Ферритин", "нг/мл"),
      "tmpl_item_alt_01", TemplateItem(biochem, "АЛТ", "Ед/л"),
      "tmpl_item_ast_01", TemplateItem(biochem, "АСТ", "Ед/л"),
      "tmpl_item_bil_01", TemplateItem(biochem, "Билирубин общий", "мкмоль/л"));
  }

  /** Four creates in a row add the same rows as one merge with their map. */
  lemma MergeFour<V>(m: map<string, V>, k1: string, v1: V, k2: string, v2: V, k3: string, v3: V, k4: string, v4: V)
    ensures m + map[k1 := v1, k2 := v2, k3 := v3, k4 := v4] == m[k1 := v1][k2 := v2][k3 := v3][k4 := v4]
  {
  }

  method PopulateTemplates(db: Database)
    modifies db
    ensures db.components == old(db.components) && db.chelators == old(db.chelators)
    ensures db.templates == FillTemplates(old(db.templates))
    ensures db.items == FillItems(old(db.items), old(db.templates))
  {
    if |db.templates| == 0 {
      ghost var items := db.items;
      CreateCbcTemplate(db);
      CreateBiochemTemplate(db);
      assert db.items == items + DEFAULT_ITEMS by {
        MergeAssociative(items, CBC_ITEMS, BIOCHEM_ITEMS);
      }
    }
  }

  lemma MergeAssociative<V>(a: map<string, V>, b: map<string, V>, c: map<string, V>)
    ensures a + b + c == a + (b + c)
  {
  }

  /** `seedDefaultData`: the purge write, then the three populate passes, each counting rows after the purge. */
  method SeedDefaultData(db: Database)
    modifies db
    ensures db.Snapshot() == Seeded(old(db.Snapshot()))
  {
    ghost var t := db.Snapshot();
    PurgeComponentRows(db);
    PurgeChelatorRows(db);
    PurgeTemplateRows(db);
    PurgeItemRows(db);
    ghost var p := db.Snapshot();
    assert p == Purged(t);
    PopulateComponents(db);
    PopulateChelators(db);
    PopulateTemplates(db);
    assert db.Snapshot() == Populated(p);
    SeededIsPopulatedPurged(t);
  }

  /** The run, table by table, is the purge write followed by the populate passes. */
  lemma SeededIsPopulatedPurged(t: Tables)
    ensures Seeded(t) == Populated(Purged(t))
  {
  }

  // ---------------------------------------------------------------------------------------
  // What one run creates

  /** The default components: the three canonical ids, all flagged default, ordered 1, 2, 3. */
  lemma DefaultComponentsAreCanonical()
    ensures DEFAULT_COMPONENTS.Keys == CANONICAL_COMPONENT_IDS && |DEFAULT_COMPONENTS| == 3
    ensures forall id :: id in DEFAULT_COMPONENTS ==> DEFAULT_COMPONENTS[id].isDefault
    ensures DEFAULT_COMPONENTS["comp_hb_01"].sortOrder == 1
    ensures DEFAULT_COMPONENTS["comp_fe_01"].sortOrder == 2
    ensures DEFAULT_COMPONENTS["comp_plt_01"].sortOrder == 3
  {
  }

  /** The default chelators: the four canonical ids, all flagged default, ordered 0 to 3. */
  lemma DefaultChelatorsAreCanonical()
    ensures DEFAULT_CHELATORS.Keys == CANONICAL_CHELATOR_IDS && |DEFAULT_CHELATORS| == 4
    ensures forall id :: id in DEFAULT_CHELATORS ==> DEFAULT_CHELATORS[id].isDefault
    ensures DEFAULT_CHELATORS["chel_none_01"].sortOrder == 0
    ensures DEFAULT_CHELATORS["chel_desf_01"].sortOrder == 1
    ensures DEFAULT_CHELATORS["chel_exja_01"].sortOrder == 2
    ensures DEFAULT_CHELATORS["chel_jade_01"].sortOrder == 3
  {
  }

  /** The default templates: the two canonical ids, both flagged default. */
  lemma DefaultTemplatesAreCanonical()
    ensures DEFAULT_TEMPLATES.Keys == CANONICAL_TEMPLATE_IDS && |DEFAULT_TEMPLATES| == 2
    ensures forall id :: id in DEFAULT_TEMPLATES ==> DEFAULT_TEMPLATES[id].isDefault
  {
  }

  /** Four items linked to the first default template. */
  lemma CbcItemsAreLinked()
    ensures |CBC_ITEMS| == 4 && forall id :: id in CBC_ITEMS ==> CBC_ITEMS[id].templateId == "tmpl_cbc_01"
  {
  }

  /** Four items linked to the second default template. */
  lemma BiochemItemsAreLinked()
    ensures |BIOCHEM_ITEMS| == 4 && forall id :: id in BIOCHEM_ITEMS ==> BIOCHEM_ITEMS[id].templateId == "tmpl_biochem_01"
  {
  }

  /** The eight default items are exactly the canonical item ids, four per template. */
  lemma DefaultItemsAreCanonical()
    ensures DEFAULT_ITEMS.Keys == CANONICAL_ITEM_IDS
    ensures CBC_ITEMS.Keys !! BIOCHEM_ITEMS.Keys
  {
  }

  /** A map without keys has no rows. */
  lemma Empty<V>(m: map<string, V>)
    requires m.Keys == {}
    ensures |m| == 0
  {
  }

  /** A map with a key has rows. */
  lemma NonEmpty<V>(m: map<string, V>, id: string)
    requires id in m
    ensures |m| > 0
  {
    assert m.Keys != {};
  }

  /** A component table whose every row the purge removes is refilled with exactly the defaults. */
  lemma SeedFillsComponents(rows: map<string, ComponentType>)
    requires forall id :: id in rows ==> ComponentPurged(id, rows[id])
    ensures SeedComponents(rows) == DEFAULT_COMPONENTS
  {
    Empty(PurgeComponents(rows));
  }

  /** A chelator table whose every row the purge removes is refilled with exactly the defaults. */
  lemma SeedFillsChelators(rows: map<string, ChelatorType>)
    requires forall id :: id in rows ==> ChelatorPurged(id, rows[id])
    ensures SeedChelators(rows) == DEFAULT_CHELATORS
  {
    Empty(PurgeChelators(rows));
  }

  /** A template table whose every row the purge removes is refilled with exactly the two defaults. */
  lemma SeedFillsTemplates(templates: map<string, AnalysisTemplate>)
    requires forall id :: id in templates ==> TemplatePurged(id, templates[id])
    ensures SeedTemplates(templates) == DEFAULT_TEMPLATES
  {
    Empty(PurgeTemplates(templates));
  }

  /**
   * When the template table is refilled, the eight default items are added and no other item
   * goes, since no parent resolves in the emptied table.
   */
  lemma SeedAddsDefaultItems(templates: map<string, AnalysisTemplate>, items: map<string, TemplateItem>)
    requires forall id :: id in templates ==> TemplatePurged(id, templates[id])
    ensures SeedItems(items, templates) == items + DEFAULT_ITEMS
  {
    var parents := PurgeTemplates(templates);
    Empty(parents);
    PurgeItemsNothing(items, parents);
    SeedItemsAfterEmptyPurge(items, templates);
  }

  lemma SeedItemsAfterEmptyPurge(items: map<string, TemplateItem>, templates: map<string, AnalysisTemplate>)
    requires |PurgeTemplates(templates)| == 0
    ensures SeedItems(items, templates) == PurgeItems(items, PurgeTemplates(templates)) + DEFAULT_ITEMS
  {
  }

  /**
   * When the templates are refilled and no item points at a canonical template id, each default
   * template has as children exactly its default items.
   */
  lemma SeedTemplateChildren(templates: map<string, AnalysisTemplate>, items: map<string, TemplateItem>, tid: string)
    requires forall id :: id in templates ==> TemplatePurged(id, templates[id])
    requires forall id :: id in items ==> items[id].templateId !in CANONICAL_TEMPLATE_IDS
    requires tid in CANONICAL_TEMPLATE_IDS
    ensures ChildIds(SeedItems(items, templates), tid) == ChildIds(DEFAULT_ITEMS, tid)
  {
    SeedAddsDefaultItems(templates, items);
    assert ChildIds(items, tid) == {};
    ChildIdsAfterMerge(items, DEFAULT_ITEMS, tid);
  }

  /** Among the default items, the children of the first default template are its own four. */
  lemma DefaultCbcChildren()
    ensures ChildIds(DEFAULT_ITEMS, "tmpl_cbc_01") == CBC_ITEMS.Keys
  {
    BiochemItemsAreLinked();
    DefaultItemsAreCanonical();
    assert ChildIds(BIOCHEM_ITEMS, "tmpl_cbc_01") == {};
    ChildIdsBeforeMerge(CBC_ITEMS, BIOCHEM_ITEMS, "tmpl_cbc_01");
    CbcItemsAreLinked();
  }

  /** Among the default items, the children of the second default template are its own four. */
  lemma DefaultBiochemChildren()
    ensures ChildIds(DEFAULT_ITEMS, "tmpl_biochem_01") == BIOCHEM_ITEMS.Keys
  {
    CbcItemsAreLinked();
    assert ChildIds(CBC_ITEMS, "tmpl_biochem_01") == {};
    ChildIdsAfterMerge(CBC_ITEMS, BIOCHEM_ITEMS, "tmpl_biochem_01");
    BiochemItemsAreLinked();
  }


  /**
   * A component table in which the purge keeps a row is not populated: it stays as the purge
   * left it, so a canonical id it lacked is still missing afterwards.
   */
  lemma SeedNeverTopsUpComponents(rows: map<string, ComponentType>, kept: string)
    requires kept in rows && !ComponentPurged(kept, rows[kept])
    ensures SeedComponents(rows) == PurgeComponents(rows)
    ensures forall id :: id !in rows ==> id !in SeedComponents(rows)
  {
    NonEmpty(PurgeComponents(rows), kept);
  }

  /** The same for chelators. */
  lemma SeedNeverTopsUpChelators(rows: map<string, ChelatorType>, kept: string)
    requires kept in rows && !ChelatorPurged(kept, rows[kept])
    ensures SeedChelators(rows) == PurgeChelators(rows)
    ensures forall id :: id !in rows ==> id !in SeedChelators(rows)
  {
    NonEmpty(PurgeChelators(rows), kept);
  }

  /** The same for templates; their items then only go through the purge. */
  lemma SeedNeverTopsUpTemplates(t: Tables, kept: string)
    requires kept in t.templates && !TemplatePurged(kept, t.templates[kept])
    ensures Seeded(t).templates == Purged(t).templates && Seeded(t).items == Purged(t).items
    ensures forall id :: id !in t.templates ==> id !in Seeded(t).templates
  {
    NonEmpty(PurgeTemplates(t.templates), kept);
  }

  /** Rows the user made (not default) survive a run unchanged, and so do the items of a user template. */
  lemma SeedKeepsUserRows(t: Tables)
    ensures forall id :: id in t.components && !t.components[id].isDefault ==>
      id in Seeded(t).components && Seeded(t).components[id] == t.components[id]
    ensures forall id :: id in t.chelators && !t.chelators[id].isDefault ==>
      id in Seeded(t).chelators && Seeded(t).chelators[id] == t.chelators[id]
    ensures forall id :: id in t.templates && !t.templates[id].isDefault ==>
      id in Seeded(t).templates && Seeded(t).templates[id] == t.templates[id]
    ensures forall id :: id in t.items && t.items[id].templateId in t.templates && !t.templates[t.items[id].templateId].isDefault ==>
      id in Seeded(t).items && Seeded(t).items[id] == t.items[id]
  {
    forall id | id in t.components && !t.components[id].isDefault
      ensures id in Seeded(t).components && Seeded(t).components[id] == t.components[id]
    {
      SeedNeverTopsUpComponents(t.components, id);
    }
    forall id | id in t.chelators && !t.chelators[id].isDefault
      ensures id in Seeded(t).chelators && Seeded(t).chelators[id] == t.chelators[id]
    {
      SeedNeverTopsUpChelators(t.chelators, id);
    }
    forall id | id in t.templates && !t.templates[id].isDefault
      ensures id in Seeded(t).templates && Seeded(t).templates[id] == t.templates[id]
    {
      SeedNeverTopsUpTemplates(t, id);
    }
    forall id | id in t.items && t.items[id].templateId in t.templates && !t.templates[t.items[id].templateId].isDefault
      ensures id in Seeded(t).items && Seeded(t).items[id] == t.items[id]
    {
      SeedNeverTopsUpTemplates(t, t.items[id].templateId);
    }
  }

  /**
   * The children of a purged template are not purged with it: once the parent is gone the item
   * purge cannot resolve it, so the item stays behind pointing at a template that is not there.
   */
  lemma SeedLeavesOrphans(t: Tables, id: string)
    requires id in t.items && id !in CANONICAL_ITEM_IDS
    requires t.items[id].templateId in t.templates && TemplatePurged(t.items[id].templateId, t.templates[t.items[id].templateId])
    ensures id in Seeded(t).items && Seeded(t).items[id] == t.items[id]
    ensures t.items[id].templateId !in Seeded(t).templates
  {
    var parents := PurgeTemplates(t.templates);
    assert id in PurgeItems(t.items, parents);
    if |parents| == 0 {
      DefaultItemsAreCanonical();
      DefaultTemplatesAreCanonical();
    }
  }

  // ---------------------------------------------------------------------------------------
  // Running the bootstrap again

  lemma PurgeComponentsNothing(rows: map<string, ComponentType>)
    requires forall id :: id in rows ==> !ComponentPurged(id, rows[id])
    ensures PurgeComponents(rows) == rows
  {
  }

  lemma PurgeChelatorsNothing(rows: map<string, ChelatorType>)
    requires forall id :: id in rows ==> !ChelatorPurged(id, rows[id])
    ensures PurgeChelators(rows) == rows
  {
  }

  lemma PurgeTemplatesNothing(rows: map<string, AnalysisTemplate>)
    requires forall id :: id in rows ==> !TemplatePurged(id, rows[id])
    ensures PurgeTemplates(rows) == rows
  {
  }

  lemma PurgeItemsNothing(items: map<string, TemplateItem>, templates: map<string, AnalysisTemplate>)
    requires forall id :: id in items ==> !ItemPurged(templates, id, items[id])
    ensures PurgeItems(items, templates) == items
  {
  }

  /** After one run the component table is non-empty and a second run leaves it alone. */
  lemma SeedComponentsIdempotent(rows: map<string, ComponentType>)
    ensures |SeedComponents(rows)| > 0
    ensures SeedComponents(SeedComponents(rows)) == SeedComponents(rows)
  {
    var c := SeedComponents(rows);
    if |PurgeComponents(rows)| == 0 {
      DefaultComponentsAreCanonical();
      NonEmpty(c, "comp_hb_01");
    }
    PurgeComponentsNothing(c);
  }

  /** After one run the chelator table is non-empty and a second run leaves it alone. */
  lemma SeedChelatorsIdempotent(rows: map<string, ChelatorType>)
    ensures |SeedChelators(rows)| > 0
    ensures SeedChelators(SeedChelators(rows)) == SeedChelators(rows)
  {
    var c := SeedChelators(rows);
    if |PurgeChelators(rows)| == 0 {
      DefaultChelatorsAreCanonical();
      NonEmpty(c, "chel_none_01");
    }
    PurgeChelatorsNothing(c);
  }

  /** After one run the template table is non-empty and the purge has nothing left to remove from it. */
  lemma SeedTemplatesIdempotent(rows: map<string, AnalysisTemplate>)
    ensures |SeedTemplates(rows)| > 0
    ensures PurgeTemplates(SeedTemplates(rows)) == SeedTemplates(rows)
    ensures SeedTemplates(SeedTemplates(rows)) == SeedTemplates(rows)
  {
    var c := SeedTemplates(rows);
    if |PurgeTemplates(rows)| == 0 {
      DefaultTemplatesAreCanonical();
      NonEmpty(c, "tmpl_cbc_01");
    }
    PurgeTemplatesNothing(c);
  }

  /** An item the purge would remove if its parent were one of the two default templates. */
  predicate StrandedItem(id: string, row: TemplateItem)
  {
    id !in CANONICAL_ITEM_IDS && row.name in DEFAULT_ITEM_NAMES && row.templateId in CANONICAL_TEMPLATE_IDS
  }

  /**
   * The first run leaves the template table empty after its purge, yet keeps a stranded item:
   * its parent was missing then, and the populate pass recreates that parent afterwards.
   */
  predicate LeavesStrandedItem(items: map<string, TemplateItem>, templates: map<string, AnalysisTemplate>)
  {
    |PurgeTemplates(templates)| == 0
    && exists id :: id in PurgeItems(items, PurgeTemplates(templates)) && StrandedItem(id, items[id])
  }

  /** Once the template table is non-empty and clean, a run only purges the items against it. */
  lemma SeedItemsUnderCleanTemplates(items: map<string, TemplateItem>, templates: map<string, AnalysisTemplate>)
    requires |templates| > 0 && PurgeTemplates(templates) == templates
    ensures SeedItems(items, templates) == PurgeItems(items, templates)
  {
  }

  /** When the purge keeps some template, the items it keeps are clean against the templates it keeps. */
  lemma ItemsSettleUnderKeptTemplates(items: map<string, TemplateItem>, templates: map<string, AnalysisTemplate>)
    requires |PurgeTemplates(templates)| > 0
    ensures PurgeItems(SeedItems(items, templates), SeedTemplates(templates)) == SeedItems(items, templates)
  {
    var parents := PurgeTemplates(templates);
    var kept := PurgeItems(items, parents);
    assert SeedItems(items, templates) == kept && SeedTemplates(templates) == parents;
    PurgeItemsNothing(kept, parents);
  }

  /** When the templates are refilled and no stranded item was kept, the items are clean against the defaults. */
  lemma ItemsSettleAfterRefill(items: map<string, TemplateItem>, templates: map<string, AnalysisTemplate>)
    requires |PurgeTemplates(templates)| == 0 && !LeavesStrandedItem(items, templates)
    ensures PurgeItems(SeedItems(items, templates), SeedTemplates(templates)) == SeedItems(items, templates)
  {
    var kept := PurgeItems(items, PurgeTemplates(templates));
    var first := SeedItems(items, templates);
    var parents := SeedTemplates(templates);
    SeedItemsAfterEmptyPurge(items, templates);
    assert parents == DEFAULT_TEMPLATES;
    DefaultItemsAreCanonical();
    forall id | id in first ensures !ItemPurged(parents, id, first[id]) {
      if id !in DEFAULT_ITEMS {
        assert id in kept && !StrandedItem(id, items[id]);
      }
    }
    PurgeItemsNothing(first, parents);
  }

  /** A stranded item survives the first run unchanged and is deleted by the second. */
  lemma StrandedItemFlips(items: map<string, TemplateItem>, templates: map<string, AnalysisTemplate>, id: string)
    requires |PurgeTemplates(templates)| == 0
    requires id in PurgeItems(items, PurgeTemplates(templates)) && StrandedItem(id, items[id])
    ensures id in SeedItems(items, templates) && SeedItems(items, templates)[id] == items[id]
    ensures id !in SeedItems(SeedItems(items, templates), SeedTemplates(templates))
  {
    var first := SeedItems(items, templates);
    var parents := SeedTemplates(templates);
    SeedItemsAfterEmptyPurge(items, templates);
    DefaultItemsAreCanonical();
    assert id in first && first[id] == items[id];
    assert parents == DEFAULT_TEMPLATES;
    SeedTemplatesIdempotent(templates);
    SeedItemsUnderCleanTemplates(first, parents);
    DefaultTemplatesAreCanonical();
    assert ItemPurged(parents, id, first[id]);
  }

  /** Purging the seeded items against the seeded templates removes something exactly when a stranded item was left. */
  lemma ItemsSettle(items: map<string, TemplateItem>, templates: map<string, AnalysisTemplate>)
    ensures PurgeItems(SeedItems(items, templates), SeedTemplates(templates)) == SeedItems(items, templates)
      <==> !LeavesStrandedItem(items, templates)
  {
    if LeavesStrandedItem(items, templates) {
      var id :| id in PurgeItems(items, PurgeTemplates(templates)) && StrandedItem(id, items[id]);
      StrandedItemFlips(items, templates, id);
      SeedTemplatesIdempotent(templates);
      SeedItemsUnderCleanTemplates(SeedItems(items, templates), SeedTemplates(templates));
    } else if |PurgeTemplates(templates)| > 0 {
      ItemsSettleUnderKeptTemplates(items, templates);
    } else {
      ItemsSettleAfterRefill(items, templates);
    }
  }

  /**
   * A second run changes nothing exactly when the first did not leave a stranded item behind;
   * when it did, the second run deletes that item.
   */
  lemma SeedIdempotentUnlessStranded(t: Tables)
    ensures Seeded(Seeded(t)) == Seeded(t) <==> !LeavesStrandedItem(t.items, t.templates)
  {
    var s := Seeded(t);
    SeedComponentsIdempotent(t.components);
    SeedChelatorsIdempotent(t.chelators);
    SeedTemplatesIdempotent(t.templates);
    SeedItemsUnderCleanTemplates(s.items, s.templates);
    ItemsSettle(t.items, t.templates);
    assert Seeded(s) == Tables(s.components, s.chelators, s.templates, PurgeItems(s.items, s.templates));
  }

  /** Whatever the store held, the third run changes nothing: the bootstrap settles after two. */
  lemma SeedSettlesAfterTwoRuns(t: Tables)
    ensures Seeded(Seeded(Seeded(t))) == Seeded(Seeded(t))
  {
    var s := Seeded(t);
    SeedTemplatesIdempotent(t.templates);
    assert !LeavesStrandedItem(s.items, s.templates);
    SeedIdempotentUnlessStranded(s);
  }

  /**
   * A store with no templates and one user item, under any non-canonical id, named like a default
   * item and pointing at `tmpl_cbc_01`: the first run keeps it and the second deletes it.
   */
  lemma SecondRunCanDelete(id: string)
    requires id !in CANONICAL_ITEM_IDS
    ensures var items := map[id := TemplateItem("tmpl_cbc_01", "Гемоглобин", "g/l")];
      id in SeedItems(items, map[]) && id !in SeedItems(SeedItems(items, map[]), SeedTemplates(map[]))
  {
    ExampleItemIsStranded(id);
    StrandedItemFlips(map[id := TemplateItem("tmpl_cbc_01", "Гемоглобин", "g/l")], map[], id);
  }

  lemma ExampleItemIsStranded(id: string)
    requires id !in CANONICAL_ITEM_IDS
    ensures var row := TemplateItem("tmpl_cbc_01", "Гемоглобин", "g/l");
      |PurgeTemplates(map[])| == 0 && id in PurgeItems(map[id := row], PurgeTemplates(map[])) && StrandedItem(id, row)
  {
    var row := TemplateItem("tmpl_cbc_01", "Гемоглобин", "g/l");
    var parents := PurgeTemplates(map[]);
    Empty(parents);
    assert !ItemPurged(parents, id, row);
  }

  /**
   * A row under a non-canonical id with a default item name, whose parent is a canonical default
   * template, does not outlive a seed run: the parent survives the template purge and the item
   * purge then deletes the row.
   */
  lemma SeedDropsDefaultNamedChild(items: map<string, TemplateItem>, templates: map<string, AnalysisTemplate>, id: string)
    requires id in items && id !in CANONICAL_ITEM_IDS && items[id].name in DEFAULT_ITEM_NAMES
    requires items[id].templateId in templates && templates[items[id].templateId].isDefault
    requires items[id].templateId in CANONICAL_TEMPLATE_IDS
    ensures id !in SeedItems(items, templates)
  {
    var parents := PurgeTemplates(templates);
    NonEmpty(parents, items[id].templateId);
  }
}
