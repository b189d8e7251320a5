/**
 * The add/edit-analysis screen: a template choice, a date and a list of (name, value, unit)
 * rows. The rows are objects: the list state is replaced by each handler, but a field edit
 * writes into the row object itself, and when the screen edits an existing analysis the row
 * objects are that analysis's own.
 */
module AnalysisForm {
  import opened Lists

  /** The content of one row. */
  datatype Row = Row(name: string, value: string, unit: string)

  /** The row field an input edits. */
  datatype Field = Name | Value | Unit

  const EMPTY_ROW: Row := Row("", "", "")

  /** The rows the "common" (complete blood count) choice puts in. */
  const COMMON_ROWS: seq<Row> := [Row("Гемоглобин", "", "г/дл"), Row("Ферритин", "", "нг/мл"), Row("Тромбоциты", "", "10^9/л")]

  /** The rows the "biochem" choice puts in. */
  const BIOCHEM_ROWS: seq<Row> := [Row("АЛТ", "", "Ед/л"), Row("АСТ", "", "Ед/л"), Row("Билирубин", "", "мкмоль/л")]

  function Get(r: Row, f: Field): string
  {
    match f
    case Name => r.name
    case Value => r.value
    case Unit => r.unit
  }

  /** `row[f] = v`. */
  function Put(r: Row, f: Field, v: string): (p: Row)
    ensures Get(p, f) == v
    ensures forall g :: g != f ==> Get(p, g) == Get(r, g)
  {
    match f
    case Name => r.(name := v)
    case Value => r.(value := v)
    case Unit => r.(unit := v)
  }

  /** The rows after `handleItemChange(i, f, v)`: field `f` of row `i` only; an index outside the list throws. */
  function SetField(rows: seq<Row>, i: int, f: Field, v: string): (r: seq<Row>)
    ensures |r| == |rows|
    ensures forall j :: 0 <= j < |rows| && j != i ==> r[j] == rows[j]
    ensures 0 <= i < |rows| ==> Get(r[i], f) == v && forall g :: g != f ==> Get(r[i], g) == Get(rows[i], g)
    ensures !(0 <= i < |rows|) ==> r == rows
  {
    if 0 <= i < |rows| then rows[i := Put(rows[i], f, v)] else rows
  }

  /** The rows after `handleTemplateChange(val)`: the two preset lists, a fresh single row, or no change. */
  function TemplateRows(val: string, rows: seq<Row>): seq<Row>
  {
    if val == "common" then COMMON_ROWS
    else if val == "biochem" then BIOCHEM_ROWS
    else if val == "new" then [EMPTY_ROW]
    else rows
  }

  /** The names a list of rows shows. */
  function Names(rows: seq<Row>): (names: seq<string>)
    ensures |names| == |rows| && forall j :: 0 <= j < |rows| ==> names[j] == rows[j].name
  {
    if rows == [] then [] else [rows[0].name] + Names(rows[1..])
  }

  /** Each preset is exactly its three named rows with no value entered; "new" is one empty row. */
  lemma TemplateChoices(rows: seq<Row>)
    ensures Names(TemplateRows("common", rows)) == ["Гемоглобин", "Ферритин", "Тромбоциты"]
    ensures Names(TemplateRows("biochem", rows)) == ["АЛТ", "АСТ", "Билирубин"]
    ensures forall r :: r in TemplateRows("common", rows) + TemplateRows("biochem", rows) ==> r.value == ""
    ensures TemplateRows("new", rows) == [EMPTY_ROW]
  {
    var c, b := TemplateRows("common", rows), TemplateRows("biochem", rows);
    assert |Names(c)| == 3 && Names(c)[0] == "Гемоглобин" && Names(c)[1] == "Ферритин" && Names(c)[2] == "Тромбоциты";
    assert |Names(b)| == 3 && Names(b)[0] == "АЛТ" && Names(b)[1] == "АСТ" && Names(b)[2] == "Билирубин";
  }

  /** Any other choice, such as "custom", keeps the rows as they are. */
  lemma OtherChoiceKeepsRows(val: string, rows: seq<Row>)
    requires val !in {"common", "biochem", "new"}
    ensures TemplateRows(val, rows) == rows
  {
  }

  /** One row object `{name, value, unit}`. */
  class Item {
    var name: string
    var value: string
    var unit: string

    function Content(): Row
      reads this
    {
      Row(name, value, unit)
    }

    constructor (r: Row)
      ensures Content() == r
    {
      name, value, unit := r.name, r.value, r.unit;
    }

    /** `item[f] = v`, in place. */
    method Set(f: Field, v: string)
      modifies this
      ensures Content() == Put(old(Content()), f, v)
    {
      match f {
        case Name => name := v;
        case Value => value := v;
        case Unit => unit := v;
      }
    }
  }

  /** An analysis as the screens hand it over: its date and its list of row objects. */
  class Analysis {
    var date: string
    var items: seq<Item>

    constructor (date: string, items: seq<Item>)
      ensures this.date == date && this.items == items
    {
      this.date, this.items := date, items;
    }
  }

  /** The contents of a list of row objects, in order. */
  function RowsOf(s: seq<Item>): (rows: seq<Row>)
    reads s
    ensures |rows| == |s| && forall j :: 0 <= j < |s| ==> rows[j] == s[j].Content()
  {
    if s == [] then [] else [s[0].Content()] + RowsOf(s[1..])
  }

  /** No row object occurs twice in a list. */
  ghost predicate Distinct(s: seq<Item>)
  {
    forall i, j :: 0 <= i < j < |s| ==> s[i] != s[j]
  }

  /** Dropping an object from a list drops its contents at the same index. */
  lemma RowsOfRemoveAt(s: seq<Item>, i: int)
    ensures RowsOf(RemoveAt(s, i)) == RemoveAt(RowsOf(s), i)
  {
    if 0 <= i < |s| {
      var a, b := RowsOf(RemoveAt(s, i)), RemoveAt(RowsOf(s), i);
      assert |a| == |b|;
      forall j | 0 <= j < |a| ensures a[j] == b[j] {
        if j >= i {
          assert RemoveAt(s, i)[j] == s[j + 1];
        }
      }
    }
  }

  /** The screen's state. */
  class AnalysisForm {
    var template: string
    var items: seq<Item>
    var date: string

    /** The row objects are pairwise different, so an edit of one row changes no other. */
    ghost predicate Valid()
      reads this
    {
      Distinct(items)
    }

    /** What the list shows. */
    function Rows(): seq<Row>
      reads this, items
    {
      RowsOf(items)
    }

    /**
     * Opened on an existing analysis or on none. Editing starts on the "custom" choice with the
     * analysis's own row list (the same objects); a new analysis starts with one empty row. The
     * date is the analysis's, or else today's UTC date `todayUtc` (`toISOString` up to the `T`).
     */
    constructor (initial: Analysis?, todayUtc: string)
      requires initial != null ==> Distinct(initial.items)
      ensures Valid()
      ensures template == (if initial != null then "custom" else "")
      ensures initial != null ==> items == initial.items
      ensures initial == null ==> Rows() == [EMPTY_ROW]
      ensures date == (if initial != null && initial.date != "" then initial.date else todayUtc)
    {
      template := if initial != null then "custom" else "";
      date := if initial != null && initial.date != "" then initial.date else todayUtc;
      if initial != null {
        items := initial.items;
      } else {
        var blank := new Item(EMPTY_ROW);
        items := [blank];
      }
    }

    /** `handleTemplateChange`: the choice is recorded; the three known choices replace the rows with new objects. */
    method ChangeTemplate(val: string)
      requires Valid()
      modifies this
      ensures Valid() && template == val && date == old(date)
      ensures Rows() == TemplateRows(val, old(Rows()))
      ensures val !in {"common", "biochem", "new"} ==> items == old(items)
    {
      template := val;
      if val == "common" {
        var a := new Item(COMMON_ROWS[0]);
        var b := new Item(COMMON_ROWS[1]);
        var c := new Item(COMMON_ROWS[2]);
        items := [a, b, c];
      } else if val == "biochem" {
        var a := new Item(BIOCHEM_ROWS[0]);
        var b := new Item(BIOCHEM_ROWS[1]);
        var c := new Item(BIOCHEM_ROWS[2]);
        items := [a, b, c];
      } else if val == "new" {
        var blank := new Item(EMPTY_ROW);
        items := [blank];
      }
    }

    /**
     * `handleItemChange` as written: the list is copied, but the row object at `i` is written in
     * place, so the object keeps its identity and whoever else holds it sees the edit.
     */
    method ChangeItem(i: int, f: Field, v: string)
      requires Valid()
      modifies if 0 <= i < |items| then {items[i]} else {}
      ensures items == old(items) && Valid()
      ensures Rows() == SetField(old(Rows()), i, f, v)
    {
      if 0 <= i < |items| {
        items[i].Set(f, v);
      }
    }

    /** `handleItemChange` with the row copied before the write: no object the list had before is changed. */
    method ChangeItemCopied(i: int, f: Field, v: string)
      requires Valid()
      modifies this
      ensures Valid() && template == old(template) && date == old(date)
      ensures Rows() == SetField(old(Rows()), i, f, v)
    {
      if 0 <= i < |items| {
        var copy := new Item(Put(items[i].Content(), f, v));
        items := items[i := copy];
      }
    }

    /** `addItem`: one new empty row object at the end. */
    method AddItem()
      requires Valid()
      modifies this
      ensures Valid() && template == old(template) && date == old(date)
      ensures Rows() == old(Rows()) + [EMPTY_ROW]
    {
      var blank := new Item(EMPTY_ROW);
      items := items + [blank];
    }

    /** `removeItem`. */
    method RemoveItem(i: int)
      requires Valid()
      modifies this
      ensures Valid() && template == old(template) && date == old(date)
      ensures Rows() == RemoveAt(old(Rows()), i)
    {
      RowsOfRemoveAt(items, i);
      items := RemoveAt(items, i);
    }

    /** The date picker's `onChange`. */
    method SetDate(d: string)
      modifies this
      ensures date == d && template == old(template) && items == old(items)
    {
      date := d;
    }
  }

  /**
   * Opening an existing analysis and editing a value changes that analysis's own row, though
   * nothing was saved: "Save" and "back" both only close the screen.
   */
  method EditReachesOpenedAnalysis(a: Analysis, v: string)
    requires Distinct(a.items) && |a.items| > 0
    modifies a.items[0]
    ensures a.items[0].value == v
  {
    var form := new AnalysisForm(a, "");
    form.ChangeItem(0, Value, v);
  }

  /** With the row copied before the write, the opened analysis keeps its rows whatever is typed. */
  method CopiedEditLeavesOpenedAnalysis(a: Analysis, v: string)
    requires Distinct(a.items) && |a.items| > 0
    ensures a.items[0].value == old(a.items[0].value)
  {
    var form := new AnalysisForm(a, "");
    form.ChangeItemCopied(0, Value, v);
    assert form.Rows()[0].value == v;
  }
}
