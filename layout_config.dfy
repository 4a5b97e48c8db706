/**
 * `loadLayoutFromJSON`: validates a parsed JSON dashboard description and
 * builds the tab/element layout from it, collecting errors and warnings
 * instead of failing. Malformed tabs and elements are skipped, missing
 * names get defaults, data sources are normalised to a list of strings
 * and layout numbers are clamped to at least 1.
 *
 * The specification functions describe the result in closed form (tab
 * names from a count of unnamed tabs, outputs and warnings per item);
 * the methods follow the source's loops and are proved against them.
 * The uuid keys of the source's maps are replaced by sequence positions,
 * and the Svelte stores by plain values.
 */
module LayoutConfig {
  import opened Common

  /** A parsed JSON value. Numbers are reals (no NaN or infinities arise from JSON text). */
  datatype Json =
    | JNull
    | JBool(b: bool)
    | JNumber(n: real)
    | JString(s: string)
    | JArray(items: seq<Json>)
    | JObject(fields: map<string, Json>)

  type Fields = map<string, Json>

  datatype ElementLayout = ElementLayout(x: real, y: real, width: real, height: real)
  datatype DashboardElement = DashboardElement(name: string, typ: string, data: seq<string>, layout: ElementLayout)
  datatype DashboardTab = DashboardTab(name: string, elements: seq<DashboardElement>)

  /** What the function returns. */
  datatype LoadResult = LoadResult(errors: seq<string>, warnings: seq<string>)

  /** A value together with the warnings produced while building it. */
  datatype Outcome<T> = Outcome(value: T, warnings: seq<string>)

  const MissingTabs := "Input did not have \"tabs\" property"
  const TabsNotArray := "Input tabs was not an array"
  const NonObjectTab := "Tab list had non-object item, skipping"

  function ElementsNotArray(tab: string): string { "[" + tab + "] Element list was not an array" }
  function NonObjectElement(tab: string): string { "[" + tab + "] Elements had non-object item, skipping" }
  function MissingType(tab: string): string { "[" + tab + "] An element was missing a string type, skipping" }
  function DataMissing(tab: string, element: string): string { "[" + tab + "] [" + element + "] Data sources missing." }
  function DataMalformed(tab: string, element: string): string {
    "[" + tab + "] [" + element + "] Data sources were neither string nor string array"
  }
  function LayoutMalformed(tab: string, element: string): string { "[" + tab + "] [" + element + "] Layout malformed" }

  /** `isObject`: not a primitive and not an array, so exactly the JSON objects. */
  function IsObject(j: Json): (r: bool)
    ensures r <==> j.JObject?
  {
    var isPrimitive := j.JNull? || j.JBool? || j.JNumber? || j.JString?;
    !isPrimitive && !j.JArray?
  }

  /** `key in o && typeof o[key] === 'string'`, yielding the string. */
  function StringField(o: Fields, key: string): (r: Option<string>)
    ensures r.Some? <==> key in o && o[key].JString?
    ensures r.Some? ==> o[key] == JString(r.value)
  {
    if key in o && o[key].JString? then Some(o[key].s) else None
  }

  /** `n` copies of the same warning. */
  function Repeat(w: string, n: nat): (r: seq<string>)
    ensures |r| == n && forall i :: 0 <= i < n ==> r[i] == w
  {
    seq(n, _ => w)
  }

  // ---------------------------------------------------------------------
  // Filtering non-objects
  // ---------------------------------------------------------------------

  /** The fields of the items that are objects, in order. */
  function Objects(items: seq<Json>): seq<Fields> {
    if |items| == 0 then []
    else Objects(items[..|items| - 1]) + (if IsObject(items[|items| - 1]) then [items[|items| - 1].fields] else [])
  }

  /** How many items are not objects. */
  function NonObjects(items: seq<Json>): nat {
    if |items| == 0 then 0
    else NonObjects(items[..|items| - 1]) + (if IsObject(items[|items| - 1]) then 0 else 1)
  }

  /** Filtering splits the items: each is kept as an object or counted (and warned about) once. */
  lemma {:induction false} ObjectsPartition(items: seq<Json>)
    ensures |Objects(items)| + NonObjects(items) == |items|
    ensures forall o :: o in Objects(items) <==> JObject(o) in items
    decreases |items|
  {
    if |items| > 0 {
      var init := items[..|items| - 1];
      ObjectsPartition(init);
      assert items == init + [items[|items| - 1]];
    }
  }

  /** The `filter` with its warning callback (lines 79-83 and 106-110). */
  method FilterObjects(items: seq<Json>, warning: string) returns (objects: seq<Fields>, warnings: seq<string>)
    ensures objects == Objects(items)
    ensures warnings == Repeat(warning, NonObjects(items))
  {
    objects, warnings := [], [];
    var i := 0;
    while i < |items|
      invariant 0 <= i <= |items|
      invariant objects == Objects(items[..i])
      invariant warnings == Repeat(warning, NonObjects(items[..i]))
    {
      assert items[..i + 1][..i] == items[..i];
      if IsObject(items[i]) {
        objects := objects + [items[i].fields];
      } else {
        warnings := warnings + [warning];
      }
      i := i + 1;
    }
    assert items[..i] == items;
  }

  // ---------------------------------------------------------------------
  // One element
  // ---------------------------------------------------------------------

  /** Every data source is a string. */
  predicate AllStrings(items: seq<Json>) {
    forall i :: 0 <= i < |items| ==> items[i].JString?
  }

  /** Lines 135-149: the data sources as a list of strings. */
  function ConvertData(el: Fields, tab: string, name: string): (r: Outcome<seq<string>>)
    ensures "data" in el && el["data"].JArray? && AllStrings(el["data"].items) ==>
              |r.value| == |el["data"].items| && (forall i :: 0 <= i < |r.value| ==> el["data"].items[i] == JString(r.value[i]))
              && r.warnings == []
    ensures "data" in el && el["data"].JString? ==> r == Outcome([el["data"].s], [])
    ensures "data" !in el ==> r == Outcome([], [DataMissing(tab, name)])
    ensures "data" in el && !(el["data"].JArray? && AllStrings(el["data"].items)) && !el["data"].JString? ==>
              r == Outcome([], [DataMalformed(tab, name)])
  {
    if "data" !in el then Outcome([], [DataMissing(tab, name)])
    else
      var d := el["data"];
      if d.JArray? && AllStrings(d.items) then
        Outcome(seq(|d.items|, i requires 0 <= i < |d.items| => d.items[i].s), [])
      else if d.JString? then Outcome([d.s], [])
      else Outcome([], [DataMalformed(tab, name)])
  }

  /** `Math.max(1, v)` for a number, 1 for anything else or a missing key. */
  function Dimension(layout: Fields, key: string): (r: real)
    ensures r >= 1.0
    ensures key in layout && layout[key].JNumber? ==> r >= layout[key].n && (r == layout[key].n || r == 1.0)
    ensures !(key in layout && layout[key].JNumber?) ==> r == 1.0
  {
    if key in layout && layout[key].JNumber? then
      if layout[key].n >= 1.0 then layout[key].n else 1.0
    else 1.0
  }

  /** Lines 152-176: every layout number is at least 1; a missing or non-object layout is all ones. */
  function ConvertLayout(el: Fields, tab: string, name: string): (r: Outcome<ElementLayout>)
    ensures r.value.x >= 1.0 && r.value.y >= 1.0 && r.value.width >= 1.0 && r.value.height >= 1.0
    ensures r.warnings == [] <==> "layout" in el && IsObject(el["layout"])
    ensures r.warnings != [] ==> r == Outcome(ElementLayout(1.0, 1.0, 1.0, 1.0), [LayoutMalformed(tab, name)])
    ensures "layout" in el && IsObject(el["layout"]) ==>
              var l := el["layout"].fields;
              r.value == ElementLayout(Dimension(l, "x"), Dimension(l, "y"), Dimension(l, "width"), Dimension(l, "height"))
  {
    if !("layout" in el && IsObject(el["layout"])) then
      Outcome(ElementLayout(1.0, 1.0, 1.0, 1.0), [LayoutMalformed(tab, name)])
    else
      var l := el["layout"].fields;
      Outcome(ElementLayout(Dimension(l, "x"), Dimension(l, "y"), Dimension(l, "width"), Dimension(l, "height")), [])
  }

  /** Data that is kept without a warning: a string or an array of strings. */
  predicate WellFormedData(el: Fields) {
    "data" in el && (el["data"].JString? || (el["data"].JArray? && AllStrings(el["data"].items)))
  }

  /**
   * Lines 113-177: an element without a string `type` is skipped with one
   * warning; otherwise it is named after its `name` or, failing that, its
   * type, gets its data and layout, and is warned about exactly when its
   * data or its layout is malformed (at most once for each).
   */
  function ConvertElement(el: Fields, tab: string): (r: Outcome<Option<DashboardElement>>)
    ensures r.value.None? <==> StringField(el, "type").None?
    ensures r.value.None? ==> r.warnings == [MissingType(tab)]
    ensures r.value.Some? ==>
              var e := r.value.value;
              && e.typ == StringField(el, "type").value
              && e.name == StringField(el, "name").GetOr(e.typ)
              && e.layout.x >= 1.0 && e.layout.y >= 1.0 && e.layout.width >= 1.0 && e.layout.height >= 1.0
              && (r.warnings == [] <==> WellFormedData(el) && "layout" in el && IsObject(el["layout"]))
              && |r.warnings| <= 2
              && e.data == ConvertData(el, tab, e.name).value
              && e.layout == ConvertLayout(el, tab, e.name).value
              && r.warnings == ConvertData(el, tab, e.name).warnings + ConvertLayout(el, tab, e.name).warnings
  {
    match StringField(el, "type")
    case None => Outcome(None, [MissingType(tab)])
    case Some(typ) =>
      var name := StringField(el, "name").GetOr(typ);
      var data := ConvertData(el, tab, name);
      var layout := ConvertLayout(el, tab, name);
      Outcome(Some(DashboardElement(name, typ, data.value, layout.value)), data.warnings + layout.warnings)
  }

  /** The elements of one tab, in order, with their warnings in order. */
  function ConvertElements(els: seq<Fields>, tab: string): Outcome<seq<DashboardElement>> {
    if |els| == 0 then Outcome([], [])
    else
      var prev := ConvertElements(els[..|els| - 1], tab);
      var o := ConvertElement(els[|els| - 1], tab);
      Outcome(prev.value + (if o.value.Some? then [o.value.value] else []), prev.warnings + o.warnings)
  }

  /** How many of the elements have a string `type`. */
  function TypedCount(els: seq<Fields>): nat {
    if |els| == 0 then 0
    else TypedCount(els[..|els| - 1]) + (if StringField(els[|els| - 1], "type").Some? then 1 else 0)
  }

  /** Every layout number of every element is at least 1. */
  predicate LayoutsAtLeastOne(es: seq<DashboardElement>) {
    forall i :: 0 <= i < |es| ==>
      es[i].layout.x >= 1.0 && es[i].layout.y >= 1.0 && es[i].layout.width >= 1.0 && es[i].layout.height >= 1.0
  }

  /**
   * A tab keeps exactly its elements with a string type, every one with
   * layout numbers at least 1, and gets at least one warning per skipped
   * element.
   */
  lemma {:induction false} ConvertElementsShape(els: seq<Fields>, tab: string)
    ensures |ConvertElements(els, tab).value| == TypedCount(els)
    ensures LayoutsAtLeastOne(ConvertElements(els, tab).value)
    ensures |ConvertElements(els, tab).warnings| >= |els| - TypedCount(els)
    decreases |els|
  {
    if |els| > 0 {
      var init := els[..|els| - 1];
      ConvertElementsShape(init, tab);
      var prev := ConvertElements(init, tab).value;
      var o := ConvertElement(els[|els| - 1], tab);
      if o.value.Some? {
        var es := prev + [o.value.value];
        assert ConvertElements(els, tab).value == es;
        forall i | 0 <= i < |es|
          ensures es[i].layout.x >= 1.0 && es[i].layout.y >= 1.0 && es[i].layout.width >= 1.0 && es[i].layout.height >= 1.0
        {
          if i < |prev| {
            assert es[i] == prev[i];
          }
        }
      } else {
        assert ConvertElements(els, tab).value == prev + [] == prev;
      }
    }
  }

  /** One more element: its outcome is appended. */
  lemma ConvertElementsStep(els: seq<Fields>, tab: string, i: nat)
    requires i < |els|
    ensures var prev := ConvertElements(els[..i], tab);
            var o := ConvertElement(els[i], tab);
            ConvertElements(els[..i + 1], tab) ==
              Outcome(prev.value + (if o.value.Some? then [o.value.value] else []), prev.warnings + o.warnings)
  {
    assert els[..i + 1][..i] == els[..i];
    assert els[..i + 1][i] == els[i];
  }

  /** The loop over one tab's elements (lines 112-182). */
  method BuildElements(els: seq<Fields>, tab: string) returns (elements: seq<DashboardElement>, warnings: seq<string>)
    ensures Outcome(elements, warnings) == ConvertElements(els, tab)
  {
    elements, warnings := [], [];
    var i := 0;
    while i < |els|
      invariant 0 <= i <= |els|
      invariant Outcome(elements, warnings) == ConvertElements(els[..i], tab)
    {
      ConvertElementsStep(els, tab, i);
      var o := ConvertElement(els[i], tab);
      ghost var prev := Outcome(elements, warnings);
      warnings := warnings + o.warnings;
      if o.value.Some? {
        elements := elements + [o.value.value];
      } else {
        assert elements == elements + [];
      }
      assert Outcome(elements, warnings) == Outcome(prev.value + (if o.value.Some? then [o.value.value] else []), prev.warnings + o.warnings);
      i := i + 1;
    }
    assert els[..i] == els;
  }

  // ---------------------------------------------------------------------
  // Tabs
  // ---------------------------------------------------------------------

  /** How many tabs have no string `name`. */
  function UnnamedCount(tabs: seq<Fields>): nat {
    if |tabs| == 0 then 0
    else UnnamedCount(tabs[..|tabs| - 1]) + (if StringField(tabs[|tabs| - 1], "name").None? then 1 else 0)
  }

  /** The name of a tab preceded by `unnamedBefore` unnamed tabs: its own, or `New Tab k`. */
  function TabName(tab: Fields, unnamedBefore: nat): string {
    StringField(tab, "name").GetOr("New Tab " + DecimalString(unnamedBefore))
  }

  /** Whether a tab has an `elements` array (otherwise it is left out). */
  predicate HasElements(tab: Fields) {
    "elements" in tab && tab["elements"].JArray?
  }

  /**
   * Lines 88-183: a tab without an `elements` array yields one warning and
   * no tab; otherwise its object elements are converted, after one warning
   * per non-object element.
   */
  function ConvertTab(tab: Fields, unnamedBefore: nat): (r: Outcome<Option<DashboardTab>>)
    ensures r.value.Some? <==> HasElements(tab)
    ensures r.value.None? ==> r.warnings == [ElementsNotArray(TabName(tab, unnamedBefore))]
    ensures r.value.Some? ==> r.value.value.name == TabName(tab, unnamedBefore)
  {
    var name := TabName(tab, unnamedBefore);
    if !HasElements(tab) then Outcome(None, [ElementsNotArray(name)])
    else
      var items := tab["elements"].items;
      var es := ConvertElements(Objects(items), name);
      Outcome(Some(DashboardTab(name, es.value)), Repeat(NonObjectElement(name), NonObjects(items)) + es.warnings)
  }

  /** The object tabs, in order, each numbered by the unnamed tabs before it. */
  function ConvertTabs(tabs: seq<Fields>): Outcome<seq<DashboardTab>> {
    if |tabs| == 0 then Outcome([], [])
    else
      var prev := ConvertTabs(tabs[..|tabs| - 1]);
      var o := ConvertTab(tabs[|tabs| - 1], UnnamedCount(tabs[..|tabs| - 1]));
      Outcome(prev.value + (if o.value.Some? then [o.value.value] else []), prev.warnings + o.warnings)
  }

  /** One more tab: its outcome is appended, numbered by the unnamed tabs before it. */
  lemma ConvertTabsStep(tabs: seq<Fields>, i: nat)
    requires i < |tabs|
    ensures var prev := ConvertTabs(tabs[..i]);
            var o := ConvertTab(tabs[i], UnnamedCount(tabs[..i]));
            ConvertTabs(tabs[..i + 1]) ==
              Outcome(prev.value + (if o.value.Some? then [o.value.value] else []), prev.warnings + o.warnings)
    ensures UnnamedCount(tabs[..i + 1]) == UnnamedCount(tabs[..i]) + if StringField(tabs[i], "name").None? then 1 else 0
  {
    assert tabs[..i + 1][..i] == tabs[..i];
    assert tabs[..i + 1][i] == tabs[i];
  }

  /**
   * The body of the tab loop (lines 88-183) for a tab preceded by `tabIdx`
   * unnamed tabs; `nextIdx` is the counter after it.
   */
  method BuildTab(inputTab: Fields, tabIdx: nat) returns (tab: Option<DashboardTab>, warnings: seq<string>, nextIdx: nat)
    ensures Outcome(tab, warnings) == ConvertTab(inputTab, tabIdx)
    ensures nextIdx == tabIdx + if StringField(inputTab, "name").None? then 1 else 0
  {
    var name: string;
    var given := StringField(inputTab, "name");
    nextIdx := tabIdx;
    if given.None? {
      name := "New Tab " + DecimalString(nextIdx);
      nextIdx := nextIdx + 1;
    } else {
      name := given.value;
    }
    if !HasElements(inputTab) {
      return None, [ElementsNotArray(name)], nextIdx;
    }
    var elementObjects, filterWarnings := FilterObjects(inputTab["elements"].items, NonObjectElement(name));
    var elements, elementWarnings := BuildElements(elementObjects, name);
    tab := Some(DashboardTab(name, elements));
    warnings := filterWarnings + elementWarnings;
  }

  /** The loop over the tabs (lines 86-184), with the `tabIdx` counter of unnamed tabs. */
  method BuildTabs(tabs: seq<Fields>) returns (config: seq<DashboardTab>, warnings: seq<string>)
    ensures Outcome(config, warnings) == ConvertTabs(tabs)
  {
    config, warnings := [], [];
    var tabIdx := 0;
    var i := 0;
    while i < |tabs|
      invariant 0 <= i <= |tabs|
      invariant tabIdx == UnnamedCount(tabs[..i])
      invariant Outcome(config, warnings) == ConvertTabs(tabs[..i])
    {
      ConvertTabsStep(tabs, i);
      ghost var prev := Outcome(config, warnings);
      var tab, tabWarnings;
      tab, tabWarnings, tabIdx := BuildTab(tabs[i], tabIdx);
      warnings := warnings + tabWarnings;
      if tab.Some? {
        config := config + [tab.value];
      } else {
        assert config == config + [];
      }
      assert Outcome(config, warnings) == Outcome(prev.value + (if tab.Some? then [tab.value] else []), prev.warnings + tabWarnings);
      i := i + 1;
    }
    assert tabs[..i] == tabs;
  }

  /** How many tabs have an `elements` array. */
  function WithElementsCount(tabs: seq<Fields>): nat {
    if |tabs| == 0 then 0
    else WithElementsCount(tabs[..|tabs| - 1]) + (if HasElements(tabs[|tabs| - 1]) then 1 else 0)
  }

  /**
   * Exactly the tabs with an `elements` array appear in the output, and
   * each tab without one is warned about.
   */
  lemma {:induction false} ConvertTabsShape(tabs: seq<Fields>)
    ensures |ConvertTabs(tabs).value| == WithElementsCount(tabs)
    ensures |ConvertTabs(tabs).warnings| >= |tabs| - WithElementsCount(tabs)
    ensures forall t :: t in ConvertTabs(tabs).value ==> LayoutsAtLeastOne(t.elements)
    decreases |tabs|
  {
    if |tabs| > 0 {
      var prev := tabs[..|tabs| - 1];
      ConvertTabsShape(prev);
      var last := tabs[|tabs| - 1];
      if HasElements(last) {
        ConvertElementsShape(Objects(last["elements"].items), TabName(last, UnnamedCount(prev)));
      }
    }
  }

  lemma {:induction false} UnnamedCountMonotone(tabs: seq<Fields>, i: nat, j: nat)
    requires i <= j <= |tabs|
    ensures UnnamedCount(tabs[..i]) <= UnnamedCount(tabs[..j])
    ensures i < j && StringField(tabs[i], "name").None? ==> UnnamedCount(tabs[..i]) < UnnamedCount(tabs[..j])
    decreases j - i
  {
    if i < j {
      UnnamedCountMonotone(tabs, i, j - 1);
      assert tabs[..j][..j - 1] == tabs[..j - 1];
      if i == j - 1 {
        assert tabs[..j][j - 1] == tabs[i];
      }
    }
  }

  /** `New Tab k` numbering: two unnamed tabs never get the same name. */
  lemma UnnamedTabNamesDistinct(tabs: seq<Fields>, i: nat, j: nat)
    requires i < j < |tabs|
    requires StringField(tabs[i], "name").None? && StringField(tabs[j], "name").None?
    ensures TabName(tabs[i], UnnamedCount(tabs[..i])) != TabName(tabs[j], UnnamedCount(tabs[..j]))
  {
    UnnamedCountMonotone(tabs, i, j);
    var a, b := UnnamedCount(tabs[..i]), UnnamedCount(tabs[..j]);
    DecimalStringInjective(a, b);
    var prefix := "New Tab ";
    assert (prefix + DecimalString(a))[|prefix|..] == DecimalString(a);
    assert (prefix + DecimalString(b))[|prefix|..] == DecimalString(b);
  }

  /** A named tab keeps its name whatever precedes it. */
  lemma NamedTabKeepsName(tab: Fields, k: nat)
    requires StringField(tab, "name").Some?
    ensures TabName(tab, k) == tab["name"].s
  {
  }

  // ---------------------------------------------------------------------
  // The whole function
  // ---------------------------------------------------------------------

  /** `'tabs' in input` (an array has no such key). */
  predicate HasTabs(input: Json)
    requires input.JObject? || input.JArray?
  {
    input.JObject? && "tabs" in input.fields
  }

  /** The result, and the new value of the module `layout` when it is replaced. */
  datatype LoadOutcome = LoadOutcome(result: LoadResult, layout: Option<seq<DashboardTab>>)

  /** `loadLayoutFromJSON(input)`; `input` is an object or an array, on which the `in` test is defined. */
  function Load(input: Json): LoadOutcome
    requires input.JObject? || input.JArray?
  {
    if !HasTabs(input) then LoadOutcome(LoadResult([MissingTabs], []), None)
    else if !input.fields["tabs"].JArray? then LoadOutcome(LoadResult([TabsNotArray], []), None)
    else
      var items := input.fields["tabs"].items;
      var tabs := ConvertTabs(Objects(items));
      LoadOutcome(LoadResult([], Repeat(NonObjectTab, NonObjects(items)) + tabs.warnings), Some(tabs.value))
  }

  /**
   * The initial checks: a missing or non-array `tabs` gives exactly one
   * error, no warning and leaves `layout` alone; past them there is never
   * an error and `layout` is always replaced.
   */
  lemma LoadErrors(input: Json)
    requires input.JObject? || input.JArray?
    ensures !HasTabs(input) ==> Load(input) == LoadOutcome(LoadResult([MissingTabs], []), None)
    ensures HasTabs(input) && !input.fields["tabs"].JArray? ==>
              Load(input) == LoadOutcome(LoadResult([TabsNotArray], []), None)
    ensures Load(input).result.errors == [] <==> HasTabs(input) && input.fields["tabs"].JArray?
    ensures Load(input).layout.Some? <==> Load(input).result.errors == []
  {
  }

  /**
   * Past the initial checks the warnings start with one per non-object
   * tab, the output holds one tab per object tab with an `elements`
   * array, and every layout number in it is at least 1.
   */
  lemma LoadShape(input: Json)
    requires input.JObject? && "tabs" in input.fields && input.fields["tabs"].JArray?
    ensures var items := input.fields["tabs"].items;
            var o := Load(input);
            && o.layout.Some?
            && o.result.warnings[..NonObjects(items)] == Repeat(NonObjectTab, NonObjects(items))
            && |o.layout.value| == WithElementsCount(Objects(items))
            && forall t :: t in o.layout.value ==> LayoutsAtLeastOne(t.elements)
  {
    var items := input.fields["tabs"].items;
    ConvertTabsShape(Objects(items));
  }

  /** The module-level `layout`. */
  class LayoutStore {
    var layout: seq<DashboardTab>

    constructor ()
      ensures layout == []
    {
      layout := [];
    }

    /** `loadLayoutFromJSON` (lines 73-189): replaces `layout` only when there are no errors. */
    method LoadLayoutFromJSON(input: Json) returns (r: LoadResult)
      requires input.JObject? || input.JArray?
      modifies this
      ensures r == Load(input).result
      ensures layout == Load(input).layout.GetOr(old(layout))
    {
      var errors: seq<string> := [];
      var warnings: seq<string> := [];
      if !(input.JObject? && "tabs" in input.fields) {
        errors := errors + [MissingTabs];
        return LoadResult(errors, warnings);
      }
      if !input.fields["tabs"].JArray? {
        errors := errors + [TabsNotArray];
        return LoadResult(errors, warnings);
      }
      var tabs, filterWarnings := FilterObjects(input.fields["tabs"].items, NonObjectTab);
      var config, tabWarnings := BuildTabs(tabs);
      warnings := filterWarnings + tabWarnings;
      if |errors| == 0 {
        layout := config;
      }
      return LoadResult(errors, warnings);
    }
  }
}
