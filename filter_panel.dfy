/** The filter panel of the search page: a name filter, a price tier and the
    checked indicators (name to value), synchronised from the `search` prop,
    counted for the header, cleared, toggled by checkboxes and turned into the
    payload handed to `updateSearch` when applied. */
module FilterPanel {
  import opened Wrappers
  import opened JsStrings
  import opened JsObjects

  datatype Indicator = Indicator(name: string, value: string)

  /** The `search` prop as far as the panel reads it; `None` is a missing property. */
  datatype SearchProp = SearchProp(
    searchTerm: Option<string>,
    price: Option<int>,
    indicators: Option<seq<string>>,
    category: Option<string>)

  datatype SelectedIndicator = SelectedIndicator(name: string, value: string, isSelected: bool)

  /** `{ ...search, name: { name }, category: { alias: search.category }, indicators, price }`:
      the fields of `search` not overridden here are carried by `search`. */
  datatype ApplyPayload = ApplyPayload(
    search: SearchProp,
    name: string,
    categoryAlias: Option<string>,
    indicators: seq<SelectedIndicator>,
    price: int)

  /** The number of active filters: the name when non-empty, the price when non-zero,
      and one per checked indicator. */
  function ActiveCount(name: string, price: int, checked: Entries): (r: int)
    ensures |checked| <= r <= |checked| + 2
    ensures r == |checked| <==> name == "" && price == 0
  {
    (if name != "" then 1 else 0) + (if price != 0 then 1 else 0) + |checked|
  }

  /** The checked indicators that syncing from `search` builds: each of
      `allIndicators`, in order, whose value is among the search's indicator
      values, keyed by its name (a later name overwrites an earlier one in place). */
  function CheckedFrom(allIndicators: seq<Indicator>, values: seq<string>): (r: Entries)
    ensures |r| <= |allIndicators|
  {
    if allIndicators == [] then []
    else
      var checked := CheckedFrom(allIndicators[..|allIndicators| - 1], values);
      var last := allIndicators[|allIndicators| - 1];
      if last.value in values then Put(checked, last.name, last.value) else checked
  }

  /** A name is checked exactly when some indicator with that name has a searched value. */
  lemma {:induction false} CheckedFromKeys(allIndicators: seq<Indicator>, values: seq<string>)
    ensures UniqueKeys(CheckedFrom(allIndicators, values))
    ensures KeySet(CheckedFrom(allIndicators, values))
         == set i | 0 <= i < |allIndicators| && allIndicators[i].value in values :: allIndicators[i].name
  {
    if allIndicators != [] {
      var init := allIndicators[..|allIndicators| - 1];
      var last := allIndicators[|allIndicators| - 1];
      CheckedFromKeys(init, values);
      var checked := CheckedFrom(init, values);
      if last.value in values {
        PutUnique(checked, last.name, last.value);
        PutKeys(checked, last.name, last.value);
      }
      var want := set i | 0 <= i < |allIndicators| && allIndicators[i].value in values :: allIndicators[i].name;
      var before := set i | 0 <= i < |init| && init[i].value in values :: init[i].name;
      assert want == before + (if last.value in values then {last.name} else {}) by {
        forall n | n in want ensures n in before + (if last.value in values then {last.name} else {}) {
          var i :| 0 <= i < |allIndicators| && allIndicators[i].value in values && allIndicators[i].name == n;
          if i < |init| { assert init[i] == allIndicators[i]; }
        }
        forall n | n in before ensures n in want {
          var i :| 0 <= i < |init| && init[i].value in values && init[i].name == n;
          assert allIndicators[i] == init[i];
        }
      }
    }
  }

  /** When indicator names are distinct, a checked name maps to that indicator's own value. */
  lemma {:induction false} CheckedFromValue(allIndicators: seq<Indicator>, values: seq<string>, k: nat)
    requires k < |allIndicators|
    requires forall i, j :: 0 <= i < j < |allIndicators| ==> allIndicators[i].name != allIndicators[j].name
    ensures Lookup(CheckedFrom(allIndicators, values), allIndicators[k].name)
         == if allIndicators[k].value in values then Some(allIndicators[k].value) else None
  {
    var init := allIndicators[..|allIndicators| - 1];
    var last := allIndicators[|allIndicators| - 1];
    var checked := CheckedFrom(init, values);
    if k == |allIndicators| - 1 {
      CheckedFromKeys(init, values);
      assert last.name !in KeySet(checked);
      LookupHas(checked, last.name);
      if last.value in values {
        PutLookup(checked, last.name, last.value, last.name);
      }
    } else {
      CheckedFromValue(init, values, k);
      assert init[k] == allIndicators[k];
      if last.value in values {
        PutLookup(checked, last.name, last.value, allIndicators[k].name);
      }
    }
  }

  /** The `forEach` of the sync effect that fills `checkedIndicators`. */
  method BuildChecked(allIndicators: seq<Indicator>, values: seq<string>) returns (checked: Entries)
    ensures checked == CheckedFrom(allIndicators, values)
  {
    checked := [];
    var i := 0;
    while i < |allIndicators|
      invariant 0 <= i <= |allIndicators|
      invariant checked == CheckedFrom(allIndicators[..i], values)
    {
      var indicator := allIndicators[i];
      assert allIndicators[..i + 1][..i] == allIndicators[..i];
      if indicator.value in values {
        checked := Put(checked, indicator.name, indicator.value);
      }
      i := i + 1;
    }
    assert allIndicators[..i] == allIndicators;
  }

  /** The `forEach` of `applyFilters`: one selected entry per checked indicator, in order. */
  method BuildSelected(checked: Entries) returns (indicators: seq<SelectedIndicator>)
    ensures |indicators| == |checked|
    ensures forall i :: 0 <= i < |checked| ==>
      indicators[i] == SelectedIndicator(checked[i].0, checked[i].1, true)
  {
    indicators := [];
    var i := 0;
    while i < |checked|
      invariant 0 <= i <= |checked|
      invariant |indicators| == i
      invariant forall j :: 0 <= j < i ==> indicators[j] == SelectedIndicator(checked[j].0, checked[j].1, true)
    {
      indicators := indicators + [SelectedIndicator(checked[i].0, checked[i].1, true)];
      i := i + 1;
    }
  }

  /** The header shows ` (n)` only for a positive count. */
  function HeaderSuffix(count: int): (r: string)
    ensures r == "" <==> count <= 0
  {
    if count > 0 then " (" + IntToString(count) + ")" else ""
  }

  /** `"<n> Search Result"`, plural unless the count is exactly 1. */
  function ResultCountLabel(resultCount: int): (r: string)
    ensures |r| > 0 && (r[|r| - 1] == 's' <==> resultCount != 1)
  {
    IntToString(resultCount) + " Search Result" + (if resultCount == 1 then "" else "s")
  }

  /** The label of price radio `level`: that many dollar signs. */
  function PriceLabel(level: nat): (r: string)
    ensures |r| == level && forall i :: 0 <= i < |r| ==> r[i] == '$'
  {
    if level == 0 then "" else "$" + PriceLabel(level - 1)
  }

  /** The name field's label; the desktop panel filters within the current results. */
  function NameFieldLabel(desktop: bool): (r: string)
    ensures |r| >= 14 && r[..14] == "Search by name"
    ensures |r| > 14 <==> desktop
  {
    "Search by name" + (if desktop then " within results" else "")
  }

  const AlwaysShown := 5

  /** Which checkboxes are visible: the first five always, the rest only when expanded. */
  function ShownCheckboxes(count: nat, collapsed: bool): (r: nat)
    ensures r <= count
    ensures r == count <==> count <= AlwaysShown || !collapsed
  {
    if collapsed && count > AlwaysShown then AlwaysShown else count
  }

  /** The toggle reads "See More" while collapsed and "See Less" while expanded. */
  function ToggleText(collapsed: bool): (r: string)
    ensures |r| >= 4 && r[..4] == "See " && (r[4..] == "More" <==> collapsed)
  {
    "See " + (if collapsed then "More" else "Less")
  }

  /** With distinct keys, checking an unchecked indicator adds exactly one to the
      count and unchecking a checked one takes exactly one away. */
  lemma CountStep(name: string, price: int, checked: Entries, key: string, value: string)
    requires UniqueKeys(checked)
    ensures !Has(checked, key) ==> ActiveCount(name, price, Put(checked, key, value)) == ActiveCount(name, price, checked) + 1
    ensures Has(checked, key) ==> ActiveCount(name, price, Remove(checked, key)) == ActiveCount(name, price, checked) - 1
  {
    RemoveSize(checked, key);
  }

  /** The count is the number of distinct checked names plus the name and price filters, so at most two more than the keys. */
  lemma CountIsKeys(name: string, price: int, checked: Entries)
    requires UniqueKeys(checked)
    ensures ActiveCount(name, price, checked) - |KeySet(checked)| == (if name != "" then 1 else 0) + (if price != 0 then 1 else 0)
  {
    UniqueKeysCount(checked);
  }

  class Panel {
    var nameFilterVal: string
    var priceFilterVal: int
    var indicatorVals: Entries
    var filterCount: int
    var collapsed: bool

    ghost predicate Valid()
      reads this
    {
      UniqueKeys(indicatorVals)
    }

    constructor ()
      ensures Valid()
      ensures nameFilterVal == "" && priceFilterVal == 0 && indicatorVals == [] && filterCount == 0
      ensures collapsed
    {
      collapsed := true;
      nameFilterVal := "";
      priceFilterVal := 0;
      indicatorVals := [];
      filterCount := 0;
    }

    /** A checkbox is drawn checked exactly when its name is a key. */
    predicate IsChecked(name: string)
      reads this
    {
      Has(indicatorVals, name)
    }

    /** The effect run when `search` or `allIndicators` change. A zero or missing
        price leaves the price filter as it was. */
    method SyncFromSearch(search: SearchProp, allIndicators: seq<Indicator>)
      modifies this`nameFilterVal, this`priceFilterVal, this`indicatorVals
      ensures Valid()
      ensures nameFilterVal == search.searchTerm.GetOr("")
      ensures priceFilterVal == if search.price.GetOr(0) != 0 then search.price.GetOr(0) else old(priceFilterVal)
      ensures indicatorVals == CheckedFrom(allIndicators, search.indicators.GetOr([]))
    {
      var searchTerm := search.searchTerm.GetOr("");
      var price := search.price.GetOr(0);
      var indicators := search.indicators.GetOr([]);
      nameFilterVal := searchTerm;
      if price != 0 {
        priceFilterVal := price;
      }
      var checkedIndicators := BuildChecked(allIndicators, indicators);
      CheckedFromKeys(allIndicators, indicators);
      indicatorVals := checkedIndicators;
    }

    /** The effect that recounts the active filters with a local counter. */
    method CountFilters()
      modifies this`filterCount
      ensures filterCount == ActiveCount(nameFilterVal, priceFilterVal, indicatorVals)
    {
      var active := 0;
      if nameFilterVal != "" {
        active := active + 1;
      }
      if priceFilterVal != 0 {
        active := active + 1;
      }
      active := active + |indicatorVals|;
      filterCount := active;
    }

    /** `clearFilters`: back to the initial filters whatever they were, so the count becomes 0. */
    method ClearFilters()
      modifies this`nameFilterVal, this`priceFilterVal, this`indicatorVals
      ensures Valid()
      ensures nameFilterVal == "" && priceFilterVal == 0 && indicatorVals == []
      ensures ActiveCount(nameFilterVal, priceFilterVal, indicatorVals) == 0
    {
      nameFilterVal := "";
      priceFilterVal := 0;
      indicatorVals := [];
    }

    /** "See More" / "See Less". */
    method ToggleCollapsed()
      modifies this`collapsed
      ensures collapsed == !old(collapsed)
    {
      collapsed := !collapsed;
    }

    method OnNameChange(text: string)
      modifies this`nameFilterVal
      ensures nameFilterVal == text
    {
      nameFilterVal := text;
    }

    /** The price radios carry the levels 1 to 4. */
    method OnPriceChange(level: int)
      modifies this`priceFilterVal
      ensures priceFilterVal == level
    {
      priceFilterVal := level;
    }

    /** A checkbox click: `nowChecked` is the box's state after the click. Checking
        adds or overwrites `name`; unchecking removes only `name`. */
    method OnCheckboxClick(name: string, value: string, nowChecked: bool)
      requires Valid()
      modifies this`indicatorVals
      ensures Valid()
      ensures indicatorVals == if nowChecked then Put(old(indicatorVals), name, value)
                               else Remove(old(indicatorVals), name)
      ensures IsChecked(name) == nowChecked
      ensures forall other :: other != name ==> Lookup(indicatorVals, other) == Lookup(old(indicatorVals), other)
    {
      if nowChecked {
        PutUnique(indicatorVals, name, value);
        PutKeys(indicatorVals, name, value);
        forall other | other != name
          ensures Lookup(Put(indicatorVals, name, value), other) == Lookup(indicatorVals, other)
        {
          PutLookup(indicatorVals, name, value, other);
        }
        indicatorVals := Put(indicatorVals, name, value);
      } else {
        RemoveUnique(indicatorVals, name);
        RemoveKeys(indicatorVals, name);
        forall other | other != name
          ensures Lookup(Remove(indicatorVals, name), other) == Lookup(indicatorVals, other)
        {
          RemoveLookup(indicatorVals, name, other);
        }
        indicatorVals := Remove(indicatorVals, name);
      }
      HasIsKeySet(indicatorVals, name);
    }

    /** `applyFilters`: the payload for `updateSearch`, and whether `onClose` is called. */
    method ApplyFilters(search: SearchProp, open: bool) returns (payload: ApplyPayload, closes: bool)
      ensures payload.search == search && payload.name == nameFilterVal
      ensures payload.categoryAlias == search.category && payload.price == priceFilterVal
      ensures |payload.indicators| == |indicatorVals|
      ensures forall i :: 0 <= i < |indicatorVals| ==>
        payload.indicators[i] == SelectedIndicator(indicatorVals[i].0, indicatorVals[i].1, true)
      ensures closes == open
    {
      var indicators := BuildSelected(indicatorVals);
      payload := ApplyPayload(search, nameFilterVal, search.category, indicators, priceFilterVal);
      closes := open;
    }
  }

  /** Checking a box and unchecking it again restores the checked indicators and the count. */
  lemma CheckThenUncheck(name: string, price: int, checked: Entries, key: string, value: string)
    requires !Has(checked, key)
    ensures Remove(Put(checked, key, value), key) == checked
  {
    RemovePutAbsent(checked, key, value);
  }
}
