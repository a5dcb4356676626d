/** The search-page hook: reading the search criteria off the URL query, and
    `updateSearch`, which edits the query in place (toggling an indicator, or
    setting or deleting any other parameter) and re-derives the criteria and
    the eight indicator chips from the edited query. */
module Search {
  import opened Wrappers
  import opened JsStrings
  import opened SearchParams
  import Seqs

  /** `parseFloat` is kept abstract: any function from text to a number or `NaN`
      (`None`). JavaScript's gives `NaN` for `"null"`; properties that need
      that say so as a premise. */
  type FloatParser = string -> Option<real>

  datatype Criteria = Criteria(
    searchTerm: Option<string>,
    distance: int,
    rating: real,
    price: int,
    indicators: seq<string>,
    pageNumber: int,
    pageSize: int)

  /** The text a parse function sees for `query.get(name)`: `null` becomes `"null"`. */
  function ParamText(q: Pairs, name: string): string {
    Get(q, name).GetOr("null")
  }

  /** `parseInt(query.get(name), 10) || fallback`: `NaN` and `0` both give the fallback. */
  function IntParamOr(q: Pairs, name: string, fallback: int): (r: int)
    ensures r != 0 || fallback == 0
  {
    match ParseInt(ParamText(q, name))
    case Some(n) => if n != 0 then n else fallback
    case None => fallback
  }

  /** `parseFloat(query.get(name)) || 0`. */
  function FloatParamOr0(q: Pairs, name: string, parseFloat: FloatParser): real {
    match parseFloat(ParamText(q, name))
    case Some(x) => if x != 0.0 then x else 0.0
    case None => 0.0
  }

  /** `getSearchCriteria`, as written: `price` is read from the `distance`
      parameter, and `pageNumber` from `pageSize`. */
  function GetSearchCriteria(q: Pairs, parseFloat: FloatParser): Criteria {
    Criteria(
      Get(q, "searchTerm"),
      IntParamOr(q, "distance", 0),
      FloatParamOr0(q, "rating", parseFloat),
      IntParamOr(q, "distance", 0),
      GetAll(q, "indicators"),
      IntParamOr(q, "pageSize", 1),
      IntParamOr(q, "pageSize", 20))
  }

  /** The reading never fails: absent parameters take their defaults. */
  lemma CriteriaDefaults(q: Pairs, parseFloat: FloatParser)
    ensures var c := GetSearchCriteria(q, parseFloat);
      && (!HasName(q, "searchTerm") ==> c.searchTerm == None)
      && (!HasName(q, "distance") ==> c.distance == 0 && c.price == 0)
      && (!HasName(q, "pageSize") ==> c.pageNumber == 1 && c.pageSize == 20)
      && (!HasName(q, "indicators") ==> c.indicators == [])
      && (!HasName(q, "rating") && parseFloat("null") == None ==> c.rating == 0.0)
  {
    ParseIntNoDigits("null");
    if !HasName(q, "indicators") {
      GetIsFirstOfGetAll(q, "indicators");
    }
  }

  /** Text with no digits where a number is expected falls back to the default. */
  lemma CriteriaNonNumeric(q: Pairs, parseFloat: FloatParser)
    requires forall i :: 0 <= i < |ParamText(q, "pageSize")| ==> !IsDigit(ParamText(q, "pageSize")[i])
    ensures GetSearchCriteria(q, parseFloat).pageNumber == 1
    ensures GetSearchCriteria(q, parseFloat).pageSize == 20
  {
    ParseIntNoDigits(ParamText(q, "pageSize"));
  }

  /** A number written by `String(n)` is read back as that number. */
  lemma CriteriaReadsNumbers(q: Pairs, parseFloat: FloatParser, n: int)
    requires n != 0
    requires Get(q, "distance") == Some(IntToString(n))
    ensures GetSearchCriteria(q, parseFloat).distance == n
  {
    ParseIntToString(n);
  }

  /** As written, the price always equals the distance, and the page number is
      the page size (or 1 when the page size falls back to 20). */
  lemma CriteriaCrossReads(q: Pairs, parseFloat: FloatParser)
    ensures var c := GetSearchCriteria(q, parseFloat);
      && c.price == c.distance
      && (c.pageNumber == c.pageSize || (c.pageNumber == 1 && c.pageSize == 20))
  {
  }

  /** The `|| default` fallback replaces a parsed zero, so neither page field is ever 0. */
  lemma PageFieldsNonZero(q: Pairs, parseFloat: FloatParser)
    ensures GetSearchCriteria(q, parseFloat).pageNumber != 0
    ensures GetSearchCriteria(q, parseFloat).pageSize != 0
  {
  }

  /** `?indicators=1&indicators=2&page=abc`: both indicators in order and the default page number. */
  lemma IndicatorsAndBadPage(parseFloat: FloatParser)
    ensures var c := GetSearchCriteria([("indicators", "1"), ("indicators", "2"), ("page", "abc")], parseFloat);
      c.indicators == ["1", "2"] && c.pageNumber == 1 && c.pageSize == 20
  {
    var q := [("indicators", "1"), ("indicators", "2"), ("page", "abc")];
    assert q[1..] == [("indicators", "2"), ("page", "abc")];
    assert q[1..][1..] == [("page", "abc")];
    assert q[1..][1..][1..] == [];
    assert GetAll(q, "indicators") == ["1", "2"];
    assert Get(q, "pageSize") == None;
    ParseIntNoDigits("null");
  }

  // ---- chips ----

  datatype Chip = Chip(name: string, value: string)

  datatype ChipState = ChipState(name: string, value: string, isSelected: bool)

  /** The fixed indicator chips of the search page. */
  const Chips: seq<Chip> := [
    Chip("Black Friendly", "1"), Chip("Inclusive", "2"), Chip("Black Owned", "3"),
    Chip("Gender Neutral Restrooms", "4"), Chip("Accessible", "5"),
    Chip("Queer hangout space", "6"), Chip("Trans friendly", "7"), Chip("Queer owned", "8")]

  datatype SearchState = SearchState(criteria: Criteria, chips: seq<ChipState>)

  /** The criteria together with every chip, selected when its value is an indicator. */
  function WithChips(c: Criteria): (s: SearchState)
    ensures s.criteria == c && |s.chips| == |Chips|
    ensures forall i :: 0 <= i < |Chips| ==>
      s.chips[i].name == Chips[i].name && s.chips[i].value == Chips[i].value
    ensures forall i :: 0 <= i < |Chips| ==>
      (s.chips[i].isSelected <==> Chips[i].value in c.indicators)
  {
    SearchState(c, seq(|Chips|, i requires 0 <= i < |Chips| =>
      ChipState(Chips[i].name, Chips[i].value, Chips[i].value in c.indicators)))
  }

  // ---- updateSearch ----

  /** The query after `updateSearch(criteria, value)` in a render whose
      `searchCriteria.indicators` was `rendered`. The indicator branch decides
      and re-appends from that render-time list, not from the query as it is
      now: a present indicator is removed by deleting every `indicators` pair
      and re-appending the other rendered values in order (so the indicators
      move to the end of the query); an absent one is appended. Any other key
      is deleted for an empty value and set otherwise. */
  function UpdatedQuery(q: Pairs, rendered: seq<string>, criteria: string, value: string): Pairs {
    if criteria == "indicators" then
      if value in rendered then
        DeleteName(q, "indicators") + AsPairs("indicators", Seqs.RemoveAll(rendered, value))
      else AppendPair(q, "indicators", value)
    else if value == "" then DeleteName(q, criteria)
    else SetValue(q, criteria, value)
  }

  /** Updating `indicators`: a value of the rendered list leaves exactly the
      other rendered values; any other value is appended to the current ones. */
  lemma UpdateIndicators(q: Pairs, rendered: seq<string>, value: string)
    ensures GetAll(UpdatedQuery(q, rendered, "indicators", value), "indicators")
         == if value in rendered then Seqs.RemoveAll(rendered, value)
            else GetAll(q, "indicators") + [value]
  {
    if value in rendered {
      GetAllConcat(DeleteName(q, "indicators"), AsPairs("indicators", Seqs.RemoveAll(rendered, value)), "indicators");
      GetAllDelete(q, "indicators", "indicators");
      GetAllAsPairs("indicators", Seqs.RemoveAll(rendered, value), "indicators");
    } else {
      GetAllAppend(q, "indicators", value, "indicators");
    }
  }

  /** On a freshly rendered query, updating `indicators` toggles the value in the indicator list. */
  lemma UpdateTogglesIndicator(q: Pairs, value: string)
    ensures GetAll(UpdatedQuery(q, GetAll(q, "indicators"), "indicators", value), "indicators")
         == Seqs.Toggle(GetAll(q, "indicators"), value)
  {
    UpdateIndicators(q, GetAll(q, "indicators"), value);
  }

  /** Every parameter other than the one updated keeps its values. */
  lemma UpdateKeepsOtherKeys(q: Pairs, rendered: seq<string>, criteria: string, value: string, other: string)
    requires other != criteria
    ensures GetAll(UpdatedQuery(q, rendered, criteria, value), other) == GetAll(q, other)
  {
    if criteria == "indicators" {
      if value in rendered {
        GetAllConcat(DeleteName(q, "indicators"), AsPairs("indicators", Seqs.RemoveAll(rendered, value)), other);
        GetAllDelete(q, "indicators", other);
        GetAllAsPairs("indicators", Seqs.RemoveAll(rendered, value), other);
      } else {
        GetAllAppend(q, "indicators", value, other);
      }
    } else if value == "" {
      GetAllDelete(q, criteria, other);
    } else {
      GetAllSet(q, criteria, value, other);
    }
  }

  /** Any other key: an empty value removes it, anything else leaves exactly one pair with that value. */
  lemma UpdateSetsOrDeletes(q: Pairs, rendered: seq<string>, criteria: string, value: string)
    requires criteria != "indicators"
    ensures GetAll(UpdatedQuery(q, rendered, criteria, value), criteria) == if value == "" then [] else [value]
  {
    if value == "" {
      GetAllDelete(q, criteria, criteria);
    } else {
      GetAllSet(q, criteria, value, criteria);
    }
  }

  /** With a re-render between the two calls, toggling an absent indicator
      twice gives back the original indicator list. */
  lemma ToggleIndicatorTwice(q: Pairs, value: string)
    requires value !in GetAll(q, "indicators")
    ensures var q1 := UpdatedQuery(q, GetAll(q, "indicators"), "indicators", value);
      GetAll(UpdatedQuery(q1, GetAll(q1, "indicators"), "indicators", value), "indicators")
        == GetAll(q, "indicators")
  {
    var q1 := UpdatedQuery(q, GetAll(q, "indicators"), "indicators", value);
    UpdateTogglesIndicator(q, value);
    UpdateTogglesIndicator(q1, value);
    Seqs.ToggleTwiceAbsent(GetAll(q, "indicators"), value);
  }

  /** With a re-render between the two calls, starting from `indicators=3`,
      the first toggle of `3` empties the list and the second brings `3` back. */
  lemma ToggleSelectedTwice(q: Pairs)
    requires GetAll(q, "indicators") == ["3"]
    ensures GetAll(UpdatedQuery(q, ["3"], "indicators", "3"), "indicators") == []
    ensures var q1 := UpdatedQuery(q, ["3"], "indicators", "3");
      GetAll(UpdatedQuery(q1, GetAll(q1, "indicators"), "indicators", "3"), "indicators") == ["3"]
  {
    var q1 := UpdatedQuery(q, ["3"], "indicators", "3");
    UpdateTogglesIndicator(q, "3");
    UpdateTogglesIndicator(q1, "3");
  }

  /** Two calls from the same render both test the render-time list: an absent
      value is appended twice, and a present one is removed both times. */
  lemma ToggleTwiceOneRender(q: Pairs, value: string)
    ensures var rendered := GetAll(q, "indicators");
      var twice := UpdatedQuery(UpdatedQuery(q, rendered, "indicators", value), rendered, "indicators", value);
      GetAll(twice, "indicators")
        == if value in rendered then Seqs.RemoveAll(rendered, value) else rendered + [value, value]
  {
    var rendered := GetAll(q, "indicators");
    var q1 := UpdatedQuery(q, rendered, "indicators", value);
    UpdateIndicators(q, rendered, value);
    UpdateIndicators(q1, rendered, value);
  }

  /** On a freshly rendered query, toggling the value of a chip flips that
      chip and leaves the others as they were. */
  lemma UpdateFlipsChip(q: Pairs, parseFloat: FloatParser, value: string, i: nat)
    requires i < |Chips|
    ensures var before := WithChips(GetSearchCriteria(q, parseFloat)).chips[i];
      var updated := UpdatedQuery(q, GetAll(q, "indicators"), "indicators", value);
      var after := WithChips(GetSearchCriteria(updated, parseFloat)).chips[i];
      after.isSelected == if Chips[i].value == value then !before.isSelected else before.isSelected
  {
    UpdateTogglesIndicator(q, value);
    Seqs.ToggleMembership(GetAll(q, "indicators"), value, Chips[i].value);
  }

  /** One step of the re-append loop: the next rendered indicator is appended unless it is `value`. */
  lemma ReappendStep(base: Pairs, rendered: seq<string>, i: nat, value: string)
    requires i < |rendered|
    ensures var before := base + AsPairs("indicators", Seqs.RemoveAll(rendered[..i], value));
      base + AsPairs("indicators", Seqs.RemoveAll(rendered[..i + 1], value))
        == if rendered[i] != value then AppendPair(before, "indicators", rendered[i]) else before
  {
    var kept := Seqs.RemoveAll(rendered[..i], value);
    Seqs.RemoveAllSnoc(rendered, i, value);
    if rendered[i] != value {
      AsPairsSnoc("indicators", kept, rendered[i]);
      assert base + (AsPairs("indicators", kept) + [("indicators", rendered[i])])
          == (base + AsPairs("indicators", kept)) + [("indicators", rendered[i])];
    } else {
      assert kept + [] == kept;
    }
  }

  /** The removal branch of `updateSearch`: delete every `indicators` pair,
      then append each rendered indicator other than `value`, in order. */
  method RemoveIndicator(query: Query, rendered: seq<string>, value: string)
    modifies query
    ensures query.pairs == DeleteName(old(query.pairs), "indicators")
                           + AsPairs("indicators", Seqs.RemoveAll(rendered, value))
  {
    query.Delete("indicators");
    ghost var base := query.pairs;
    var i := 0;
    assert rendered[..0] == [] && base + AsPairs("indicators", []) == base;
    while i < |rendered|
      invariant 0 <= i <= |rendered|
      invariant query.pairs == base + AsPairs("indicators", Seqs.RemoveAll(rendered[..i], value))
    {
      ReappendStep(base, rendered, i, value);
      if rendered[i] != value {
        query.Append("indicators", rendered[i]);
      }
      i := i + 1;
    }
    assert rendered[..i] == rendered;
  }

  /** The hook's state: the query object of the current URL, the criteria read
      off it when the component last rendered (`searchCriteria`), and the
      search state that `updateSearch` sets. */
  class SearchHook {
    const query: Query
    const parseFloat: FloatParser
    var searchCriteria: Criteria
    var search: SearchState

    /** The search state describes the query as it is now. */
    ghost predicate Valid()
      reads this, query
    {
      search == WithChips(GetSearchCriteria(query.pairs, parseFloat))
    }

    /** No update has happened since the last render. */
    ghost predicate Fresh()
      reads this, query
    {
      searchCriteria == GetSearchCriteria(query.pairs, parseFloat)
    }

    /** The first render: both the criteria and the initial search state come from the query. */
    constructor (query: Query, parseFloat: FloatParser)
      ensures this.query == query && this.parseFloat == parseFloat
      ensures Valid() && Fresh()
    {
      this.query := query;
      this.parseFloat := parseFloat;
      searchCriteria := GetSearchCriteria(query.pairs, parseFloat);
      search := WithChips(GetSearchCriteria(query.pairs, parseFloat));
    }

    /** A later render (after the history push): `searchCriteria` is read again;
        the `useState` value `search` is kept. */
    method Rerender()
      modifies this
      ensures searchCriteria == GetSearchCriteria(query.pairs, parseFloat)
      ensures search == old(search)
    {
      searchCriteria := GetSearchCriteria(query.pairs, parseFloat);
    }

    /** `updateSearch(criteria, value)`: the indicator branch tests and
        re-appends the render-time `searchCriteria.indicators`; the history
        push that follows is left to the router. */
    method UpdateSearch(criteria: string, value: string)
      modifies this, query
      ensures query.pairs == UpdatedQuery(old(query.pairs), old(searchCriteria).indicators, criteria, value)
      ensures searchCriteria == old(searchCriteria)
      ensures Valid()
    {
      if criteria == "indicators" {
        if value in searchCriteria.indicators {
          RemoveIndicator(query, searchCriteria.indicators, value);
        } else {
          query.Append(criteria, value);
        }
      } else if value == "" {
        query.Delete(criteria);
      } else {
        query.Set(criteria, value);
      }
      search := WithChips(GetSearchCriteria(query.pairs, parseFloat));
    }
  }
}
