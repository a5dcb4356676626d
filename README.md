# OurGuide search and submission logic in Dafny

OurGuide is a React single-page application for finding and reviewing spaces
(businesses) that are welcoming to Black and LGBTQ+ communities. This project
models the decision logic inside its components and proves properties of it:

- **Pagination** (`Pagination`): total pages, the back and next links, the
  six-slot page menu with its `'...'` marker, the links that re-set `page` and
  `perPage` on the shared URL query, and the "Showing A - B of N Results"
  label.
- **Search query state** (`Search`, over `SearchParams`): reading the search
  criteria off the URL query, and `updateSearch`, which edits the query in
  place and re-derives the criteria and the eight indicator chips. The query
  is a `URLSearchParams` object (section 6.2 of the WHATWG URL Standard),
  modelled as its ordered list of name-value pairs with `get`, `getAll`,
  `set`, `delete` and `append`.
- **Filter panel** (`FilterPanel`, over `JsObjects`): the name, price and
  indicator filters, synced from the search, counted, cleared, toggled by
  checkboxes and turned into the payload that applying the filters sends.
- **Search-result formatting** (`SearchResults`): the mapping from a space
  record to a search-result record.
- **Business card** (`BusinessCard`): the phone-number formatter, the maps
  link with its percent-encoded address, the image fallback and the links.
- **Create-profile form** (`CreateProfile`): the prioritised field
  validation, the paired identity-label toggle and the submit guard.
- **Add-space wizard** (`AddSpace`): the step machine and the view each step
  shows.
- **Address step** (`AddressStep`): the single-selection toggle over
  candidate businesses.

Shared pieces are `Wrappers` (`Option`), `JsStrings` (digits,
`parseInt`, number-to-text, `trim`), `Seqs` (the remove-all/append toggle
used by both the indicator list and the identity labels) and `JsObjects` (a
plain object with string keys in insertion order).

Code that updates state in place is modelled as classes whose methods state
the new state: `SearchParams.Query`, `Search.SearchHook`, `FilterPanel.Panel`,
`CreateProfile.ProfilePage`, `AddSpace.Wizard` and
`AddressStep.AddressPicker`. Each method's new state is stated through a pure
function, and the properties are proved about that function. The loops of the
source are methods with invariants: the page menu that re-sets the query once
per entry, the re-append loop of `updateSearch`, the dictionary the filter
sync builds and the payload array that applying the filters builds.

The model follows the code as written where it departs from what its names
suggest:

- `price` is parsed from the `distance` parameter and `pageNumber` from
  `pageSize` (`Search.CriteriaCrossReads`).
- The range label is guarded by the page count, not by the item count. It is
  shown exactly when there are results, so the two agree
  (`Pagination.RangeShownIff`).
- `updateSearch` decides whether an indicator is present, and re-appends
  the remaining ones, from `searchCriteria.indicators`. That list is read
  once per render, not from the query as it stands after an edit. After a
  re-render, toggling a present indicator removes every copy of it, and a
  second toggle brings the value back at the end of the list. Toggling twice
  therefore restores the list as a set but not always its order
  (`Search.ToggleSelectedTwice`, `Seqs.ToggleTwicePresent`). Two calls from
  the same render both test the same stale list. An absent value is then
  appended twice, and a present one is removed twice, leaving it absent
  (`Search.ToggleTwiceOneRender`).
- The phone formatter cleans the text `'' + <number>`, a template literal
  that keeps the literal prefix. The prefix holds no digit, so it never
  changes the result (`BusinessCard.CleanPrefixAddsNothing`).
- The length message keeps its spelling "charcaters".
- The component's test calls the maps-link helper with a bare string, while
  the component passes an object whose `address` property is read. The model
  follows the component and encodes the address text.

## Model

| member | source | states |
|---|---|---|
| `Pagination.CeilDiv` | src/components/Pagination/Pagination.jsx:275 | the quotient rounded up: the least `q` with `a <= q*b` |
| `Pagination.TotalPages` | src/components/Pagination/Pagination.jsx:275 | for a positive page size, the page count is the least number of pages holding every item |
| `Pagination.Window` | src/components/Pagination/Pagination.jsx:247-255 | the menu items before links: one to six entries; `WindowShape`, `WindowWellFormed`, `WindowNoSilentGap` and `WindowCoversNeighbours` state the rest |
| `Pagination.BackTarget` | src/components/Pagination/Pagination.jsx:288-294 | a back target, when there is one, is the previous page and at least 1; `NavigationShownIff` states when it exists |
| `Pagination.NextTarget` | src/components/Pagination/Pagination.jsx:295-301 | a next target, when there is one, is the next page and at most the page count; `NavigationShownIff` states when it exists |
| `Pagination.WindowShape` | src/components/Pagination/Pagination.jsx:247-255 | the six guarded slots, once nulls are dropped, equal a reference menu defined by the distance from the current page to the last page |
| `Pagination.WindowWellFormed` | src/components/Pagination/Pagination.jsx:247-255 | for a page in range: 1 to 6 entries; numbers strictly ascending and within 1..totalPages; the last entry is the last page; at most one `'...'`, which is second to last and comes after page+2 |
| `Pagination.WindowNoSilentGap` | src/components/Pagination/Pagination.jsx:247-255 | two adjacent numeric entries are consecutive pages, so every skipped page is marked by `'...'` |
| `Pagination.WindowCoversNeighbours` | src/components/Pagination/Pagination.jsx:247-255 | the previous page, the current page, the next two pages and the last page are always listed |
| `Pagination.WindowCurrentOnce` | src/components/Pagination/Pagination.jsx:249-253 | for every input the current page is listed exactly once; the last page never duplicates it |
| `Pagination.NavigationShownIff` | src/components/Pagination/Pagination.jsx:288-301 | a back or a next link exists exactly when there is more than one page, so a single page renders no navigation |
| `Pagination.RangeEnd` | src/components/Pagination/Pagination.jsx:305 | the ending index is the smaller of page times page size and the item count |
| `Pagination.RangeStart` | src/components/Pagination/Pagination.jsx:304 | the first index shown on a page; `RangeBounds` and `RangesTile` state its bounds |
| `Pagination.RangeLabel` | src/components/Pagination/Pagination.jsx:303-308 | the "Showing A - B of N Results" text; `FirstPageOfFive` and `LastPageOfFive` give instances |
| `Pagination.RangeBounds` | src/components/Pagination/Pagination.jsx:303-308 | for a page in range, 1 <= start <= end <= totalCount, at most perPage results are shown, and every page but the last is full |
| `Pagination.RangesTile` | src/components/Pagination/Pagination.jsx:303-308 | each page's range starts right after the previous page's range ends |
| `Pagination.RangeShownIff` | src/components/Pagination/Pagination.jsx:168-175 | the page count that the range label is guarded by is positive exactly when the item count is |
| `Pagination.ItemText` | src/components/Pagination/Pagination.jsx:256-260 | the text written into `page` for a menu entry is never empty: the decimal digits of a page number, or `'...'` for the marker |
| `Pagination.PageQueryValues` | src/components/Pagination/Pagination.jsx:258-259 | a page link's query has `page` set to the entry, `perPage` set to the page size, and every other parameter as before |
| `Pagination.PageQueryAgain` | src/components/Pagination/Pagination.jsx:256-261 | re-setting `page` and `perPage` on a query already re-set gives the same query as setting them once, so the mutation leaks nothing from one entry to the next |
| `Pagination.PageQuery` | src/components/Pagination/Pagination.jsx:258-259 | the two `set` calls one link makes; `PageQueryValues` and `PageQueryAgain` state its effect |
| `Pagination.Menu` | src/components/Pagination/Pagination.jsx:256-262 | one link per menu entry |
| `Pagination.MenuCurrentOnce` | src/components/Pagination/Pagination.jsx:212 | exactly one menu entry is marked as the current page |
| `Pagination.CalculatePaginationMenu` | src/components/Pagination/Pagination.jsx:246-263 | the loop that sets `page`/`perPage` on the shared query per entry builds the menu of the original query, and leaves the query set to the last entry |
| `Pagination.MenuAfterRepaging` | src/components/Pagination/Pagination.jsx:291-299 | the menu built after the back/next links re-set the query equals the menu of the original query |
| `Pagination.Render` | src/components/Pagination/Pagination.jsx:275-345 | the rendered view is the specified view of the original query (label, back link, menu, next link), and the query is left set to the last page written |
| `Pagination.View` | src/components/Pagination/Pagination.jsx:275-345 | what the component renders, stated against the query on entry; `Render` is proved to produce it |
| `Pagination.FirstPageOfFive` | src/components/Pagination/Pagination.jsx:247-255 | 95 items at 20 per page: 5 pages; page 1 lists 1, 2, 3, '...', 5, has no back link, and reads "Showing 1 - 20 of 95 Results" |
| `Pagination.LastPageOfFive` | src/components/Pagination/Pagination.jsx:247-255 | page 5 of 5 lists 4, 5, has no next link, and reads "Showing 81 - 95 of 95 Results" |
| `Pagination.NoResults` | src/components/Pagination/Pagination.jsx:168-175 | with no items neither the label nor any navigation is rendered |
| `SearchParams.Get` | src/routes/Search/hooks/useSearch.js:10-16 | `get` finds a value exactly when some pair has the name |
| `SearchParams.GetAll` | src/routes/Search/hooks/useSearch.js:14 | `getAll` lists no more values than there are pairs; `GetAllDelete`, `GetAllAppend`, `GetAllSet` and `GetAllAsPairs` relate it to the edits |
| `SearchParams.DeleteName` | src/routes/Search/hooks/useSearch.js:99 | `delete` never lengthens the list; `DeleteNameRemovesName` and `GetAllDelete` state what it removes |
| `SearchParams.AppendPair` | src/routes/Search/hooks/useSearch.js:96 | `append` adds exactly one pair |
| `SearchParams.SetValue` | src/routes/Search/hooks/useSearch.js:101 | `set` adds at most one pair; `GetAllSet` and `SetValueTwice` state its effect |
| `SearchParams.GetIsFirstOfGetAll` | src/routes/Search/hooks/useSearch.js:10-16 | `get` is the first of the values `getAll` lists |
| `SearchParams.GetAllDelete` | src/routes/Search/hooks/useSearch.js:89-99 | after `delete(name)` the name has no values and other names keep theirs |
| `SearchParams.GetAllAppend` | src/routes/Search/hooks/useSearch.js:92-96 | `append` adds the value at the end of that name's values only |
| `SearchParams.GetAllSet` | src/routes/Search/hooks/useSearch.js:101 | after `set(name, v)` the name has exactly the value v and other names keep theirs |
| `SearchParams.AsPairsSnoc` | src/routes/Search/hooks/useSearch.js:90-94 | appending one more pair to the re-appended pairs is re-appending one more value |
| `SearchParams.DeleteNameRemovesName` | src/routes/Search/hooks/useSearch.js:89-99 | after `delete` the name is absent |
| `SearchParams.DeleteNameNoName` | src/routes/Search/hooks/useSearch.js:99 | deleting an absent name changes nothing |
| `SearchParams.GetAllAsPairs` | src/routes/Search/hooks/useSearch.js:90-94 | appending a list of values under one name lists them back in order |
| `SearchParams.DeleteNameTwice` | src/routes/Search/hooks/useSearch.js:99 | `delete` is idempotent |
| `SearchParams.DeleteNameCommute` | src/routes/Search/hooks/useSearch.js:89-99 | deletions of two names commute |
| `SearchParams.DeleteNameSetCommute` | src/routes/Search/hooks/useSearch.js:99-101 | deleting one name commutes with setting another |
| `SearchParams.SetValueTwice` | src/components/Pagination/Pagination.jsx:258 | setting a name twice equals setting it to the second value |
| `SearchParams.SetValueCommute` | src/components/Pagination/Pagination.jsx:258-259 | setting two different names that are both present commutes |
| `SearchParams.SetValueDeleteOther` | src/routes/Search/hooks/useSearch.js:99-101 | deleting another name after a `set` equals the `set` after that deletion, when the set name was present |
| `SearchParams.SetValueHasName` | src/routes/Search/hooks/useSearch.js:101 | after `set` the name is present |
| `SearchParams.Query.Set` | src/routes/Search/hooks/useSearch.js:101 | the query's pairs become `set` applied to the old pairs |
| `SearchParams.Query.Delete` | src/routes/Search/hooks/useSearch.js:89-99 | the query's pairs become `delete` applied to the old pairs |
| `SearchParams.Query.Append` | src/routes/Search/hooks/useSearch.js:92-96 | the query's pairs become the old pairs plus the new pair at the end |
| `JsStrings.NatToString` | src/routes/Search/hooks/useSearch.js:11 | the decimal text of a number is non-empty, all digits and has no leading zero |
| `JsStrings.IntToString` | src/utils/formatSearchResults.js:19 | the decimal text is non-empty, all digits for a non-negative number and a minus sign before the digits otherwise; `ParseIntToString` reads it back |
| `JsStrings.ParseIntToString` | src/routes/Search/hooks/useSearch.js:11-16 | `parseInt` reads back every integer from its decimal text |
| `JsStrings.ParseIntNoDigits` | src/routes/Search/hooks/useSearch.js:11-16 | text with no digit at all parses to `NaN` |
| `Seqs.RemoveAll` | src/components/CreateProfile/CreateProfile.jsx:114-115 | the value is gone, nothing is added, and every other element is kept |
| `Seqs.Toggle` | src/components/CreateProfile/CreateProfile.jsx:107-122 | the value is present afterwards exactly when it was absent before, and the list grows by at most one |
| `JsStrings.TrimEmptyIff` | src/components/CreateProfile/CreateProfile.jsx:134 | `trim()` is empty exactly when every character is white space |
| `JsStrings.Trim` | src/components/CreateProfile/CreateProfile.jsx:134 | `trim()` never lengthens the text and leaves no white space at either end |
| `JsStrings.IsWhiteSpace` | src/components/CreateProfile/CreateProfile.jsx:134 | the ECMAScript white-space and line-terminator characters that `trim()` removes; `TrimEmptyIff` uses it |
| `Search.IntParamOr` | src/routes/Search/hooks/useSearch.js:11-16 | a `parseInt(...) \|\| fallback` is never 0 unless the fallback is |
| `Search.ParamText` | src/routes/Search/hooks/useSearch.js:10-16 | the text a parse function sees, `"null"` for a missing parameter; `CriteriaDefaults` uses it |
| `Search.GetSearchCriteria` | src/routes/Search/hooks/useSearch.js:9-17 | never zero page fields, with the cross-reads as written; stated by `CriteriaDefaults`, `CriteriaCrossReads` and `PageFieldsNonZero` |
| `Search.CriteriaDefaults` | src/routes/Search/hooks/useSearch.js:9-17 | reading never fails: a missing parameter gives no search term, distance and price 0, no indicators, page number 1 and page size 20; a missing rating gives 0 whenever `parseFloat("null")` is `NaN`, as in JavaScript |
| `Search.CriteriaNonNumeric` | src/routes/Search/hooks/useSearch.js:15-16 | a `pageSize` without digits gives page number 1 and page size 20 |
| `Search.CriteriaReadsNumbers` | src/routes/Search/hooks/useSearch.js:11 | a non-zero integer written in `distance` is read back as the distance |
| `Search.CriteriaCrossReads` | src/routes/Search/hooks/useSearch.js:11-16 | price always equals distance, and page number equals page size except when the page size falls back to 20, where the page number is 1 |
| `Search.PageFieldsNonZero` | src/routes/Search/hooks/useSearch.js:15-16 | page number and page size are never 0 |
| `Search.IndicatorsAndBadPage` | src/routes/Search/hooks/useSearch.js:14-16 | `indicators=1&indicators=2&page=abc` gives indicators ["1","2"], page number 1 and page size 20 |
| `Search.WithChips` | src/routes/Search/hooks/useSearch.js:21-58 | the search carries the criteria and the eight chips in order, each with its own name and value, and a chip is selected exactly when its value is one of the criteria's indicators |
| `Search.UpdatedQuery` | src/routes/Search/hooks/useSearch.js:86-102 | the query after `updateSearch`; `UpdateIndicators`, `UpdateKeepsOtherKeys` and `UpdateSetsOrDeletes` state its effect |
| `Search.UpdateIndicators` | src/routes/Search/hooks/useSearch.js:87-97 | updating `indicators` with a value of the render-time list leaves exactly the other render-time values in order; with any other value it appends the value to the query's current indicators |
| `Search.UpdateTogglesIndicator` | src/routes/Search/hooks/useSearch.js:87-97 | on a freshly rendered query, updating `indicators` with a present value removes every copy and keeps the others in order; with an absent value it appends it |
| `Search.UpdateKeepsOtherKeys` | src/routes/Search/hooks/useSearch.js:86-102 | an update leaves every other parameter's values as they were, whatever the render-time list |
| `Search.UpdateSetsOrDeletes` | src/routes/Search/hooks/useSearch.js:98-102 | for any other key, an empty value deletes it and a non-empty value leaves exactly that one value |
| `Search.ToggleIndicatorTwice` | src/routes/Search/hooks/useSearch.js:87-97 | with a re-render between the two calls, toggling an absent indicator twice gives back the original indicator list |
| `Search.ToggleSelectedTwice` | src/routes/Search/hooks/useSearch.js:87-97 | with a re-render between the two calls, from `indicators=3` the first toggle of 3 empties the list and the second brings 3 back |
| `Search.ToggleTwiceOneRender` | src/routes/Search/hooks/useSearch.js:86-97 | two calls from the same render both test the render-time list: an absent value ends up appended twice, and a present value stays removed |
| `Search.UpdateFlipsChip` | src/routes/Search/hooks/useSearch.js:104-111 | on a freshly rendered query, after toggling a value the chip with that value flips its selection and every other chip keeps its own |
| `Search.ReappendStep` | src/routes/Search/hooks/useSearch.js:90-94 | one step of the re-append loop appends the next render-time indicator unless it is the removed value |
| `Search.RemoveIndicator` | src/routes/Search/hooks/useSearch.js:89-94 | deleting every `indicators` pair and then appending each render-time indicator other than the value leaves the query without the old indicator pairs, followed by the kept values in order |
| `Search.SearchHook.constructor` | src/routes/Search/hooks/useSearch.js:47-58 | the first render reads the criteria off the query, and the initial search state describes the same query |
| `Search.SearchHook.Rerender` | src/routes/Search/hooks/useSearch.js:51 | a later render reads the criteria again and keeps the `useState` search state |
| `Search.SearchHook.UpdateSearch` | src/routes/Search/hooks/useSearch.js:86-112 | the in-place edits, tested and re-appended from the render-time `searchCriteria.indicators`, leave the query equal to the specified update; the render-time criteria are unchanged, and the search is re-derived from the edited query |
| `JsObjects.Lookup` | src/components/FilterPanel/FilterPanel.jsx:262 | a key found has an entry |
| `JsObjects.Put` | src/components/FilterPanel/FilterPanel.jsx:265 | spreading in a key adds one entry exactly when the key was absent |
| `JsObjects.PutKeys` | src/components/FilterPanel/FilterPanel.jsx:265 | spreading in a key adds just that key |
| `JsObjects.PutLookup` | src/components/FilterPanel/FilterPanel.jsx:265 | the key then maps to the new value and every other key keeps its value |
| `JsObjects.PutUnique` | src/components/FilterPanel/FilterPanel.jsx:265 | keys stay distinct |
| `JsObjects.RemoveKeys` | src/components/FilterPanel/FilterPanel.jsx:267-275 | filtering the entries removes just that key |
| `JsObjects.RemoveLookup` | src/components/FilterPanel/FilterPanel.jsx:267-275 | the key then has no value and every other key keeps its value |
| `JsObjects.RemoveSize` | src/components/FilterPanel/FilterPanel.jsx:267-275 | removing a present key drops exactly one entry |
| `JsObjects.Remove` | src/components/FilterPanel/FilterPanel.jsx:267-275 | filtering the entries never lengthens the object; `RemoveKeys`, `RemoveLookup` and `RemoveSize` state what it removes |
| `JsObjects.RemovePutAbsent` | src/components/FilterPanel/FilterPanel.jsx:263-276 | adding an absent key and removing it restores the object |
| `FilterPanel.CheckedFromKeys` | src/components/FilterPanel/FilterPanel.jsx:139-145 | the synced checked names are exactly the names of the indicators whose value is searched, without repeats |
| `FilterPanel.CheckedFromValue` | src/components/FilterPanel/FilterPanel.jsx:139-145 | with distinct indicator names, each checked name maps to its indicator's own value, and unsearched ones are absent |
| `FilterPanel.CheckedFrom` | src/components/FilterPanel/FilterPanel.jsx:139-145 | no more checked entries than indicators; `CheckedFromKeys` and `CheckedFromValue` state which |
| `FilterPanel.ActiveCount` | src/components/FilterPanel/FilterPanel.jsx:148-158 | the count is the number of checked names plus at most two, and exceeds it exactly when the name or the price filter is set |
| `FilterPanel.BuildChecked` | src/components/FilterPanel/FilterPanel.jsx:139-144 | the `forEach` loop builds exactly the specified checked indicators |
| `FilterPanel.BuildSelected` | src/components/FilterPanel/FilterPanel.jsx:167-174 | the push loop yields one selected entry per checked indicator, with its name and value, in object order |
| `FilterPanel.HeaderSuffix` | src/components/FilterPanel/FilterPanel.jsx:191 | the header shows a count exactly when it is positive |
| `FilterPanel.ResultCountLabel` | src/components/FilterPanel/FilterPanel.jsx:361 | the label is plural exactly when the count is not 1 |
| `FilterPanel.PriceLabel` | src/components/FilterPanel/FilterPanel.jsx:242-249 | price level i is labelled with exactly i dollar signs |
| `FilterPanel.NameFieldLabel` | src/components/FilterPanel/FilterPanel.jsx:208 | the label begins "Search by name" and adds the within-results text exactly on desktop |
| `FilterPanel.ShownCheckboxes` | src/components/FilterPanel/FilterPanel.jsx:294-299 | every checkbox is visible exactly when there are at most five or the list is expanded |
| `FilterPanel.ToggleText` | src/components/FilterPanel/FilterPanel.jsx:304 | the toggle reads "See More" exactly while collapsed |
| `FilterPanel.CountStep` | src/components/FilterPanel/FilterPanel.jsx:148-158 | checking an unchecked box raises the count by one; unchecking a checked one lowers it by one |
| `FilterPanel.CountIsKeys` | src/components/FilterPanel/FilterPanel.jsx:148-158 | the count is the number of checked names plus one each for a non-empty name and a non-zero price |
| `FilterPanel.CheckThenUncheck` | src/components/FilterPanel/FilterPanel.jsx:263-276 | checking a box and unchecking it restores the checked indicators |
| `FilterPanel.Panel.constructor` | src/components/FilterPanel/FilterPanel.jsx:127-131 | empty name, price 0, nothing checked, count 0, indicators collapsed |
| `FilterPanel.Panel.SyncFromSearch` | src/components/FilterPanel/FilterPanel.jsx:133-146 | the name becomes the search term or ''; a zero or missing price keeps the old price; the checked indicators become the specified ones |
| `FilterPanel.Panel.CountFilters` | src/components/FilterPanel/FilterPanel.jsx:148-158 | the count is the specified active count |
| `FilterPanel.Panel.ClearFilters` | src/components/FilterPanel/FilterPanel.jsx:160-164 | whatever the state, the filters are reset and their count is 0 |
| `FilterPanel.Panel.OnCheckboxClick` | src/components/FilterPanel/FilterPanel.jsx:262-277 | checking adds or overwrites the name, unchecking removes only it; the box is then checked exactly as clicked; every other name keeps its value; keys stay distinct |
| `FilterPanel.Panel.ApplyFilters` | src/components/FilterPanel/FilterPanel.jsx:166-185 | the payload keeps the search, sets name, category alias and price, and lists every checked indicator as selected in order; it closes exactly when open |
| `FilterPanel.Panel.ToggleCollapsed` | src/components/FilterPanel/FilterPanel.jsx:301 | the collapse state flips |
| `FilterPanel.Panel.OnNameChange` | src/components/FilterPanel/FilterPanel.jsx:223 | the name filter becomes the typed text |
| `FilterPanel.Panel.OnPriceChange` | src/components/FilterPanel/FilterPanel.jsx:240 | the price filter becomes the chosen level |
| `SearchResults.OrEmpty` | src/utils/formatSearchResults.js:17-24 | a missing or empty text becomes '' and any other is kept |
| `SearchResults.SplitOnSpaces` | src/utils/formatSearchResults.js:17 | splitting yields at least one piece and no piece holds a space |
| `SearchResults.SplitJoin` | src/utils/formatSearchResults.js:17 | splitting on spaces undoes joining parts that hold no space |
| `SearchResults.StitchAddressParts` | src/utils/formatSearchResults.js:17 | the address is its five parts joined by single spaces: they split back out when none holds a space, and an address with no parts is four spaces |
| `SearchResults.StitchAddress` | src/utils/formatSearchResults.js:17 | the five defaulted parts joined by single spaces; `StitchAddressParts` states that they split back out |
| `SearchResults.FirstCategoryTitle` | src/utils/formatSearchResults.js:21 | the category is non-empty exactly when there is a first alias with a non-empty title, and is then that title |
| `SearchResults.FirstPhotoUrl` | src/utils/formatSearchResults.js:26 | the image url, when present, is the first photo's url, and is absent without photos |
| `SearchResults.IdText` | src/utils/formatSearchResults.js:19 | the id text parses back to the id |
| `SearchResults.FormatSearchResult` | src/utils/formatSearchResults.js:6-29 | id parses back to the space id; name and phone default to ''; the address is the stitched address, and splits back into its five parts when none holds a space; the category is the first alias's title, non-empty exactly when that title is set; rating is kept exactly when present and non-zero; filters keep each indicator's name, in order; the image is the first photo's url, and absent without photos; url falls back to the Yelp url |
| `SearchResults.BareSpace` | src/utils/formatSearchResults.js:6-29 | a space with only an id and an empty address gives empty texts, no filters, no rating, image or url, and an address of four spaces |
| `BusinessCard.Digits` | src/components/BusinessCard/BusinessCard.jsx:189 | the cleaned text is all digits and no longer than the input |
| `BusinessCard.DigitsConcat` | src/components/BusinessCard/BusinessCard.jsx:189 | cleaning distributes over concatenation |
| `BusinessCard.CleanPrefixAddsNothing` | src/components/BusinessCard/BusinessCard.jsx:189 | the `'' + ` prefix adds no digit |
| `BusinessCard.PhoneText` | src/components/BusinessCard/BusinessCard.jsx:189 | the number as a template literal writes it, `undefined` when missing; `NoNumber` states the missing case |
| `BusinessCard.FormatCleaned` | src/components/BusinessCard/BusinessCard.jsx:190-195 | a number is produced exactly for ten digits, or eleven with a leading 1 |
| `BusinessCard.GroupTen` | src/components/BusinessCard/BusinessCard.jsx:193 | the grouped number is fourteen characters long; `GroupTenDigits` states that it holds exactly its ten digits |
| `BusinessCard.FormatTenDigitPhoneNumber` | src/components/BusinessCard/BusinessCard.jsx:188-196 | the formatter matches on the digits of the number alone |
| `BusinessCard.GroupTenDigits` | src/components/BusinessCard/BusinessCard.jsx:192 | "(ddd) ddd-dddd" holds exactly its ten digits |
| `BusinessCard.GroupElevenDigits` | src/components/BusinessCard/BusinessCard.jsx:191-192 | "+1 (ddd) ddd-dddd" holds exactly its eleven digits, the first being the 1 of "+1" |
| `BusinessCard.FormattedKeepsDigits` | src/components/BusinessCard/BusinessCard.jsx:188-196 | a formatted number holds exactly the input's digits, in order |
| `BusinessCard.NoNumber` | src/components/BusinessCard/BusinessCard.jsx:188-196 | a missing number formats to nothing |
| `BusinessCard.Utf8` | src/components/BusinessCard/BusinessCard.jsx:185 | a character encodes to 1 to 4 bytes, one byte exactly for ASCII |
| `BusinessCard.PercentByte` | src/components/BusinessCard/BusinessCard.jsx:185 | `%XX` reads back as the byte |
| `BusinessCard.EncodeChar` | src/components/BusinessCard/BusinessCard.jsx:185 | an unreserved character is kept as it is; any other becomes 3 to 12 characters starting with `%` |
| `BusinessCard.EncodeURIComponent` | src/components/BusinessCard/BusinessCard.jsx:185 | the encoding is never shorter than the text |
| `BusinessCard.EncodedAlphabet` | src/components/BusinessCard/BusinessCard.jsx:185 | the encoding holds only unreserved characters and `%` |
| `BusinessCard.EncodeConcat` | src/components/BusinessCard/BusinessCard.jsx:185 | encoding distributes over concatenation |
| `BusinessCard.EncodeUnreserved` | src/components/BusinessCard/BusinessCard.jsx:185 | text of unreserved characters encodes to itself |
| `BusinessCard.EncodeDecodeAscii` | src/components/BusinessCard/BusinessCard.jsx:185 | percent-decoding gives back any ASCII text |
| `BusinessCard.EncodeWordSpace` | src/components/BusinessCard/BusinessCard.jsx:185 | a space after an unreserved word becomes `%20` |
| `BusinessCard.EncodeCommaThen` | src/components/BusinessCard/BusinessCard.jsx:185 | a comma becomes `%2C` |
| `BusinessCard.GoogleMapsLink` | src/components/BusinessCard/BusinessCard.jsx:183-186 | the link starts with the fixed directions prefix |
| `BusinessCard.GoogleMapsLinkAddress` | src/components/BusinessCard/BusinessCard.jsx:183-186 | decoding what follows the prefix gives the ASCII address back |
| `BusinessCard.ImageSource` | src/components/BusinessCard/BusinessCard.jsx:203 | the image is never empty and is the stock picture exactly when the image URL is missing or empty (or is that picture) |
| `BusinessCard.DetailLink` | src/components/BusinessCard/BusinessCard.jsx:202 | the link is `/spaces/` followed by the id |
| `BusinessCard.TelLink` | src/components/BusinessCard/BusinessCard.jsx:241 | the link is `tel:` followed by the unformatted number |
| `CreateProfile.Utf16Length` | src/components/CreateProfile/CreateProfile.jsx:146 | a length in UTF-16 units lies between the character count and twice it |
| `CreateProfile.AcceptedIff` | src/components/CreateProfile/CreateProfile.jsx:133-158 | a value passes exactly when it has a non-white-space character, its trimmed length is at most 255 and, for name and username, it uses only letters, spaces and hyphens |
| `CreateProfile.Validate` | src/components/CreateProfile/CreateProfile.jsx:133-158 | the verdict of the first failing rule; `AcceptedIff` and `FreeTextFields` state when a value passes |
| `CreateProfile.FreeTextFields` | src/components/CreateProfile/CreateProfile.jsx:140 | pronouns and location never get "Invalid characters" |
| `CreateProfile.HelperText` | src/components/CreateProfile/CreateProfile.jsx:138-156 | the helper text is empty exactly when the value passes |
| `CreateProfile.KeysDiffer` | src/components/CreateProfile/CreateProfile.jsx:137-138 | a field's flag key and message key are different keys |
| `CreateProfile.AfterValidationKeys` | src/components/CreateProfile/CreateProfile.jsx:135-157 | validation writes the field's flag and message and keeps every other key |
| `CreateProfile.AfterValidation` | src/components/CreateProfile/CreateProfile.jsx:133-158 | the error record after validating one field; `AfterValidationKeys` states which keys change |
| `CreateProfile.Blocked` | src/components/CreateProfile/CreateProfile.jsx:205 | some value of the error record is `true`; `BlockedAfterValidation` and `UntouchedFormNotBlocked` state when |
| `CreateProfile.BlockedAfterValidation` | src/components/CreateProfile/CreateProfile.jsx:133-160 | after validating a field, submission is blocked exactly when it failed or another flag was already raised |
| `CreateProfile.UntouchedFormNotBlocked` | src/components/CreateProfile/CreateProfile.jsx:83-90 | before any field loses focus no flag is raised, so submission is not blocked |
| `CreateProfile.Names` | src/components/CreateProfile/CreateProfile.jsx:111-112 | one name per identity |
| `CreateProfile.NamesWithoutName` | src/components/CreateProfile/CreateProfile.jsx:109-115 | filtering the identities by name filters their names the same way as the labels |
| `CreateProfile.WithoutName` | src/components/CreateProfile/CreateProfile.jsx:111-112 | the filtered identities are identities that were there, none with the removed name, and no more of them |
| `CreateProfile.SelectTwice` | src/components/CreateProfile/CreateProfile.jsx:107-123 | selecting an unselected label and clicking it again restores both lists |
| `CreateProfile.ProfilePage.constructor` | src/components/CreateProfile/CreateProfile.jsx:70-93 | empty fields, no identities or labels, the initial error record, no status and a closed snackbar |
| `CreateProfile.ProfilePage.AddLabel` | src/components/CreateProfile/CreateProfile.jsx:107-123 | the labels are toggled, the identities follow them, and the identities' names still equal the labels |
| `CreateProfile.ProfilePage.HandleChange` | src/components/CreateProfile/CreateProfile.jsx:125-131 | only the named field changes |
| `CreateProfile.ProfilePage.FieldValidation` | src/components/CreateProfile/CreateProfile.jsx:133-160 | the error record becomes the specified record after validation |
| `CreateProfile.ProfilePage.SaveUser` | src/components/CreateProfile/CreateProfile.jsx:204-214 | a raised flag opens the snackbar with "Please fix errors before submitting" and keeps the status; otherwise the status becomes 'userSubmitted' |
| `CreateProfile.ProfilePage.CloseSnackBar` | src/components/CreateProfile/CreateProfile.jsx:103-105 | the snackbar closes |
| `AddSpace.ViewOf` | src/routes/AddSpace/AddSpace.jsx:55-105 | the "Unknown step" view is shown exactly for steps outside 0..5 |
| `AddSpace.StepperShown` | src/routes/AddSpace/AddSpace.jsx:149 | the stepper is drawn on every step but the success step; `OnSubmit` states that submitting hides it |
| `AddSpace.DisableNext` | src/routes/AddSpace/AddSpace.jsx:144 | Next is disabled while the snackbar is open; `RejectedSearchDisablesNext` uses it |
| `AddSpace.Apply` | src/routes/AddSpace/AddSpace.jsx:115-163 | each event runs its handler; `OfferedKeepsRange` and `OfferedRunsStayKnown` state what offered runs keep |
| `AddSpace.OnNext` | src/routes/AddSpace/AddSpace.jsx:115-128 | a search named "error" on the first step opens the snackbar and changes nothing else; otherwise the data is merged over the form values (new keys win, others kept) and the step advances by one |
| `AddSpace.OnBack` | src/routes/AddSpace/AddSpace.jsx:136-141 | a numeric target from 0 to 5 is jumped to; any other argument goes one step back; form values and snackbar are kept |
| `AddSpace.OnSubmit` | src/routes/AddSpace/AddSpace.jsx:129-149 | the success step is reached and the stepper is hidden |
| `AddSpace.OnLabelClick` | src/routes/AddSpace/AddSpace.jsx:159-163 | a label click moves only to an earlier step, and never from the success step |
| `AddSpace.OfferedKeepsRange` | src/routes/AddSpace/AddSpace.jsx:55-163 | a handler offered by the current screen keeps the step within 0..5 |
| `AddSpace.OfferedRunsStayKnown` | src/routes/AddSpace/AddSpace.jsx:55-163 | any run through offered handlers keeps the step within 0..5 and never shows "Unknown step" |
| `AddSpace.BackFromFirstStep` | src/routes/AddSpace/AddSpace.jsx:136-141 | `onBack` called directly with a non-number on the first step reaches the "Unknown step" view; the first screen offers no Back button, so no run of offered handlers gets there (`AddSpace.OfferedRunsStayKnown`) |
| `AddSpace.RejectedSearchDisablesNext` | src/routes/AddSpace/AddSpace.jsx:116-121 | a rejected search stays on the first step with Next disabled until the snackbar closes |
| `AddSpace.Wizard.constructor` | src/routes/AddSpace/AddSpace.jsx:110-112 | step 0, no form values, snackbar closed |
| `AddSpace.Wizard.HandleNext` | src/routes/AddSpace/AddSpace.jsx:115-128 | the state becomes the specified next state |
| `AddSpace.Wizard.HandleBack` | src/routes/AddSpace/AddSpace.jsx:136-141 | the state becomes the specified back state |
| `AddSpace.Wizard.HandleSubmit` | src/routes/AddSpace/AddSpace.jsx:129-133 | the state becomes the specified submitted state |
| `AddSpace.Wizard.HandleLabelClick` | src/routes/AddSpace/AddSpace.jsx:159-163 | the state becomes the specified state after the click |
| `AddSpace.Wizard.HandleSnackbarClose` | src/routes/AddSpace/AddSpace.jsx:181 | the snackbar closes and nothing else changes |
| `AddressStep.Toggled` | src/components/AddSpacePage/Address.jsx:40-46 | clicking the selected card clears the selection; clicking any other card selects only it |
| `AddressStep.Checked` | src/components/AddSpacePage/Address.jsx:56 | a card is checked exactly when it is the selected one; `ClickChecksAtMostClicked` uses it |
| `AddressStep.NextDisabled` | src/components/AddSpacePage/Address.jsx:69 | Next is disabled while nothing is selected; `ClickChecksAtMostClicked` uses it |
| `AddressStep.ClickChecksAtMostClicked` | src/components/AddSpacePage/Address.jsx:40-69 | after a click at most the clicked card is checked; it is checked exactly when it was not; Next is disabled exactly when the click deselected |
| `AddressStep.ClickTwice` | src/components/AddSpacePage/Address.jsx:40-46 | two clicks on one card keep it selected if it was, and otherwise leave nothing selected |
| `AddressStep.AddressPicker.constructor` | src/components/AddSpacePage/Address.jsx:39 | nothing is selected and Next is disabled |
| `AddressStep.AddressPicker.OnCheck` | src/components/AddSpacePage/Address.jsx:40-56 | the selection becomes the toggled selection and no card but the clicked one is checked |

## Left out

- Rendering, styling, media queries, Material-UI components and the go-to-page popup of the pagination are not modelled.
- The search results fetch, `history.push`, the `createUser` effect, the Auth0 name default and the `console.log` of the submitted space are effects outside this model.
- `URLSearchParams.toString()` is not modelled: a link is its path and its list of pairs, not its serialised text.
- `Search.FloatParamOr0`: `parseFloat` is a parameter of the model (any function from text to a number or `NaN`), so the rating is stated only in terms of it.
- `JsStrings.ParseInt`: `parseInt` is modelled for radix 10 only, which is the radix every call uses. Results are unbounded integers; the loss of precision above 2^53 is not modelled.
- `Pagination.TotalPages`: a page size of 0 (a division by zero, giving `Infinity` pages) is excluded.
- `Pagination.Render`: `page` and `perPage` are integers; fractional values of these numbers are not modelled.
- `FilterPanel.Panel.SyncFromSearch`: a `null` search term is treated as a missing one. The code would store `null` in the text field.
- `FilterPanel.SearchProp`: the search price is an integer or missing. A `NaN` price is treated as missing, which is how the code's truthiness test treats it.
- `FilterPanel.Panel.ApplyFilters`: the payload is returned; what the parent's `updateSearch` does with it is not part of this component.
- `JsObjects.Put`: JavaScript orders integer-like keys before other keys. The model keeps insertion order for all keys; indicator names are not integer-like.
- `Search.SearchHook.UpdateSearch`: values are text. A non-string value is only tested for truthiness by the code, and is not modelled.
- `SearchResults.Space`: a space without an `address` object, which makes the code throw, is not modelled. A `null` property is treated like a missing one, with one exception the model does not capture: the `= []` default of `category_aliases` applies only to `undefined`, so a `null` `category_aliases` makes the code throw when it reads the first category.
- `SearchResults.FormatSearchResult`: `averageRating` is `None` for `NaN` only through the abstract number type; floating point is not modelled.
- `BusinessCard.EncodeDecodeAscii`: the decoding round trip is proved for ASCII text only. The encoding itself covers every Unicode scalar value through UTF-8. Lone surrogates, which make `encodeURIComponent` throw, cannot occur in Dafny strings.
- `BusinessCard.EncodeWordSpace`: the two full addresses of the component's test are instances of this lemma and of `EncodeCommaThen`; they are not spelled out as literal examples.
- `CreateProfile.ProfilePage.FieldValidation`: a missing field value (`undefined`, on which `trim` throws) is not modelled; values are text.
- `CreateProfile.ProfilePage.SaveUser`: the snackbar's position fields are not modelled.
- `AddSpace.OnNext`: the data is a map from text to text. The click event that the address step passes as data is not modelled, nor is `null` data, which the code merges as nothing.
- `AddressStep.AddressPicker`: the Next button hands the click event to the wizard, not the selected business. The selection is therefore never passed on; the model keeps only the selection.
- The user and profile-chip contexts are not modelled; the chip names are given as labels.
- `Search.SearchHook`: src/hooks/useQuery.js is not part of this model. The query is taken to be one `URLSearchParams` object shared by every call in a render, and a render after the history push is taken to read the query that was pushed (`Search.SearchHook.Rerender`).
