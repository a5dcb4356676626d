/** The pagination bar of the search results: the number of pages, the back
    and next links, the page menu with its `'...'` entry, the
    "Showing A - B of N Results" label, and the links each control points at.
    Every link is the current path with the shared query object's `page` and
    `perPage` set; the component sets them on that one object again and again. */
module Pagination {
  import opened Wrappers
  import opened JsStrings
  import opened SearchParams

  /** Ceiling division for a positive divisor. */
  function CeilDiv(a: int, b: int): (q: int)
    requires b > 0
    ensures (q - 1) * b < a <= q * b
  {
    var n := a + b - 1;
    assert n == (n / b) * b + n % b && 0 <= n % b < b;
    n / b
  }

  /** `Math.ceil(totalCount / perPage)`; a zero `perPage` would give a non-number. */
  function TotalPages(totalCount: int, perPage: int): (pages: int)
    requires perPage != 0
    ensures perPage > 0 ==> (pages - 1) * perPage < totalCount <= pages * perPage
  {
    if perPage > 0 then CeilDiv(totalCount, perPage) else CeilDiv(-totalCount, -perPage)
  }

  /** The label shown for the `'...'` entry, which opens the go-to-page box. */
  const GoToPageLabel: string := "..."

  datatype PageItem = PageNumber(n: int) | Ellipsis

  /** `calculatePaginationMenu` before the links are attached: the six guarded
      slots previous, current, next, next-next, `'...'` and last, with the
      `null` slots filtered out. */
  function Window(totalPages: int, page: int): (r: seq<PageItem>)
    ensures 1 <= |r| <= 6
  {
    (if totalPages > 1 && page > 1 then [PageNumber(page - 1)] else [])
    + [PageNumber(page)]
    + (if page + 1 < totalPages then [PageNumber(page + 1)] else [])
    + (if page + 2 < totalPages then [PageNumber(page + 2)] else [])
    + (if page + 3 <= totalPages then [Ellipsis] else [])
    + (if totalPages != page then [PageNumber(totalPages)] else [])
  }

  /** The menu for a page inside the range, written out by how far the last page is. */
  function WindowByDistance(totalPages: int, page: int): seq<PageItem>
    requires 1 <= page <= totalPages
  {
    var previous := if page > 1 then [PageNumber(page - 1)] else [];
    var distance := totalPages - page;
    previous +
      if distance == 0 then [PageNumber(page)]
      else if distance == 1 then [PageNumber(page), PageNumber(totalPages)]
      else if distance == 2 then [PageNumber(page), PageNumber(page + 1), PageNumber(totalPages)]
      else [PageNumber(page), PageNumber(page + 1), PageNumber(page + 2), Ellipsis, PageNumber(totalPages)]
  }

  lemma WindowShape(totalPages: int, page: int)
    requires 1 <= page <= totalPages
    ensures Window(totalPages, page) == WindowByDistance(totalPages, page)
  {
  }

  predicate NumbersAscending(w: seq<PageItem>) {
    forall i, j :: 0 <= i < j < |w| && w[i].PageNumber? && w[j].PageNumber? ==> w[i].n < w[j].n
  }

  /** For a page inside the range: page numbers strictly ascend, every number is
      a real page, the last page is the final entry, there are at most six
      entries, and `'...'` appears at most once, only just before the last page
      and only after `page + 2`. */
  lemma WindowWellFormed(totalPages: int, page: int)
    requires 1 <= page <= totalPages
    ensures var w := Window(totalPages, page);
      && 1 <= |w| <= 6
      && NumbersAscending(w)
      && (forall i :: 0 <= i < |w| && w[i].PageNumber? ==> 1 <= w[i].n <= totalPages)
      && w[|w| - 1] == PageNumber(totalPages)
      && (forall i, j :: 0 <= i < j < |w| && w[i] == Ellipsis ==> w[j] != Ellipsis)
      && (forall i :: 0 <= i < |w| && w[i] == Ellipsis ==>
            i == |w| - 2 && 0 < i && w[i - 1] == PageNumber(page + 2))
  {
    WindowShape(totalPages, page);
  }

  /** Adjacent page numbers are consecutive: pages are skipped only behind `'...'`. */
  lemma WindowNoSilentGap(totalPages: int, page: int, i: nat)
    requires 1 <= page <= totalPages
    requires i + 1 < |Window(totalPages, page)|
    requires Window(totalPages, page)[i].PageNumber? && Window(totalPages, page)[i + 1].PageNumber?
    ensures Window(totalPages, page)[i + 1].n == Window(totalPages, page)[i].n + 1
  {
    WindowShape(totalPages, page);
  }

  /** Every page from the previous one to two past the current one, and the last
      page, is listed. */
  lemma WindowCoversNeighbours(totalPages: int, page: int, k: int)
    requires 1 <= page <= totalPages
    requires (1 <= k && page - 1 <= k <= page + 2 && k <= totalPages) || k == totalPages
    ensures PageNumber(k) in Window(totalPages, page)
  {
    WindowShape(totalPages, page);
  }

  /** The current page appears exactly once, whatever the inputs. */
  lemma WindowCurrentOnce(totalPages: int, page: int)
    ensures var w := Window(totalPages, page);
      var at := if totalPages > 1 && page > 1 then 1 else 0;
      at < |w| && w[at] == PageNumber(page)
      && forall i :: 0 <= i < |w| && w[i] == PageNumber(page) ==> i == at
  {
    var before := if totalPages > 1 && page > 1 then [PageNumber(page - 1)] else [];
    var after := Window(totalPages, page)[|before| + 1..];
    assert Window(totalPages, page) == before + [PageNumber(page)] + after;
    assert PageNumber(page) !in before;
    assert PageNumber(page) !in after;
  }

  // ---- back and next ----

  /** The page the back arrow links to; `None` draws it inactive. */
  function BackTarget(totalPages: int, page: int): (r: Option<int>)
    ensures r.Some? ==> r.value == page - 1 && r.value >= 1
  {
    if totalPages > 1 && page > 1 then Some(page - 1) else None
  }

  /** The page the next arrow links to; `None` draws it inactive. */
  function NextTarget(totalPages: int, page: int): (r: Option<int>)
    ensures r.Some? ==> r.value == page + 1 && r.value <= totalPages
  {
    if totalPages > 1 && page < totalPages then Some(page + 1) else None
  }

  /** The arrows and the menu are drawn exactly when there is more than one page. */
  lemma NavigationShownIff(totalPages: int, page: int)
    ensures (BackTarget(totalPages, page).Some? || NextTarget(totalPages, page).Some?) <==> totalPages > 1
  {
  }

  // ---- the result-range label ----

  function RangeStart(page: int, perPage: int): int {
    (page - 1) * perPage + 1
  }

  function RangeEnd(page: int, perPage: int, totalCount: int): (r: int)
    ensures r <= totalCount && r <= page * perPage
    ensures r == totalCount || r == page * perPage
  {
    if page * perPage < totalCount then page * perPage else totalCount
  }

  /** The word is chosen by the ending index, not by the number of results on the page. */
  function ResultWord(endingRange: int): string {
    if endingRange <= 1 then "Result" else "Results"
  }

  /** `CalculatePageRange`. */
  function RangeLabel(totalCount: int, page: int, perPage: int): string {
    var endingRange := RangeEnd(page, perPage, totalCount);
    "Showing " + IntToString(RangeStart(page, perPage)) + " - " + IntToString(endingRange)
      + " of " + IntToString(totalCount) + " " + ResultWord(endingRange)
  }

  /** On a real page the range is non-empty, inside 1..totalCount, holds at most
      `perPage` results, and holds exactly `perPage` on every page but the last. */
  lemma RangeBounds(totalCount: int, page: int, perPage: int)
    requires perPage > 0 && 1 <= page <= TotalPages(totalCount, perPage)
    ensures 1 <= RangeStart(page, perPage) <= RangeEnd(page, perPage, totalCount) <= totalCount
    ensures RangeEnd(page, perPage, totalCount) - RangeStart(page, perPage) + 1 <= perPage
    ensures page < TotalPages(totalCount, perPage) ==>
              RangeEnd(page, perPage, totalCount) - RangeStart(page, perPage) + 1 == perPage
  {
    var pages := TotalPages(totalCount, perPage);
    assert (page - 1) * perPage <= (pages - 1) * perPage by {
      MultiplyMonotonic(page - 1, pages - 1, perPage);
    }
    if page < pages {
      MultiplyMonotonic(page, pages - 1, perPage);
    }
  }

  lemma MultiplyMonotonic(a: int, b: int, c: int)
    requires a <= b && c > 0
    ensures a * c <= b * c
  {
    assert b * c - a * c == (b - a) * c;
  }

  /** Consecutive pages cover consecutive ranges. */
  lemma RangesTile(totalCount: int, page: int, perPage: int)
    requires perPage > 0 && 1 <= page < TotalPages(totalCount, perPage)
    ensures RangeEnd(page, perPage, totalCount) + 1 == RangeStart(page + 1, perPage)
  {
    RangeBounds(totalCount, page, perPage);
  }

  /** `RangeOfResults` is handed `totalPages` as its count; that is positive
      exactly when `totalCount` is, so the label shows exactly when there are results. */
  lemma RangeShownIff(totalCount: int, perPage: int)
    requires perPage > 0
    ensures TotalPages(totalCount, perPage) > 0 <==> totalCount > 0
  {
  }

  // ---- links ----

  datatype Link = Link(path: string, query: Pairs)

  datatype MenuEntry = MenuEntry(item: PageItem, link: Link)

  /** The text `query.set('page', pg)` stores for a menu item. */
  function ItemText(item: PageItem): (r: string)
    ensures |r| > 0
    ensures item.PageNumber? && item.n >= 0 ==> AllDigits(r)
    ensures item.Ellipsis? ==> r == GoToPageLabel
  {
    match item
    case PageNumber(n) => IntToString(n)
    case Ellipsis => GoToPageLabel
  }

  /** The query with `page` and then `perPage` set. */
  function PageQuery(q: Pairs, pageText: string, perPage: int): Pairs {
    SetValue(SetValue(q, "page", pageText), "perPage", IntToString(perPage))
  }

  /** A link's query has `page` and `perPage` once each, with the given values,
      and every other parameter exactly as before. */
  lemma PageQueryValues(q: Pairs, pageText: string, perPage: int, name: string)
    ensures GetAll(PageQuery(q, pageText, perPage), name)
         == if name == "page" then [pageText]
            else if name == "perPage" then [IntToString(perPage)]
            else GetAll(q, name)
  {
    GetAllSet(SetValue(q, "page", pageText), "perPage", IntToString(perPage), name);
    GetAllSet(q, "page", pageText, name);
  }

  /** Setting the page on an already re-paged query gives what setting it on
      the original would: earlier links leave no trace in later ones. */
  lemma PageQueryAgain(q: Pairs, first: string, second: string, perPage: int)
    ensures PageQuery(PageQuery(q, first, perPage), second, perPage) == PageQuery(q, second, perPage)
  {
    var p := IntToString(perPage);
    var r := SetValue(q, "page", first);
    SetValueHasName(q, "page", first);
    calc {
      PageQuery(PageQuery(q, first, perPage), second, perPage);
      SetValue(SetValue(SetValue(r, "perPage", p), "page", second), "perPage", p);
      { SetValueCommute(r, "page", second, "perPage", p); }
      SetValue(SetValue(SetValue(r, "page", second), "perPage", p), "perPage", p);
      { SetValueTwice(SetValue(r, "page", second), "perPage", p, p); }
      SetValue(SetValue(r, "page", second), "perPage", p);
      { SetValueTwice(q, "page", first, second); }
      PageQuery(q, second, perPage);
    }
  }

  function TargetLink(target: Option<int>, path: string, q: Pairs, perPage: int): Option<Link> {
    match target
    case Some(p) => Some(Link(path, PageQuery(q, IntToString(p), perPage)))
    case None => None
  }

  /** Each menu item with its link, every link built from the query `q`. */
  function Menu(totalPages: int, page: int, path: string, q: Pairs, perPage: int): (m: seq<MenuEntry>)
    ensures |m| == |Window(totalPages, page)|
  {
    var w := Window(totalPages, page);
    seq(|w|, i requires 0 <= i < |w| => MenuEntry(w[i], Link(path, PageQuery(q, ItemText(w[i]), perPage))))
  }

  /** `PaginationButton` highlights the entry whose number is the current page. */
  predicate IsCurrentPage(entry: MenuEntry, page: int) {
    entry.item == PageNumber(page)
  }

  /** Exactly one menu entry is highlighted as the current page. */
  lemma MenuCurrentOnce(totalPages: int, page: int, path: string, q: Pairs, perPage: int)
    ensures var m := Menu(totalPages, page, path, q, perPage);
      exists i :: 0 <= i < |m| && IsCurrentPage(m[i], page)
        && forall j :: 0 <= j < |m| && IsCurrentPage(m[j], page) ==> j == i
  {
    WindowCurrentOnce(totalPages, page);
    var at := if totalPages > 1 && page > 1 then 1 else 0;
    assert IsCurrentPage(Menu(totalPages, page, path, q, perPage)[at], page);
  }

  datatype Navigation = Navigation(back: Option<Link>, menu: seq<MenuEntry>, next: Option<Link>)

  datatype PaginationView = PaginationView(rangeLabel: Option<string>, navigation: Option<Navigation>)

  /** What `Pagination` renders, with every link stated against the query as it was on entry. */
  function View(totalCount: int, page: int, perPage: int, path: string, q: Pairs): PaginationView
    requires perPage != 0
  {
    var totalPages := TotalPages(totalCount, perPage);
    var back := BackTarget(totalPages, page);
    var next := NextTarget(totalPages, page);
    PaginationView(
      if totalPages > 0 then Some(RangeLabel(totalCount, page, perPage)) else None,
      if back.Some? || next.Some? then
        Some(Navigation(TargetLink(back, path, q, perPage),
                        Menu(totalPages, page, path, q, perPage),
                        TargetLink(next, path, q, perPage)))
      else None)
  }

  /** `calculatePaginationMenu`: for each item, `page` and `perPage` are set on the
      shared query and the link is read off it. */
  method CalculatePaginationMenu(totalPages: int, page: int, path: string, query: Query, perPage: int)
    returns (entries: seq<MenuEntry>)
    modifies query
    ensures entries == Menu(totalPages, page, path, old(query.pairs), perPage)
    ensures var w := Window(totalPages, page);
      query.pairs == PageQuery(old(query.pairs), ItemText(w[|w| - 1]), perPage)
  {
    var w := Window(totalPages, page);
    ghost var q0 := query.pairs;
    entries := [];
    var i := 0;
    while i < |w|
      invariant 0 <= i <= |w|
      invariant |entries| == i
      invariant forall j :: 0 <= j < i ==>
        entries[j] == MenuEntry(w[j], Link(path, PageQuery(q0, ItemText(w[j]), perPage)))
      invariant i == 0 ==> query.pairs == q0
      invariant i > 0 ==> query.pairs == PageQuery(q0, ItemText(w[i - 1]), perPage)
    {
      var text := ItemText(w[i]);
      ghost var before := query.pairs;
      query.Set("page", text);
      query.Set("perPage", IntToString(perPage));
      if i > 0 {
        PageQueryAgain(q0, ItemText(w[i - 1]), text, perPage);
      }
      entries := entries + [MenuEntry(w[i], Link(path, query.pairs))];
      i := i + 1;
    }
  }

  /** A menu built from a query whose page was already set once is the menu of the original query. */
  lemma MenuAfterRepaging(totalPages: int, page: int, path: string, q: Pairs, first: string, perPage: int)
    ensures Menu(totalPages, page, path, PageQuery(q, first, perPage), perPage)
         == Menu(totalPages, page, path, q, perPage)
  {
    var w := Window(totalPages, page);
    forall i | 0 <= i < |w|
      ensures PageQuery(PageQuery(q, first, perPage), ItemText(w[i]), perPage) == PageQuery(q, ItemText(w[i]), perPage)
    {
      PageQueryAgain(q, first, ItemText(w[i]), perPage);
    }
  }

  /** `Pagination`: the back link, then the next link, then (only when one of them
      exists) the menu, all set on the one shared query. */
  method Render(totalCount: int, page: int, perPage: int, path: string, query: Query)
    returns (view: PaginationView)
    requires perPage != 0
    modifies query
    ensures view == View(totalCount, page, perPage, path, old(query.pairs))
    ensures var totalPages := TotalPages(totalCount, perPage);
      var w := Window(totalPages, page);
      query.pairs == if totalPages > 1 then PageQuery(old(query.pairs), ItemText(w[|w| - 1]), perPage)
                     else old(query.pairs)
  {
    ghost var q0 := query.pairs;
    var totalPages := TotalPages(totalCount, perPage);
    var backButton: Option<Link> := None;
    var nextButton: Option<Link> := None;
    var backExists := false;
    var nextExists := false;
    // the text of the page last set on the query, if any
    ghost var lastSet: Option<string> := None;
    if totalPages > 1 && page > 1 {
      backExists := true;
      query.Set("page", IntToString(page - 1));
      query.Set("perPage", IntToString(perPage));
      backButton := Some(Link(path, query.pairs));
      lastSet := Some(IntToString(page - 1));
    }
    if totalPages > 1 && page < totalPages {
      nextExists := true;
      query.Set("page", IntToString(page + 1));
      query.Set("perPage", IntToString(perPage));
      if backExists {
        PageQueryAgain(q0, IntToString(page - 1), IntToString(page + 1), perPage);
      }
      nextButton := Some(Link(path, query.pairs));
      lastSet := Some(IntToString(page + 1));
    }
    assert backButton == TargetLink(BackTarget(totalPages, page), path, q0, perPage);
    assert nextButton == TargetLink(NextTarget(totalPages, page), path, q0, perPage);
    assert lastSet.None? ==> query.pairs == q0;
    assert lastSet.Some? ==> query.pairs == PageQuery(q0, lastSet.value, perPage);
    var rangeLabel := if totalPages > 0 then Some(RangeLabel(totalCount, page, perPage)) else None;
    var navigation: Option<Navigation> := None;
    if backExists || nextExists {
      var menu := CalculatePaginationMenu(totalPages, page, path, query, perPage);
      var w := Window(totalPages, page);
      MenuAfterRepaging(totalPages, page, path, q0, lastSet.value, perPage);
      PageQueryAgain(q0, lastSet.value, ItemText(w[|w| - 1]), perPage);
      navigation := Some(Navigation(backButton, menu, nextButton));
    }
    NavigationShownIff(totalPages, page);
    view := PaginationView(rangeLabel, navigation);
  }

  // ---- worked examples: 95 results, 20 per page ----

  lemma FirstPageOfFive()
    ensures TotalPages(95, 20) == 5
    ensures Window(5, 1) == [PageNumber(1), PageNumber(2), PageNumber(3), Ellipsis, PageNumber(5)]
    ensures BackTarget(5, 1) == None && NextTarget(5, 1) == Some(2)
    ensures RangeLabel(95, 1, 20) == "Showing 1 - 20 of 95 Results"
  {
  }

  lemma LastPageOfFive()
    ensures Window(5, 5) == [PageNumber(4), PageNumber(5)]
    ensures BackTarget(5, 5) == Some(4) && NextTarget(5, 5) == None
    ensures RangeLabel(95, 5, 20) == "Showing 81 - 95 of 95 Results"
  {
  }

  /** No results: no label and no navigation. */
  lemma NoResults(page: int, perPage: int, path: string, q: Pairs)
    requires perPage > 0
    ensures View(0, page, perPage, path, q) == PaginationView(None, None)
  {
    RangeShownIff(0, perPage);
    NavigationShownIff(TotalPages(0, perPage), page);
  }
}
