/**
 * The search page's client-side rules: the state it keeps (the current
 * page, the chosen seasons and the last filter object), the season chips,
 * the filter object sent to the server, the "showing start-end" line and
 * the pagination bar. The DOM is left out: the form's fields are a
 * parameter and the pagination bar is the sequence of buttons it shows.
 */
module SearchPage {
  import opened JsText

  // ---------------------------------------------------------------------
  // Result range
  // ---------------------------------------------------------------------

  /** The first and last result numbers shown for a page. */
  function ResultRange(page: int, limit: int, total: int): (r: (int, int))
    ensures r.0 == (page - 1) * limit + 1 && r.1 <= total && r.1 <= page * limit
    ensures r.1 == total || r.1 == page * limit
    ensures page >= 1 && limit >= 1 && (page - 1) * limit < total ==>
              1 <= r.0 <= r.1 && r.1 - r.0 + 1 == Min(limit, total - (page - 1) * limit)
  {
    ((page - 1) * limit + 1, Min(page * limit, total))
  }

  // ---------------------------------------------------------------------
  // Pagination bar
  // ---------------------------------------------------------------------

  /** The most page numbers the window around the current page shows. */
  const MaxPages := 7

  /**
   * The window of page numbers: centred on `page` where it can be, and
   * shifted back from the last page so that it stays full.
   */
  function Window(page: int, pages: int): (w: (int, int))
    ensures pages >= 1 ==> 1 <= w.0 <= w.1 <= pages
    ensures 1 <= page <= pages ==> w.0 <= page <= w.1 && w.1 - w.0 + 1 == Min(MaxPages, pages)
  {
    var startPage := Max(1, page - MaxPages / 2);
    var endPage := Min(pages, startPage + MaxPages - 1);
    if endPage - startPage < MaxPages - 1 then (Max(1, endPage - MaxPages + 1), endPage)
    else (startPage, endPage)
  }

  /** One element of the page-number row. */
  datatype PageItem = PageButton(number: int, active: bool) | Ellipsis

  /** What the pagination bar shows. */
  datatype Bar = Bar(prevDisabled: bool, items: seq<PageItem>, nextDisabled: bool)

  /** The buttons `lo` to `hi`, the one of the current page highlighted. */
  function Buttons(lo: int, hi: int, page: int): (r: seq<PageItem>)
    ensures |r| == Max(0, hi - lo + 1)
    decreases hi - lo
  {
    if hi < lo then [] else Buttons(lo, hi - 1, page) + [PageButton(hi, hi == page)]
  }

  /** The `j`-th button of `lo`..`hi` shows `lo + j`. */
  lemma {:induction false} ButtonsAt(lo: int, hi: int, page: int, j: int)
    requires 0 <= j <= hi - lo
    ensures Buttons(lo, hi, page)[j] == PageButton(lo + j, lo + j == page)
    decreases hi - lo
  {
    if j < hi - lo {
      ButtonsAt(lo, hi - 1, page, j);
    }
  }

  /** The first page and, after a gap, an ellipsis before the window. */
  function Leading(startPage: int, page: int): seq<PageItem> {
    if startPage > 1 then [PageButton(1, 1 == page)] + (if startPage > 2 then [Ellipsis] else [])
    else []
  }

  /** After a gap an ellipsis, then the last page, after the window. */
  function Trailing(endPage: int, pages: int, page: int): seq<PageItem> {
    if endPage < pages then (if endPage < pages - 1 then [Ellipsis] else []) + [PageButton(pages, pages == page)]
    else []
  }

  /** The row of page numbers for the window `startPage`..`endPage`. */
  function Row(startPage: int, endPage: int, pages: int, page: int): seq<PageItem> {
    Leading(startPage, page) + Buttons(startPage, endPage, page) + Trailing(endPage, pages, page)
  }

  /** The bar for `page` of `pages`. */
  function Pagination(page: int, pages: int): Bar {
    var w := Window(page, pages);
    Bar(page == 1, Row(w.0, w.1, pages, page), page == pages)
  }

  /**
   * Neighbouring buttons show consecutive numbers, and an ellipsis always
   * stands between two buttons whose numbers leave a gap.
   */
  predicate Spaced(items: seq<PageItem>) {
    && (forall k :: 0 <= k < |items| - 1 && items[k].PageButton? && items[k + 1].PageButton? ==>
          items[k + 1].number == items[k].number + 1)
    && (forall k :: 0 <= k < |items| && items[k].Ellipsis? ==>
          0 < k < |items| - 1 && items[k - 1].PageButton? && items[k + 1].PageButton?
          && items[k + 1].number > items[k - 1].number + 1)
  }

  /** The number of items before the window. */
  function LeadCount(startPage: int): nat {
    if startPage > 2 then 2 else if startPage > 1 then 1 else 0
  }

  /** What the row holds at place `k`. */
  lemma RowAt(s: int, e: int, pages: int, page: int, k: int)
    requires 1 <= s <= e <= pages
    ensures var row := Row(s, e, pages, page);
            var h := LeadCount(s);
            && |row| == h + (e - s + 1) + (if e < pages - 1 then 2 else if e < pages then 1 else 0)
            && (0 <= k < |row| ==>
                && (k < h ==> (k == 0 ==> row[k] == PageButton(1, 1 == page)) && (k == 1 ==> row[k] == Ellipsis && s > 2))
                && (h <= k <= h + e - s ==> row[k] == PageButton(s + k - h, s + k - h == page))
                && (h + e - s < k < |row| - 1 ==> row[k] == Ellipsis && e < pages - 1)
                && (h + e - s < k == |row| - 1 ==> row[k] == PageButton(pages, pages == page) && e < pages))
  {
    var lead, mid, tail := Leading(s, page), Buttons(s, e, page), Trailing(e, pages, page);
    assert |lead| == LeadCount(s);
    var row := lead + mid + tail;
    if 0 <= k < |row| {
      if k < |lead| {
        assert row[k] == lead[k];
      } else if k < |lead| + |mid| {
        ButtonsAt(s, e, page, k - |lead|);
        assert row[k] == mid[k - |lead|];
      } else {
        assert row[k] == tail[k - |lead| - |mid|];
      }
    }
  }

  /** Neighbouring buttons of the row show consecutive numbers. */
  lemma RowConsecutive(s: int, e: int, pages: int, page: int)
    requires 1 <= s <= e <= pages
    ensures var row := Row(s, e, pages, page);
            forall k :: 0 <= k < |row| - 1 && row[k].PageButton? && row[k + 1].PageButton? ==>
              row[k + 1].number == row[k].number + 1
  {
    var row := Row(s, e, pages, page);
    forall k | 0 <= k < |row| - 1 && row[k].PageButton? && row[k + 1].PageButton?
      ensures row[k + 1].number == row[k].number + 1
    {
      RowAt(s, e, pages, page, k);
      RowAt(s, e, pages, page, k + 1);
    }
  }

  /** Each ellipsis of the row stands between two buttons that leave a gap. */
  lemma RowGaps(s: int, e: int, pages: int, page: int)
    requires 1 <= s <= e <= pages
    ensures var row := Row(s, e, pages, page);
            forall k :: 0 <= k < |row| && row[k].Ellipsis? ==>
              0 < k < |row| - 1 && row[k - 1].PageButton? && row[k + 1].PageButton?
              && row[k + 1].number > row[k - 1].number + 1
  {
    var row := Row(s, e, pages, page);
    forall k | 0 <= k < |row| && row[k].Ellipsis?
      ensures 0 < k < |row| - 1 && row[k - 1].PageButton? && row[k + 1].PageButton?
      ensures row[k + 1].number > row[k - 1].number + 1
    {
      RowAt(s, e, pages, page, k);
      RowAt(s, e, pages, page, k - 1);
      RowAt(s, e, pages, page, k + 1);
    }
  }

  /** Button numbers rise strictly along the row. */
  lemma RowRises(s: int, e: int, pages: int, page: int)
    requires 1 <= s <= e <= pages
    ensures var row := Row(s, e, pages, page);
            forall i, j :: 0 <= i < j < |row| && row[i].PageButton? && row[j].PageButton? ==>
              row[i].number < row[j].number
  {
    var row := Row(s, e, pages, page);
    forall i, j | 0 <= i < j < |row| && row[i].PageButton? && row[j].PageButton?
      ensures row[i].number < row[j].number
    {
      RowAt(s, e, pages, page, i);
      RowAt(s, e, pages, page, j);
    }
  }

  /** Only the current page's button is highlighted. */
  lemma RowActive(s: int, e: int, pages: int, page: int)
    requires 1 <= s <= e <= pages
    ensures var row := Row(s, e, pages, page);
            forall k :: 0 <= k < |row| && row[k].PageButton? ==> (row[k].active <==> row[k].number == page)
  {
    var row := Row(s, e, pages, page);
    forall k | 0 <= k < |row| && row[k].PageButton?
      ensures row[k].active <==> row[k].number == page
    {
      RowAt(s, e, pages, page, k);
    }
  }

  /** With at least one page the row starts with page 1 and ends with the last page. */
  lemma PaginationEnds(page: int, pages: int)
    requires pages >= 1
    ensures var items := Pagination(page, pages).items;
            && |items| >= 1
            && items[0].PageButton? && items[0].number == 1
            && items[|items| - 1].PageButton? && items[|items| - 1].number == pages
  {
    var w := Window(page, pages);
    var items := Row(w.0, w.1, pages, page);
    RowAt(w.0, w.1, pages, page, 0);
    RowAt(w.0, w.1, pages, page, |items| - 1);
  }

  /** Neighbouring buttons are consecutive and an ellipsis marks exactly the gaps. */
  lemma PaginationSpaced(page: int, pages: int)
    requires pages >= 1
    ensures Spaced(Pagination(page, pages).items)
  {
    var w := Window(page, pages);
    RowConsecutive(w.0, w.1, pages, page);
    RowGaps(w.0, w.1, pages, page);
  }

  /** The numbers of the buttons rise strictly. */
  lemma PaginationRises(page: int, pages: int)
    requires pages >= 1
    ensures var items := Pagination(page, pages).items;
            forall i, j :: 0 <= i < j < |items| && items[i].PageButton? && items[j].PageButton? ==>
              items[i].number < items[j].number
  {
    var w := Window(page, pages);
    RowRises(w.0, w.1, pages, page);
  }

  /** Exactly the current page's button is highlighted, and a page in range is shown. */
  lemma PaginationActive(page: int, pages: int)
    requires pages >= 1
    ensures var items := Pagination(page, pages).items;
            forall k :: 0 <= k < |items| && items[k].PageButton? ==>
              (items[k].active <==> items[k].number == page)
    ensures 1 <= page <= pages ==> PageButton(page, true) in Pagination(page, pages).items
  {
    var w := Window(page, pages);
    var s, e := w.0, w.1;
    RowActive(s, e, pages, page);
    if 1 <= page <= pages {
      var items := Row(s, e, pages, page);
      var k := LeadCount(s) + page - s;
      RowAt(s, e, pages, page, k);
      assert items[k] == PageButton(page, true);
    }
  }

  // ---------------------------------------------------------------------
  // Filters sent to the server
  // ---------------------------------------------------------------------

  /** A value in the filter object: a form string or a number. */
  datatype FilterValue = Text(s: string) | Number(n: Num)

  /** JavaScript truthiness of a filter value. */
  predicate Truthy(v: FilterValue) {
    match v
    case Text(s) => s != ""
    case Number(n) => NumTruthy(n)
  }

  /** The keys the filter object can hold. */
  datatype FilterKey = NameKey | PositionKey | MinOverallKey | MaxOverallKey
                     | SortByKey | SortOrderKey | PageKey | LimitKey | SeasonsKey

  /** The property name of each key, as it appears in the URL and the request. */
  function KeyName(k: FilterKey): string {
    match k
    case NameKey => "name"
    case PositionKey => "position"
    case MinOverallKey => "minOverall"
    case MaxOverallKey => "maxOverall"
    case SortByKey => "sortBy"
    case SortOrderKey => "sortOrder"
    case PageKey => "page"
    case LimitKey => "limit"
    case SeasonsKey => "seasons"
  }

  /** The filter object, its keys in insertion order. */
  type Filters = seq<(FilterKey, FilterValue)>

  /** The search form's four fields as typed. */
  datatype Form = Form(name: string, position: string, minOverall: string, maxOverall: string)

  /** The form after `clearFilters`. */
  const EmptyForm := Form("", "", "", "")

  /** Results per page the page asks for. */
  const Limit := 20

  /** The filter object before empty values are removed. */
  function SearchFilters(form: Form, page: Num, seasons: seq<string>): Filters {
    [(NameKey, Text(Trim(form.name))), (PositionKey, Text(form.position)),
     (MinOverallKey, Text(form.minOverall)), (MaxOverallKey, Text(form.maxOverall)),
     (SortByKey, Text("overall")), (SortOrderKey, Text("desc")),
     (PageKey, Number(page)), (LimitKey, Number(Int(Limit)))]
    + (if |seasons| > 0 then [(SeasonsKey, Text(Join(seasons, ",")))] else [])
  }

  /** An entry survives the cleanup: its value is truthy or it is a sort key. */
  predicate Kept(entry: (FilterKey, FilterValue)) {
    Truthy(entry.1) || entry.0 == SortByKey || entry.0 == SortOrderKey
  }

  /** The entries that survive the cleanup, in their order. */
  function Cleaned(filters: Filters): (r: Filters)
    ensures |r| <= |filters|
    ensures forall p :: p in r <==> p in filters && Kept(p)
  {
    if filters == [] then []
    else
      var last := filters[|filters| - 1];
      var rest := filters[..|filters| - 1];
      assert forall p :: p in filters <==> p in rest || p == last;
      Cleaned(rest) + (if Kept(last) then [last] else [])
  }

  /** The sort keys and the limit are always sent. */
  lemma SentAlways(form: Form, page: Num, seasons: seq<string>)
    ensures var sent := Cleaned(SearchFilters(form, page, seasons));
            && (SortByKey, Text("overall")) in sent
            && (SortOrderKey, Text("desc")) in sent
            && (LimitKey, Number(Int(Limit))) in sent
  {
    var all := SearchFilters(form, page, seasons);
    assert all[4] == (SortByKey, Text("overall")) && all[5] == (SortOrderKey, Text("desc"));
    assert all[7] == (LimitKey, Number(Int(Limit)));
  }

  /** The name is sent, trimmed, exactly when it is not blank. */
  lemma SentName(form: Form, page: Num, seasons: seq<string>)
    ensures (NameKey, Text(Trim(form.name))) in Cleaned(SearchFilters(form, page, seasons)) <==> Trim(form.name) != ""
  {
    var all := SearchFilters(form, page, seasons);
    assert all[0] == (NameKey, Text(Trim(form.name)));
  }

  /** The position is sent exactly when one is chosen. */
  lemma SentPosition(form: Form, page: Num, seasons: seq<string>)
    ensures (PositionKey, Text(form.position)) in Cleaned(SearchFilters(form, page, seasons)) <==> form.position != ""
  {
    var all := SearchFilters(form, page, seasons);
    assert all[1] == (PositionKey, Text(form.position));
  }

  /** Each overall bound is sent, as typed, exactly when not empty. */
  lemma SentOverallBounds(form: Form, page: Num, seasons: seq<string>)
    ensures var sent := Cleaned(SearchFilters(form, page, seasons));
            && ((MinOverallKey, Text(form.minOverall)) in sent <==> form.minOverall != "")
            && ((MaxOverallKey, Text(form.maxOverall)) in sent <==> form.maxOverall != "")
  {
    var all := SearchFilters(form, page, seasons);
    assert all[2] == (MinOverallKey, Text(form.minOverall)) && all[3] == (MaxOverallKey, Text(form.maxOverall));
  }

  /** The page is sent when it is a non-zero number. */
  lemma SentPage(form: Form, page: Num, seasons: seq<string>)
    ensures (PageKey, Number(page)) in Cleaned(SearchFilters(form, page, seasons)) <==> NumTruthy(page)
  {
    var all := SearchFilters(form, page, seasons);
    assert all[6] == (PageKey, Number(page));
  }

  /** The chosen seasons, joined by commas, are sent when there are some. */
  lemma SentSeasons(form: Form, page: Num, seasons: seq<string>)
    ensures (SeasonsKey, Text(Join(seasons, ","))) in Cleaned(SearchFilters(form, page, seasons))
            <==> |seasons| > 0 && Join(seasons, ",") != ""
  {
    var all := SearchFilters(form, page, seasons);
    if |seasons| > 0 {
      assert all[8] == (SeasonsKey, Text(Join(seasons, ",")));
    }
  }

  // ---------------------------------------------------------------------
  // Season chips and the URL
  // ---------------------------------------------------------------------

  /** A click on a season chip: remove every occurrence, or append it. */
  function Toggle(selected: seq<string>, season: string): (r: seq<string>)
    ensures season in r <==> season !in selected
    ensures forall x :: x != season ==> (x in r <==> x in selected)
    ensures NoDuplicates(selected) ==> NoDuplicates(r)
  {
    if season in selected then
      var r := Exclude(selected, [season]);
      assert NoDuplicates(selected) ==> NoDuplicates(r) by {
        if NoDuplicates(selected) {
          ExcludeKeepsDistinct(selected, [season]);
        }
      }
      r
    else
      var r := selected + [season];
      assert NoDuplicates(selected) ==> NoDuplicates(r) by {
        if NoDuplicates(selected) {
          forall i, j | 0 <= i < j < |r| ensures r[i] != r[j] {
            if j == |selected| {
              assert r[i] == selected[i];
            }
          }
        }
      }
      r
  }

  /** Filtering keeps no duplicates. */
  lemma {:induction false} ExcludeKeepsDistinct(xs: seq<string>, excluded: seq<string>)
    requires NoDuplicates(xs)
    ensures NoDuplicates(Exclude(xs, excluded))
  {
    if xs != [] {
      assert NoDuplicates(xs[1..]);
      ExcludeKeepsDistinct(xs[1..], excluded);
    }
  }

  /**
   * Two clicks on the same chip restore the chosen set; when the season was
   * not chosen, they restore the list itself.
   */
  lemma {:induction false} ToggleTwice(selected: seq<string>, season: string)
    ensures forall x :: x in Toggle(Toggle(selected, season), season) <==> x in selected
    ensures season !in selected ==> Toggle(Toggle(selected, season), season) == selected
  {
    if season !in selected {
      ExcludeAppend(selected, [season], [season]);
      ExcludeNone(selected, [season]);
      assert Exclude([season], [season]) == [];
    }
  }

  /** `seasons.split(',').filter(s => s.trim())`: blank parts dropped, others kept as they are. */
  function NonBlank(parts: seq<string>): (r: seq<string>)
    ensures forall x :: x in r <==> x in parts && Trim(x) != ""
  {
    if parts == [] then []
    else
      var rest := NonBlank(parts[1..]);
      assert forall x :: x in parts <==> x == parts[0] || x in parts[1..];
      if Trim(parts[0]) != "" then [parts[0]] + rest else rest
  }

  /** The chosen seasons as read back from the URL. */
  function SeasonsFromUrl(seasons: string): seq<string> {
    NonBlank(Split(seasons, ","))
  }

  /** Parts that are all non-blank are all kept. */
  lemma {:induction false} NonBlankAll(parts: seq<string>)
    requires forall i :: 0 <= i < |parts| ==> Trim(parts[i]) != ""
    ensures NonBlank(parts) == parts
  {
    if parts != [] {
      NonBlankAll(parts[1..]);
    }
  }

  /**
   * The seasons the page writes into the URL, joined by commas, are read
   * back as the same list, when no season is blank or holds a comma.
   */
  lemma UrlSeasonsRoundTrip(selected: seq<string>)
    requires |selected| >= 1
    requires forall i :: 0 <= i < |selected| ==> Trim(selected[i]) != "" && !Contains(selected[i], ",")
    ensures SeasonsFromUrl(Join(selected, ",")) == selected
  {
    SplitJoin(selected, ",");
    NonBlankAll(selected);
  }

  // ---------------------------------------------------------------------
  // The page's state
  // ---------------------------------------------------------------------

  /** The window of page numbers, as `displayPagination` computes it. */
  method PageWindow(page: int, pages: int) returns (startPage: int, endPage: int)
    ensures (startPage, endPage) == Window(page, pages)
  {
    startPage := Max(1, page - MaxPages / 2);
    endPage := Min(pages, startPage + MaxPages - 1);
    if endPage - startPage < MaxPages - 1 {
      startPage := Max(1, endPage - MaxPages + 1);
    }
  }

  /** The `for` loop of `displayPagination`: one button per page of the window. */
  method AppendButtons(items: seq<PageItem>, startPage: int, endPage: int, page: int)
    returns (r: seq<PageItem>)
    ensures r == items + Buttons(startPage, endPage, page)
  {
    r := items;
    var i := startPage;
    while i <= endPage
      invariant startPage <= i && (i <= endPage + 1 || i == startPage)
      invariant r == items + Buttons(startPage, i - 1, page)
    {
      r := r + [PageButton(i, i == page)];
      i := i + 1;
    }
  }

  /**
   * `displayPagination` for the server's `page` and `pages`: the state of
   * Previous and Next and the row of page numbers between them.
   */
  method DisplayPagination(page: int, pages: int) returns (bar: Bar)
    ensures bar == Pagination(page, pages)
  {
    var startPage, endPage := PageWindow(page, pages);
    var first: seq<PageItem> := [];
    if startPage > 1 {
      first := first + [PageButton(1, 1 == page)];
      if startPage > 2 {
        first := first + [Ellipsis];
      }
    }
    assert first == Leading(startPage, page);
    var items := AppendButtons(first, startPage, endPage, page);
    var last: seq<PageItem> := [];
    if endPage < pages {
      if endPage < pages - 1 {
        last := last + [Ellipsis];
      }
      last := last + [PageButton(pages, pages == page)];
    }
    assert last == Trailing(endPage, pages, page);
    items := items + last;
    bar := Bar(page == 1, items, page == pages);
  }

  /** Whether the Previous and Next buttons are disabled. */
  predicate PrevDisabled(page: int) { page == 1 }
  predicate NextDisabled(page: int, pages: int) { page == pages }

  class SearchPageState {
    var currentPage: Num
    var selectedSeasons: seq<string>
    /** The filter object last sent, keys in insertion order. */
    var currentFilters: Filters

    constructor()
      ensures currentPage == Int(1) && selectedSeasons == [] && currentFilters == []
    {
      currentPage := Int(1);
      selectedSeasons := [];
      currentFilters := [];
    }

    /**
     * `performSearch`'s client side: build the filter object from the form
     * and the state, then delete each key whose value is falsy, sort keys
     * excepted. Fetching and rendering the results is left out.
     */
    method PerformSearch(form: Form)
      modifies this`currentFilters
      ensures currentFilters == Cleaned(SearchFilters(form, currentPage, selectedSeasons))
    {
      var filters := SearchFilters(form, currentPage, selectedSeasons);
      var kept: Filters := [];
      var i := 0;
      while i < |filters|
        invariant 0 <= i <= |filters|
        invariant kept == Cleaned(filters[..i])
      {
        assert filters[..i + 1][..i] == filters[..i];
        if Kept(filters[i]) {
          kept := kept + [filters[i]];
        }
        i := i + 1;
      }
      assert filters[..|filters|] == filters;
      currentFilters := kept;
    }

    /** The search button, Enter in the name field and a filter change. */
    method Search(form: Form)
      modifies this
      ensures currentPage == Int(1) && selectedSeasons == old(selectedSeasons)
      ensures currentFilters == Cleaned(SearchFilters(form, Int(1), selectedSeasons))
    {
      currentPage := Int(1);
      PerformSearch(form);
    }

    /** `handleQuickSeasonClick(season)`: toggle the chip and search from page 1. */
    method HandleQuickSeasonClick(season: string, form: Form)
      modifies this
      ensures selectedSeasons == Toggle(old(selectedSeasons), season)
      ensures currentPage == Int(1)
      ensures currentFilters == Cleaned(SearchFilters(form, Int(1), selectedSeasons))
    {
      if season in selectedSeasons {
        selectedSeasons := Exclude(selectedSeasons, [season]);
      } else {
        selectedSeasons := selectedSeasons + [season];
      }
      currentPage := Int(1);
      PerformSearch(form);
    }

    /** `clearFilters`: empty form, no season, page 1. */
    method ClearFilters() returns (form: Form)
      modifies this
      ensures form == EmptyForm
      ensures selectedSeasons == [] && currentPage == Int(1)
      ensures currentFilters == Cleaned(SearchFilters(form, Int(1), []))
    {
      form := EmptyForm;
      selectedSeasons := [];
      currentPage := Int(1);
      PerformSearch(form);
    }

    /**
     * `loadUrlParams`: each non-empty parameter fills its form field; the
     * seasons parameter sets the chosen seasons and the page parameter the
     * current page (`parseInt`, so possibly NaN).
     */
    method LoadUrlParams(params: map<string, string>, form: Form) returns (filled: Form)
      modifies this
      ensures filled.name == if "name" in params && params["name"] != "" then params["name"] else form.name
      ensures filled.position == if "position" in params && params["position"] != "" then params["position"] else form.position
      ensures filled.minOverall == if "minOverall" in params && params["minOverall"] != "" then params["minOverall"] else form.minOverall
      ensures filled.maxOverall == if "maxOverall" in params && params["maxOverall"] != "" then params["maxOverall"] else form.maxOverall
      ensures selectedSeasons == if "seasons" in params && params["seasons"] != "" then SeasonsFromUrl(params["seasons"]) else old(selectedSeasons)
      ensures currentPage == if "page" in params && params["page"] != "" then ParseInt(params["page"]) else old(currentPage)
      ensures currentFilters == old(currentFilters)
    {
      filled := form;
      if "name" in params && params["name"] != "" {
        filled := filled.(name := params["name"]);
      }
      if "position" in params && params["position"] != "" {
        filled := filled.(position := params["position"]);
      }
      if "seasons" in params && params["seasons"] != "" {
        selectedSeasons := SeasonsFromUrl(params["seasons"]);
      }
      if "minOverall" in params && params["minOverall"] != "" {
        filled := filled.(minOverall := params["minOverall"]);
      }
      if "maxOverall" in params && params["maxOverall"] != "" {
        filled := filled.(maxOverall := params["maxOverall"]);
      }
      if "page" in params && params["page"] != "" {
        currentPage := ParseInt(params["page"]);
      }
    }

    /**
     * Previous: moves back one page when past the first; a disabled button
     * changes nothing. From a page in range it lands on a page in range.
     */
    method PreviousClicked(page: int, pages: int, form: Form)
      modifies this
      ensures currentPage == if page > 1 then Int(page - 1) else old(currentPage)
      ensures 1 <= page <= pages && !PrevDisabled(page) ==> currentPage == Int(page - 1) && 1 <= page - 1 <= pages
      ensures PrevDisabled(page) ==> currentPage == old(currentPage) && currentFilters == old(currentFilters)
      ensures selectedSeasons == old(selectedSeasons)
      ensures page > 1 ==> currentFilters == Cleaned(SearchFilters(form, currentPage, selectedSeasons))
      ensures page <= 1 ==> currentFilters == old(currentFilters)
    {
      if page > 1 {
        currentPage := Int(page - 1);
        PerformSearch(form);
      }
    }

    /**
     * Next: moves forward one page when before the last; a disabled button
     * changes nothing. From a page in range it lands on a page in range.
     */
    method NextClicked(page: int, pages: int, form: Form)
      modifies this
      ensures currentPage == if page < pages then Int(page + 1) else old(currentPage)
      ensures 1 <= page <= pages && !NextDisabled(page, pages) ==> currentPage == Int(page + 1) && 1 <= page + 1 <= pages
      ensures NextDisabled(page, pages) ==> currentPage == old(currentPage) && currentFilters == old(currentFilters)
      ensures selectedSeasons == old(selectedSeasons)
      ensures page < pages ==> currentFilters == Cleaned(SearchFilters(form, currentPage, selectedSeasons))
      ensures page >= pages ==> currentFilters == old(currentFilters)
    {
      if page < pages {
        currentPage := Int(page + 1);
        PerformSearch(form);
      }
    }

    /** A page-number button: go to that page. */
    method PageClicked(pageNum: int, form: Form)
      modifies this
      ensures currentPage == Int(pageNum) && selectedSeasons == old(selectedSeasons)
      ensures currentFilters == Cleaned(SearchFilters(form, Int(pageNum), selectedSeasons))
    {
      currentPage := Int(pageNum);
      PerformSearch(form);
    }
  }
}
