/**
  The public opportunities page, `src/app/opportunities/page.tsx`: the five
  filters and the page number it holds, the query it hands to
  `useOpportunities`, resetting, paging and retrying, and which of skeletons,
  error, empty state, results, summary and page selector it shows.
 */
module OpportunitiesPage {
  import opened Wrappers
  import opened Opportunities
  import Pagination
  import OpportunityExamples

  /** The page asks for six opportunities at a time. */
  const PageSize := 6

  datatype FilterField = Search | Category | Location | FromDate | ToDate

  /** The category and location values offered by the filter menus. */
  const CategoryOptions := ["Translation", "Guidance", "Assistance", "Services", "Education"]
  const LocationOptions := ["Makkah", "Madinah", "Jeddah"]

  class OpportunitiesPage {
    var search: string
    var category: string
    var location: string
    var fromDate: string
    var toDate: string
    var page: int
    /** The query the hook's effect last ran for, and how many fetches it has started. */
    var lastFetched: Option<OpportunityQuery>
    var fetchCount: nat

    /** The query handed to `useOpportunities`. */
    function Query(): (r: OpportunityQuery)
      reads this
      ensures r.pageSize == PageSize && r.page == page
    {
      OpportunityQuery(search, category, location, fromDate, toDate, page, PageSize)
    }

    predicate FiltersCleared()
      reads this
    {
      search == "" && category == "" && location == "" && fromDate == "" && toDate == ""
    }

    /** A fresh page: no filters, page 1, nothing fetched yet. */
    constructor()
      ensures FiltersCleared() && page == 1
      ensures Query() == OpportunityQuery("", "", "", "", "", 1, 6)
      ensures lastFetched.None? && fetchCount == 0
    {
      search, category, location, fromDate, toDate := "", "", "", "", "";
      page := 1;
      lastFetched := None;
      fetchCount := 0;
    }

    function Get(f: FilterField): string
      reads this
    {
      match f
      case Search => search
      case Category => category
      case Location => location
      case FromDate => fromDate
      case ToDate => toDate
    }

    /**
      A filter control changes one filter. When its value really changes, the
      reset effect puts the page back to 1; setting the same value changes nothing.
     */
    method SetFilter(f: FilterField, v: string)
      modifies this
      ensures Get(f) == v
      ensures forall g :: g != f ==> Get(g) == old(Get(g))
      ensures page == if v != old(Get(f)) then 1 else old(page)
      ensures lastFetched == old(lastFetched) && fetchCount == old(fetchCount)
    {
      var changed := v != Get(f);
      match f {
        case Search => search := v;
        case Category => category := v;
        case Location => location := v;
        case FromDate => fromDate := v;
        case ToDate => toDate := v;
      }
      if changed {
        page := 1;
      }
    }

    /** `handleReset`: every filter cleared and page 1. */
    method HandleReset()
      modifies this
      ensures FiltersCleared() && page == 1
      ensures Query() == OpportunityQuery("", "", "", "", "", 1, 6)
      ensures lastFetched == old(lastFetched) && fetchCount == old(fetchCount)
    {
      search, category, location, fromDate, toDate := "", "", "", "", "";
      page := 1;
    }

    /** `handlePageChange`: the requested page, filters untouched. */
    method HandlePageChange(newPage: int)
      modifies this
      ensures page == newPage
      ensures forall g :: Get(g) == old(Get(g))
      ensures lastFetched == old(lastFetched) && fetchCount == old(fetchCount)
    {
      page := newPage;
    }

    /** `handleRetry`: sets the page to the page it already is, so the query stays the same. */
    method HandleRetry()
      modifies this
      ensures Query() == old(Query())
      ensures lastFetched == old(lastFetched) && fetchCount == old(fetchCount)
    {
      page := page;
    }

    /**
      After a render the hook's effect runs again exactly when one of its
      parameters differs from the last run; it then starts one more fetch.
     */
    method CommitEffects() returns (fetched: bool)
      modifies this
      ensures fetched <==> old(lastFetched) != Some(Query())
      ensures lastFetched == Some(Query())
      ensures fetchCount == old(fetchCount) + (if fetched then 1 else 0)
      ensures search == old(search) && category == old(category) && location == old(location)
      ensures fromDate == old(fromDate) && toDate == old(toDate) && page == old(page)
    {
      fetched := lastFetched != Some(Query());
      if fetched {
        fetchCount := fetchCount + 1;
        lastFetched := Some(Query());
      }
    }
  }

  /** A retry after the current query has been fetched starts no new fetch. */
  method RetryScenario(p: OpportunitiesPage) returns (fetched: bool)
    requires p.lastFetched == Some(p.Query())
    modifies p
    ensures !fetched
    ensures p.fetchCount == old(p.fetchCount)
  {
    p.HandleRetry();
    fetched := p.CommitEffects();
  }

  // ---------------------------------------------------------------------------
  // What the page shows
  // ---------------------------------------------------------------------------

  datatype Body = Skeletons(count: nat) | ErrorState | EmptyState | Cards(items: seq<Opportunity>)

  /** Six skeleton cards while loading; then the error; then the empty state; then the cards. */
  function BodyOf(opportunities: seq<Opportunity>, loading: bool, error: Option<string>): (r: Body)
    ensures r.Skeletons? <==> loading
    ensures r.Skeletons? ==> r.count == PageSize
    ensures r.ErrorState? <==> !loading && error.Some?
    ensures r.EmptyState? <==> !loading && error.None? && |opportunities| == 0
    ensures r.Cards? <==> !loading && error.None? && |opportunities| > 0
    ensures r.Cards? ==> r.items == opportunities
  {
    if loading then Skeletons(PageSize)
    else if error.Some? then ErrorState
    else if |opportunities| == 0 then EmptyState
    else Cards(opportunities)
  }

  /** The results summary: the count on this page and the total it reports, shown only beside the cards. */
  function Summary(opportunities: seq<Opportunity>, loading: bool, error: Option<string>, totalPages: int): (r: Option<(nat, int)>)
    ensures r.Some? <==> BodyOf(opportunities, loading, error).Cards?
    ensures r.Some? ==> r.value == (|opportunities|, totalPages * PageSize)
  {
    if !loading && error.None? && |opportunities| > 0 then Some((|opportunities|, totalPages * PageSize)) else None
  }

  /** The page selector is shown when not loading, without error, and with more than one page. */
  predicate ShowsPagination(loading: bool, error: Option<string>, totalPages: int) {
    !loading && error.None? && totalPages > 1
  }

  /** Whenever the page shows the selector, the selector itself renders. */
  lemma PaginationAgrees(loading: bool, error: Option<string>, totalPages: int)
    ensures ShowsPagination(loading, error, totalPages) <==> !loading && error.None? && Pagination.Renders(totalPages)
  {
  }

  /**
    The summary's total is the page count times six, not the number of
    matches: it is never below the true count, exceeds it by at most five,
    and equals it exactly when the count is a multiple of six.
   */
  lemma SummaryTotalRoundsUp(matches: nat)
    ensures var reported := TotalPages(matches, PageSize) * PageSize;
      matches <= reported < matches + PageSize && (reported == matches <==> matches % PageSize == 0)
  {
    var t := TotalPages(matches, PageSize);
    if matches % PageSize == 0 {
      assert matches == (matches / PageSize) * PageSize;
      assert t == matches / PageSize;
    }
  }

  /** Every mock opportunity's category and location is one the menus offer. */
  lemma MockValuesOffered()
    ensures forall k :: 0 <= k < |MockOpportunities()| ==> MockOpportunities()[k].category in CategoryOptions
    ensures forall k :: 0 <= k < |MockOpportunities()| ==> MockOpportunities()[k].location in LocationOptions
  {
  }

  /** The first load lists all six mock opportunities on one page, without a selector. */
  method FirstVisit(p: OpportunitiesPage, hook: OpportunitiesHook) returns (first: Body, selector: bool)
    requires p.FiltersCleared() && p.page == 1 && hook.error.None?
    modifies p, hook
    ensures first == Cards(MockOpportunities())
    ensures !selector
    ensures p.FiltersCleared() && hook.error.None?
  {
    var fetched := p.CommitEffects();
    var q := p.Query();
    assert q == OpportunityQuery("", "", "", "", "", 1, 6);
    NoFiltersKeepAll(MockOpportunities(), q);
    hook.CompleteFetch(MockOpportunities(), q);
    MockUnfilteredIsOnePage();
    assert hook.opportunities == MockOpportunities();
    first := BodyOf(hook.opportunities, hook.loading, hook.error);
    selector := ShowsPagination(hook.loading, hook.error, hook.totalPages);
  }

  /** Typing "Translation" into the search box fetches again from page 1 and finds the first opportunity alone. */
  method SearchTranslation(p: OpportunitiesPage, hook: OpportunitiesHook) returns (second: Body)
    requires p.FiltersCleared() && hook.error.None?
    modifies p, hook
    ensures second == Cards([MockOpportunities()[0]])
  {
    p.SetFilter(Search, "Translation");
    assert p.Get(Category) == "" && p.Get(Location) == "" && p.Get(FromDate) == "" && p.Get(ToDate) == "";
    var fetched := p.CommitEffects();
    var q := p.Query();
    assert q == OpportunityQuery("Translation", "", "", "", "", 1, 6);
    OpportunityExamples.SearchTranslationFindsOnlyFirst();
    hook.BeginFetch();
    hook.CompleteFetch(MockOpportunities(), q);
    second := BodyOf(hook.opportunities, hook.loading, hook.error);
  }

  /** A first visit followed by a search for "Translation". */
  method BrowseScenario() returns (first: Body, second: Body, selector: bool)
    ensures first == Cards(MockOpportunities())
    ensures !selector
    ensures second == Cards([MockOpportunities()[0]])
  {
    var p := new OpportunitiesPage();
    var hook := new OpportunitiesHook();
    first, selector := FirstVisit(p, hook);
    second := SearchTranslation(p, hook);
  }
}
