/**
  The opportunities list hook: the query that filters the mock opportunities by
  search text, category, location and an inclusive date range, counts the pages,
  and cuts out one 1-based page; and the hook state it fills in.
 */
module Opportunities {
  import opened Wrappers
  import opened Text
  import opened Seqs

  datatype Opportunity = Opportunity(
    id: string,
    title: string,
    description: string,
    image: string,
    location: string,
    date: string,
    spots: int,
    featured: bool,
    category: string)

  /** The hook's parameters as passed; each may be left out. */
  datatype OpportunityParams = OpportunityParams(
    search: Option<string>,
    category: Option<string>,
    location: Option<string>,
    dateFrom: Option<string>,
    dateTo: Option<string>,
    page: Option<int>,
    pageSize: Option<int>)

  /** The parameters after defaults are applied. */
  datatype OpportunityQuery = OpportunityQuery(
    search: string,
    category: string,
    location: string,
    dateFrom: string,
    dateTo: string,
    page: int,
    pageSize: int)

  function OrElse<T>(o: Option<T>, d: T): T {
    if o.Some? then o.value else d
  }

  /** Destructuring with defaults: empty strings, page 1, ten per page. */
  function WithDefaults(p: OpportunityParams): OpportunityQuery {
    OpportunityQuery(OrElse(p.search, ""), OrElse(p.category, ""), OrElse(p.location, ""),
                     OrElse(p.dateFrom, ""), OrElse(p.dateTo, ""), OrElse(p.page, 1), OrElse(p.pageSize, 10))
  }

  lemma DefaultsArePageOneOfTen(p: OpportunityParams)
    requires p.page.None? && p.pageSize.None?
    ensures WithDefaults(p).page == 1 && WithDefaults(p).pageSize == 10
    ensures p.search.None? ==> WithDefaults(p).search == ""
  {
  }

  // ---------------------------------------------------------------------------
  // Dates: `new Date(s)` for calendar dates `YYYY-MM-DD`
  // ---------------------------------------------------------------------------

  function Digit(c: char): nat
    requires IsDigit(c)
  {
    c as int - '0' as int
  }

  /** A `YYYY-MM-DD` string with month 01-12 and day 01-31. */
  predicate IsIsoDate(s: string) {
    |s| == 10
    && IsDigit(s[0]) && IsDigit(s[1]) && IsDigit(s[2]) && IsDigit(s[3]) && s[4] == '-'
    && IsDigit(s[5]) && IsDigit(s[6]) && s[7] == '-' && IsDigit(s[8]) && IsDigit(s[9])
    && 1 <= Digit(s[5]) * 10 + Digit(s[6]) <= 12
    && 1 <= Digit(s[8]) * 10 + Digit(s[9]) <= 31
  }

  /**
    The time value of `new Date(s)`, as a number that orders dates the way their
    time values do; `None` is the invalid date (NaN).
   */
  function DateValue(s: string): (r: Option<int>)
    ensures r.Some? <==> IsIsoDate(s)
  {
    if IsIsoDate(s) then
      var year := Digit(s[0]) * 1000 + Digit(s[1]) * 100 + Digit(s[2]) * 10 + Digit(s[3]);
      var month := Digit(s[5]) * 10 + Digit(s[6]);
      var day := Digit(s[8]) * 10 + Digit(s[9]);
      Some((year * 12 + month) * 32 + day)
    else None
  }

  /** The year, month and day of a valid date, read from its digits. */
  function YearOf(s: string): nat requires IsIsoDate(s) {
    Digit(s[0]) * 1000 + Digit(s[1]) * 100 + Digit(s[2]) * 10 + Digit(s[3])
  }
  function MonthOf(s: string): nat requires IsIsoDate(s) { Digit(s[5]) * 10 + Digit(s[6]) }
  function DayOf(s: string): nat requires IsIsoDate(s) { Digit(s[8]) * 10 + Digit(s[9]) }

  /** Date values order valid dates by year, then month, then day. */
  lemma DateValueChronological(a: string, b: string)
    requires IsIsoDate(a) && IsIsoDate(b)
    ensures DateValue(a).value <= DateValue(b).value <==>
      YearOf(a) < YearOf(b)
      || (YearOf(a) == YearOf(b) && MonthOf(a) < MonthOf(b))
      || (YearOf(a) == YearOf(b) && MonthOf(a) == MonthOf(b) && DayOf(a) <= DayOf(b))
  {
    var ya, ma, da := YearOf(a), MonthOf(a), DayOf(a);
    var yb, mb, db := YearOf(b), MonthOf(b), DayOf(b);
    assert DateValue(a).value == (ya * 12 + ma) * 32 + da;
    assert DateValue(b).value == (yb * 12 + mb) * 32 + db;
    if ya < yb {
      assert ya * 12 + ma < yb * 12 + mb;
    } else if ya > yb {
      assert ya * 12 + ma > yb * 12 + mb;
    }
  }

  /** `new Date(a) >= new Date(b)`: false when either side is an invalid date. */
  predicate OnOrAfter(a: string, b: string) {
    DateValue(a).Some? && DateValue(b).Some? && DateValue(a).value >= DateValue(b).value
  }

  /** `new Date(a) <= new Date(b)` */
  predicate OnOrBefore(a: string, b: string) {
    DateValue(a).Some? && DateValue(b).Some? && DateValue(a).value <= DateValue(b).value
  }

  // ---------------------------------------------------------------------------
  // The filter chain
  // ---------------------------------------------------------------------------

  predicate TextHit(o: Opportunity, search: string) {
    Contains(LowerStr(o.title), LowerStr(search)) || Contains(LowerStr(o.description), LowerStr(search))
  }

  function SearchStage(s: seq<Opportunity>, q: OpportunityQuery): seq<Opportunity> {
    if q.search != "" then Filter(s, (o: Opportunity) => TextHit(o, q.search)) else s
  }

  function CategoryStage(s: seq<Opportunity>, q: OpportunityQuery): seq<Opportunity> {
    if q.category != "" then Filter(s, (o: Opportunity) => o.category == q.category) else s
  }

  function LocationStage(s: seq<Opportunity>, q: OpportunityQuery): seq<Opportunity> {
    if q.location != "" then Filter(s, (o: Opportunity) => o.location == q.location) else s
  }

  function FromStage(s: seq<Opportunity>, q: OpportunityQuery): seq<Opportunity> {
    if q.dateFrom != "" then Filter(s, (o: Opportunity) => OnOrAfter(o.date, q.dateFrom)) else s
  }

  function ToStage(s: seq<Opportunity>, q: OpportunityQuery): seq<Opportunity> {
    if q.dateTo != "" then Filter(s, (o: Opportunity) => OnOrBefore(o.date, q.dateTo)) else s
  }

  /** The five filters applied one after another, each skipped when its parameter is empty. */
  function Filtered(data: seq<Opportunity>, q: OpportunityQuery): seq<Opportunity> {
    ToStage(FromStage(LocationStage(CategoryStage(SearchStage(data, q), q), q), q), q)
  }

  /** The tests of the first one to five filters. */
  predicate PassesUpTo(q: OpportunityQuery, o: Opportunity, n: nat) {
    (q.search == "" || TextHit(o, q.search))
    && (n >= 2 ==> q.category == "" || o.category == q.category)
    && (n >= 3 ==> q.location == "" || o.location == q.location)
    && (n >= 4 ==> q.dateFrom == "" || OnOrAfter(o.date, q.dateFrom))
    && (n >= 5 ==> q.dateTo == "" || OnOrBefore(o.date, q.dateTo))
  }

  /** Reference definition: an opportunity is kept iff it passes every non-empty filter. */
  predicate Matches(q: OpportunityQuery, o: Opportunity) {
    PassesUpTo(q, o, 5)
  }

  /**
    One more stage: if `s` is the filter of `data` by the first `n` tests, the stage
    `f` (skipped unless `active`) makes it the filter by the first `n + 1`.
   */
  lemma Step(data: seq<Opportunity>, s: seq<Opportunity>, q: OpportunityQuery, n: nat, active: bool, f: Opportunity -> bool)
    requires 1 <= n < 5
    requires s == Filter(data, (o: Opportunity) => PassesUpTo(q, o, n))
    requires forall o :: PassesUpTo(q, o, n + 1) == (PassesUpTo(q, o, n) && (!active || f(o)))
    ensures (if active then Filter(s, f) else s) == Filter(data, (o: Opportunity) => PassesUpTo(q, o, n + 1))
  {
    var p := (o: Opportunity) => PassesUpTo(q, o, n);
    var next := (o: Opportunity) => PassesUpTo(q, o, n + 1);
    if active {
      FilterFilter(data, p, f, next);
    } else {
      FilterSamePredicate(data, p, next);
    }
  }

  lemma SearchStageIsFilter(data: seq<Opportunity>, q: OpportunityQuery)
    ensures SearchStage(data, q) == Filter(data, (o: Opportunity) => PassesUpTo(q, o, 1))
  {
    if q.search != "" {
      FilterSamePredicate(data, (o: Opportunity) => TextHit(o, q.search), (o: Opportunity) => PassesUpTo(q, o, 1));
    } else {
      FilterKeepsAll(data, (o: Opportunity) => PassesUpTo(q, o, 1));
    }
  }

  /** The search, category and location stages together filter by the first three tests. */
  lemma FirstThreeStages(data: seq<Opportunity>, q: OpportunityQuery)
    ensures LocationStage(CategoryStage(SearchStage(data, q), q), q) == Filter(data, (o: Opportunity) => PassesUpTo(q, o, 3))
  {
    var s1 := SearchStage(data, q);
    SearchStageIsFilter(data, q);
    var s2 := CategoryStage(s1, q);
    Step(data, s1, q, 1, q.category != "", (o: Opportunity) => o.category == q.category);
    Step(data, s2, q, 2, q.location != "", (o: Opportunity) => o.location == q.location);
  }

  /** The chain of filters is one filter by `Matches`. */
  lemma FilteredIsFilter(data: seq<Opportunity>, q: OpportunityQuery)
    ensures Filtered(data, q) == Filter(data, (o: Opportunity) => Matches(q, o))
  {
    var s3 := LocationStage(CategoryStage(SearchStage(data, q), q), q);
    FirstThreeStages(data, q);
    var s4 := FromStage(s3, q);
    Step(data, s3, q, 3, q.dateFrom != "", (o: Opportunity) => OnOrAfter(o.date, q.dateFrom));
    Step(data, s4, q, 4, q.dateTo != "", (o: Opportunity) => OnOrBefore(o.date, q.dateTo));
    FilterSamePredicate(data, (o: Opportunity) => PassesUpTo(q, o, 5), (o: Opportunity) => Matches(q, o));
  }

  /**
    An opportunity is kept iff it is in the data and: a non-empty search occurs in its
    lower-cased title or description; category and location, when given, are equal;
    its date is on or after `dateFrom` and on or before `dateTo` when those are given.
   */
  lemma FilteredMembership(data: seq<Opportunity>, q: OpportunityQuery, o: Opportunity)
    ensures o in Filtered(data, q) <==>
      o in data
      && (q.search != "" ==> Contains(LowerStr(o.title), LowerStr(q.search)) || Contains(LowerStr(o.description), LowerStr(q.search)))
      && (q.category != "" ==> o.category == q.category)
      && (q.location != "" ==> o.location == q.location)
      && (q.dateFrom != "" ==> DateValue(o.date).Some? && DateValue(q.dateFrom).Some? && DateValue(o.date).value >= DateValue(q.dateFrom).value)
      && (q.dateTo != "" ==> DateValue(o.date).Some? && DateValue(q.dateTo).Some? && DateValue(o.date).value <= DateValue(q.dateTo).value)
  {
    FilteredIsFilter(data, q);
    FilterMembership(data, (o: Opportunity) => Matches(q, o), o);
  }

  /** Filtering keeps the original relative order: nothing is sorted. */
  lemma FilteredKeepsOrder(data: seq<Opportunity>, q: OpportunityQuery)
    ensures IsSubsequence(Filtered(data, q), data)
  {
    FilteredIsFilter(data, q);
    FilterIsSubsequence(data, (o: Opportunity) => Matches(q, o));
  }

  /** With every filter empty the data comes back whole. */
  lemma NoFiltersKeepAll(data: seq<Opportunity>, q: OpportunityQuery)
    requires q.search == "" && q.category == "" && q.location == "" && q.dateFrom == "" && q.dateTo == ""
    ensures Filtered(data, q) == data
  {
  }

  /** A `dateFrom` or `dateTo` that is not a valid date compares false with every date, so nothing is left. */
  lemma InvalidDateBoundEmptiesResult(data: seq<Opportunity>, q: OpportunityQuery)
    requires (q.dateFrom != "" && DateValue(q.dateFrom).None?) || (q.dateTo != "" && DateValue(q.dateTo).None?)
    ensures Filtered(data, q) == []
  {
    var r := Filtered(data, q);
    if |r| > 0 {
      FilteredMembership(data, q, r[0]);
    }
  }

  // ---------------------------------------------------------------------------
  // Page count and page slicing
  // ---------------------------------------------------------------------------

  /** `Math.ceil(count / pageSize)` for a positive page size. */
  function TotalPages(count: nat, pageSize: int): (r: nat)
    requires pageSize >= 1
    ensures r * pageSize >= count
    ensures r == 0 || (r - 1) * pageSize < count
    ensures r == 0 <==> count == 0
  {
    (count + pageSize - 1) / pageSize
  }

  /** `s.slice((page - 1) * pageSize, (page - 1) * pageSize + pageSize)` */
  function PageOf(s: seq<Opportunity>, page: int, pageSize: int): seq<Opportunity> {
    var start := (page - 1) * pageSize;
    JsSlice(s, start, start + pageSize)
  }

  /** A page has at most `pageSize` entries, and page `p` holds positions `(p-1)*pageSize ..`. */
  lemma PageBounds(s: seq<Opportunity>, page: int, pageSize: int)
    requires pageSize >= 0
    ensures |PageOf(s, page, pageSize)| <= pageSize
    ensures page >= 1 ==> forall k :: 0 <= k < |PageOf(s, page, pageSize)| ==>
      PageOf(s, page, pageSize)[k] == s[(page - 1) * pageSize + k]
  {
    var start := (page - 1) * pageSize;
    JsSliceAtMost(s, start, pageSize);
    if page >= 1 {
      JsSliceWindow(s, start, start + pageSize);
    }
  }

  /** Pages `1..k` laid end to end. */
  function PagesUpTo(s: seq<Opportunity>, pageSize: int, k: nat): seq<Opportunity> {
    if k == 0 then [] else PagesUpTo(s, pageSize, k - 1) + PageOf(s, k, pageSize)
  }

  lemma {:induction false} PagesUpToPrefix(s: seq<Opportunity>, pageSize: int, k: nat)
    requires pageSize >= 1
    ensures PagesUpTo(s, pageSize, k) == s[..Clamp(k * pageSize, |s|)]
  {
    if k > 0 {
      PagesUpToPrefix(s, pageSize, k - 1);
      var start := (k - 1) * pageSize;
      MulStep(k, pageSize);
      assert PageOf(s, k, pageSize) == JsSlice(s, start, start + pageSize);
      SliceAsRange(s, start, pageSize);
      PrefixJoin(s, Clamp(start, |s|), Clamp(start + pageSize, |s|));
    }
  }

  /** The smaller of `i` and `n`. */
  function Clamp(i: nat, n: nat): nat {
    if i <= n then i else n
  }

  lemma MulStep(k: nat, n: int)
    requires k > 0
    ensures k * n == (k - 1) * n + n
  {
  }

  /** A slice from a non-negative start is the range between the clamped bounds. */
  lemma SliceAsRange(s: seq<Opportunity>, start: nat, size: nat)
    ensures JsSlice(s, start, start + size) == s[Clamp(start, |s|)..Clamp(start + size, |s|)]
  {
  }

  lemma PrefixJoin(s: seq<Opportunity>, lo: nat, hi: nat)
    requires lo <= hi <= |s|
    ensures s[..lo] + s[lo..hi] == s[..hi]
  {
  }

  /** Concatenating pages `1..totalPages` gives back the filtered list exactly. */
  lemma PagesCoverAll(s: seq<Opportunity>, pageSize: int)
    requires pageSize >= 1
    ensures PagesUpTo(s, pageSize, TotalPages(|s|, pageSize)) == s
  {
    PagesUpToPrefix(s, pageSize, TotalPages(|s|, pageSize));
  }

  /** Pages past the last one are empty. */
  lemma PagePastEndEmpty(s: seq<Opportunity>, page: int, pageSize: int)
    requires pageSize >= 1 && page > TotalPages(|s|, pageSize)
    ensures PageOf(s, page, pageSize) == []
  {
    var t := TotalPages(|s|, pageSize);
    assert (page - 1) * pageSize >= t * pageSize;
  }

  // ---------------------------------------------------------------------------
  // The hook's state
  // ---------------------------------------------------------------------------

  /** What `useOpportunities` holds and returns. */
  class OpportunitiesHook {
    var opportunities: seq<Opportunity>
    var loading: bool
    var error: Option<string>
    var totalPages: int

    /** Before the first load: no opportunities, loading, no error, one page. */
    constructor ()
      ensures opportunities == [] && loading && error == None && totalPages == 1
    {
      opportunities := [];
      loading := true;
      error := None;
      totalPages := 1;
    }

    /** The effect starts a load. */
    method BeginFetch()
      modifies this
      ensures loading
      ensures opportunities == old(opportunities) && totalPages == old(totalPages) && error == old(error)
    {
      loading := true;
    }

    /** The delayed callback: the page of the filtered data and the page count. */
    method CompleteFetch(data: seq<Opportunity>, q: OpportunityQuery)
      requires q.pageSize >= 1
      modifies this
      ensures opportunities == PageOf(Filtered(data, q), q.page, q.pageSize)
      ensures totalPages == TotalPages(|Filtered(data, q)|, q.pageSize)
      ensures !loading && error == old(error)
    {
      var filtered := Filtered(data, q);
      opportunities := PageOf(filtered, q.page, q.pageSize);
      totalPages := TotalPages(|filtered|, q.pageSize);
      loading := false;
    }
  }

  // ---------------------------------------------------------------------------
  // The built-in data
  // ---------------------------------------------------------------------------

  /**
    The six mock opportunities, in their listed order. Long texts are written as
    concatenations of shorter literals; the values are the listed strings.
   */
  function MockOpportunities(): seq<Opportunity> {
    [
      Opportunity("1",
        "Translation Services at " +
        "Grand Mosque",
        "Help visitors by " +
        "providing translation " +
        "services at the Grand " +
        "Mosque during Ramadan.",
        "/images/opportunity1.jpg", "Makkah", "2025-04-20", 25, true, "Translation"),
      Opportunity("2",
        "Visitor Guidance in " +
        "Prophet's Mosque",
        "Assist visitors with " +
        "directions and " +
        "information at the " +
        "Prophet's Mosque.",
        "/images/opportunity2.jpg", "Madinah", "2025-05-10", 15, false, "Guidance"),
      Opportunity("3",
        "Elderly Assistance " +
        "Program",
        "Provide support to " +
        "elderly visitors during " +
        "their visit to the Holy " +
        "Mosques.",
        "/images/opportunity3.jpg", "Makkah", "2025-04-25", 30, true, "Assistance"),
      Opportunity("4",
        "Water Distribution Team",
        "Join the team " +
        "distributing Zamzam " +
        "water to visitors at " +
        "designated areas.",
        "/images/opportunity1.jpg", "Makkah", "2025-05-05", 20, false, "Services"),
      Opportunity("5",
        "Educational Tours Guide",
        "Lead educational tours " +
        "explaining the history " +
        "and significance of the " +
        "Holy Mosques.",
        "/images/opportunity2.jpg", "Madinah", "2025-05-15", 10, true, "Education"),
      Opportunity("6",
        "Lost and Found Services",
        "Help manage the lost " +
        "and found department, " +
        "assisting visitors in " +
        "recovering their " +
        "belongings.",
        "/images/opportunity3.jpg", "Jeddah", "2025-04-30", 12, false, "Services")
    ]
  }

  /** With no filters and six per page, the six built-in opportunities fill exactly one page. */
  lemma MockUnfilteredIsOnePage()
    ensures TotalPages(|Filtered(MockOpportunities(), OpportunityQuery("", "", "", "", "", 1, 6))|, 6) == 1
  {
    NoFiltersKeepAll(MockOpportunities(), OpportunityQuery("", "", "", "", "", 1, 6));
  }
}
