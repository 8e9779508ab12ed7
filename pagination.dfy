/**
  The page selector of `src/components/ui/Pagination.tsx`: whether it shows,
  what its previous and next buttons emit, and the list of page buttons —
  page 1, an optional ellipsis, a window of at most three pages around the
  current one, another optional ellipsis, and the last page. In that list
  `-1` and `-2` stand for the two ellipses.
 */
module Pagination {
  import opened Wrappers

  /** The control renders nothing with one page or none. */
  predicate Renders(totalPages: int) {
    totalPages > 1
  }

  /** `handlePrevious`: the page requested, if any. */
  function Previous(currentPage: int): (r: Option<int>)
    ensures r.Some? <==> currentPage > 1
    ensures r.Some? ==> r.value == currentPage - 1 && r.value >= 1
  {
    if currentPage > 1 then Some(currentPage - 1) else None
  }

  /** `handleNext`: the page requested, if any. */
  function Next(currentPage: int, totalPages: int): (r: Option<int>)
    ensures r.Some? <==> currentPage < totalPages
    ensures r.Some? ==> r.value == currentPage + 1 && r.value <= totalPages
  {
    if currentPage < totalPages then Some(currentPage + 1) else None
  }

  /** From a page in range, the previous and next buttons only request pages in range. */
  lemma StepsStayInRange(currentPage: int, totalPages: int)
    requires 1 <= currentPage <= totalPages
    ensures Previous(currentPage).Some? ==> 1 <= Previous(currentPage).value <= totalPages
    ensures Next(currentPage, totalPages).Some? ==> 1 <= Next(currentPage, totalPages).value <= totalPages
  {
  }

  function Max(a: int, b: int): int { if a >= b then a else b }
  function Min(a: int, b: int): int { if a <= b then a else b }

  /**
    The window `[startPage, endPage]` of middle pages: one page either side of
    the current one, widened to three pages when it touches either end. It
    lies strictly between page 1 and the last page, spans at most three pages,
    is empty only when there are just two pages, and holds the current page
    when that page is a middle one.
   */
  function Window(currentPage: int, totalPages: int): (r: (int, int))
    requires totalPages >= 2
    ensures 2 <= r.0 && r.1 <= totalPages - 1
    ensures r.1 - r.0 <= 2
    ensures r.0 <= r.1 || totalPages == 2
    ensures 2 <= currentPage <= totalPages - 1 ==> r.0 <= currentPage <= r.1
  {
    var startPage := Max(2, currentPage - 1);
    var endPage := Min(totalPages - 1, currentPage + 1);
    if endPage - startPage < 2 then
      if startPage == 2 then (startPage, Min(4, totalPages - 1))
      else if endPage == totalPages - 1 then (Max(2, totalPages - 3), endPage)
      else (startPage, endPage)
    else (startPage, endPage)
  }

  /** Far from both ends the window is the current page and its two neighbours. */
  lemma WindowAroundCurrent(currentPage: int, totalPages: int)
    requires 4 <= currentPage <= totalPages - 3
    ensures Window(currentPage, totalPages) == (currentPage - 1, currentPage + 1)
  {
  }

  /** With five pages or more, the window always holds three pages. */
  lemma WindowFull(currentPage: int, totalPages: int)
    requires totalPages >= 5
    ensures Window(currentPage, totalPages).1 - Window(currentPage, totalPages).0 == 2
  {
  }

  /** The pages `a..b`, in order (empty when `b < a`). */
  function Range(a: int, b: int): (r: seq<int>)
    ensures |r| == if b >= a then b - a + 1 else 0
    ensures forall k :: 0 <= k < |r| ==> r[k] == a + k
  {
    seq(if b >= a then b - a + 1 else 0, k => a + k)
  }

  /** The button list for a window: first page, optional ellipsis, window, optional ellipsis, last page. */
  function Layout(startPage: int, endPage: int, totalPages: int): seq<int> {
    [1] + (if startPage > 2 then [-1] else []) + Range(startPage, endPage)
    + (if endPage < totalPages - 1 then [-2] else []) + [totalPages]
  }

  /** What the list holds: page 1 and the last page around the window, and an ellipsis for each gap. */
  lemma LayoutContents(startPage: int, endPage: int, totalPages: int)
    requires 2 <= startPage && endPage <= totalPages - 1 && endPage - startPage <= 2 && totalPages >= 2
    ensures var l := Layout(startPage, endPage, totalPages);
      |l| >= 2 && l[0] == 1 && l[|l| - 1] == totalPages && |l| <= 7
      && (forall i :: 0 <= i < |l| ==> l[i] == -1 || l[i] == -2 || 1 <= l[i] <= totalPages)
      && (forall p :: p > 0 ==> (p in l <==> p == 1 || p == totalPages || startPage <= p <= endPage))
      && (-1 in l <==> startPage > 2) && (-1 in l ==> l[1] == -1)
      && (-2 in l <==> endPage < totalPages - 1) && (-2 in l ==> l[|l| - 2] == -2)
  {
    var head := [1] + (if startPage > 2 then [-1] else []);
    var mid := Range(startPage, endPage);
    var tail := (if endPage < totalPages - 1 then [-2] else []) + [totalPages];
    var l := Layout(startPage, endPage, totalPages);
    assert l == head + mid + tail;
    forall i | 0 <= i < |l|
      ensures l[i] == -1 || l[i] == -2 || 1 <= l[i] <= totalPages
    {
      if i < |head| {
        assert l[i] == head[i];
      } else if i < |head| + |mid| {
        assert l[i] == mid[i - |head|];
      } else {
        assert l[i] == tail[i - |head| - |mid|];
      }
    }
    forall p | startPage <= p <= endPage
      ensures p in l
    {
      assert l[|head| + p - startPage] == p;
    }
  }

  /** The real page numbers of the list strictly increase from left to right. */
  lemma LayoutIncreasing(startPage: int, endPage: int, totalPages: int)
    requires 2 <= startPage && endPage <= totalPages - 1 && totalPages >= 2
    ensures var l := Layout(startPage, endPage, totalPages);
      forall i, j :: 0 <= i < j < |l| && l[i] > 0 && l[j] > 0 ==> l[i] < l[j]
  {
    var head := [1] + (if startPage > 2 then [-1] else []);
    var mid := Range(startPage, endPage);
    var tail := (if endPage < totalPages - 1 then [-2] else []) + [totalPages];
    var l := Layout(startPage, endPage, totalPages);
    assert l == head + mid + tail;
    forall i, j | 0 <= i < j < |l| && l[i] > 0 && l[j] > 0
      ensures l[i] < l[j]
    {
      if i < |head| {
        assert l[i] == 1;
        if j < |head| + |mid| {
          assert l[j] == mid[j - |head|];
        }
      } else if j >= |head| + |mid| {
        assert l[j] == totalPages;
        if i < |head| + |mid| {
          assert l[i] == mid[i - |head|];
        }
      } else {
        assert l[i] == mid[i - |head|] && l[j] == mid[j - |head|];
      }
    }
  }

  /** The properties of the button list for the window around `currentPage`. */
  lemma PageNumbersProperties(currentPage: int, totalPages: int, pages: seq<int>)
    requires Renders(totalPages)
    requires pages == Layout(Window(currentPage, totalPages).0, Window(currentPage, totalPages).1, totalPages)
    ensures |pages| >= 2 && pages[0] == 1 && pages[|pages| - 1] == totalPages
    ensures |pages| <= 7
    ensures forall i :: 0 <= i < |pages| ==> pages[i] == -1 || pages[i] == -2 || 1 <= pages[i] <= totalPages
    ensures forall i, j :: 0 <= i < j < |pages| && pages[i] > 0 && pages[j] > 0 ==> pages[i] < pages[j]
    ensures forall p :: p > 0 ==>
      (p in pages <==> p == 1 || p == totalPages || Window(currentPage, totalPages).0 <= p <= Window(currentPage, totalPages).1)
    ensures -1 in pages <==> Window(currentPage, totalPages).0 > 2
    ensures -1 in pages ==> pages[1] == -1
    ensures -2 in pages <==> Window(currentPage, totalPages).1 < totalPages - 1
    ensures -2 in pages ==> pages[|pages| - 2] == -2
    ensures 1 <= currentPage <= totalPages ==> currentPage in pages
  {
    var (startPage, endPage) := Window(currentPage, totalPages);
    LayoutContents(startPage, endPage, totalPages);
    LayoutIncreasing(startPage, endPage, totalPages);
  }

  /** A layout entry's button: an ellipsis (-1 or -2) is plain text, a page number asks for that page. */
  function PageButton(entry: int): (r: Option<int>)
    ensures r.Some? <==> entry != -1 && entry != -2
    ensures r.Some? ==> r.value == entry
  {
    if entry == -1 || entry == -2 then None else Some(entry)
  }

  /** Every page button of the control asks for a page in range, and the current page has one. */
  lemma PageButtonsInRange(currentPage: int, totalPages: int)
    requires Renders(totalPages)
    ensures var pages := Layout(Window(currentPage, totalPages).0, Window(currentPage, totalPages).1, totalPages);
      (forall i :: 0 <= i < |pages| && PageButton(pages[i]).Some? ==> 1 <= PageButton(pages[i]).value <= totalPages)
      && (1 <= currentPage <= totalPages ==> exists i :: 0 <= i < |pages| && PageButton(pages[i]) == Some(currentPage))
  {
    var pages := Layout(Window(currentPage, totalPages).0, Window(currentPage, totalPages).1, totalPages);
    PageNumbersProperties(currentPage, totalPages, pages);
    if 1 <= currentPage <= totalPages {
      var i :| 0 <= i < |pages| && pages[i] == currentPage;
      assert PageButton(pages[i]) == Some(currentPage);
    }
  }

  /**
    `getPageNumbers()`, with its `for` loop over the window: it builds the
    layout of the window around `currentPage`, whose properties
    `PageNumbersProperties` states.
   */
  method GetPageNumbers(currentPage: int, totalPages: int) returns (pages: seq<int>)
    requires Renders(totalPages)
    ensures pages == Layout(Window(currentPage, totalPages).0, Window(currentPage, totalPages).1, totalPages)
  {
    var (startPage, endPage) := Window(currentPage, totalPages);
    pages := [1];
    if startPage > 2 {
      pages := pages + [-1];
    }
    ghost var head := pages;
    var i := startPage;
    while i <= endPage
      invariant startPage <= i <= endPage + 1
      invariant pages == head + Range(startPage, i - 1)
    {
      RangeSnoc(startPage, i);
      pages := pages + [i];
      i := i + 1;
    }
    ghost var mid := pages;
    if endPage < totalPages - 1 {
      pages := pages + [-2];
    }
    pages := pages + [totalPages];
    LayoutParts(startPage, endPage, totalPages, head, mid, pages);
  }

  /** Extending the range by its next page. */
  lemma RangeSnoc(a: int, b: int)
    requires a <= b
    ensures Range(a, b - 1) + [b] == Range(a, b)
  {
  }

  /** The list the method builds, piece by piece, is the layout. */
  lemma LayoutParts(startPage: int, endPage: int, totalPages: int, head: seq<int>, mid: seq<int>, pages: seq<int>)
    requires head == [1] + (if startPage > 2 then [-1] else [])
    requires mid == head + Range(startPage, endPage)
    requires pages == mid + (if endPage < totalPages - 1 then [-2] else []) + [totalPages]
    ensures pages == Layout(startPage, endPage, totalPages)
  {
  }
}
