/**
 * The pagination hook: the page count, the clamp that keeps the current page
 * in range, the `[startIndex, endIndex)` window of the current page, the
 * strip of page buttons, and the guarded navigation that moves the page.
 */
module Pagination {

  /** One button of the page strip: a page number, or the `'...'` placeholder. */
  datatype PageLink = Page(number: int) | Ellipsis

  /** The half-open index range `[startIndex, endIndex)` of one page's items. */
  datatype Window = Window(startIndex: int, endIndex: int)

  /** The strip shows every page up to this many pages, and an abridged strip beyond. */
  const MaxFullStrip: nat := 7

  /** `Math.ceil(totalItems / itemsPerPage)`: the fewest pages that hold every item. */
  function TotalPages(totalItems: nat, itemsPerPage: nat): (pages: nat)
    requires itemsPerPage > 0
    ensures totalItems <= pages * itemsPerPage
    ensures pages > 0 ==> (pages - 1) * itemsPerPage < totalItems
    ensures pages == 0 <==> totalItems == 0
  {
    var pages := (totalItems + itemsPerPage - 1) / itemsPerPage;
    var rest := (totalItems + itemsPerPage - 1) % itemsPerPage;
    assert totalItems + itemsPerPage - 1 == pages * itemsPerPage + rest;
    assert pages * itemsPerPage == totalItems + itemsPerPage - 1 - rest;
    assert (pages - 1) * itemsPerPage == pages * itemsPerPage - itemsPerPage;
    pages
  }

  /**
   * The clamp run on every render: a page past the last one becomes the last
   * (only when there are pages), a page below 1 becomes 1, any other page is
   * kept.
   */
  function Clamp(page: int, totalPages: nat): (clamped: int)
    ensures clamped >= 1
    ensures totalPages > 0 ==> clamped <= totalPages
    ensures 1 <= page <= totalPages ==> clamped == page
    ensures page > totalPages > 0 ==> clamped == totalPages
    ensures page < 1 ==> clamped == 1
    ensures totalPages == 0 && page >= 1 ==> clamped == page
  {
    if page > totalPages && totalPages > 0 then totalPages
    else if page < 1 then 1
    else page
  }

  /** A clamped page is left alone by the next render's clamp. */
  lemma ClampIdempotent(page: int, totalPages: nat)
    ensures Clamp(Clamp(page, totalPages), totalPages) == Clamp(page, totalPages)
  {
  }

  /** `paginatedItems`: the window of `currentPage`. */
  function PageWindow(currentPage: int, itemsPerPage: nat): (w: Window)
    ensures w.endIndex - w.startIndex == itemsPerPage
    ensures currentPage >= 1 ==> w.startIndex >= 0
    ensures currentPage == 1 ==> w == Window(0, itemsPerPage)
  {
    var startIndex := (currentPage - 1) * itemsPerPage;
    Window(startIndex, startIndex + itemsPerPage)
  }

  /** A window spans `itemsPerPage` items, and each page's window starts where the previous one ends. */
  lemma {:induction false} WindowsAdjacent(page: int, itemsPerPage: nat)
    ensures PageWindow(page, itemsPerPage).endIndex - PageWindow(page, itemsPerPage).startIndex == itemsPerPage
    ensures PageWindow(page + 1, itemsPerPage).startIndex == PageWindow(page, itemsPerPage).endIndex
  {
    assert page * itemsPerPage == (page - 1) * itemsPerPage + itemsPerPage;
  }

  /** Multiplying by a page size keeps order. */
  lemma MulMonotone(a: int, b: int, itemsPerPage: nat)
    requires a <= b
    ensures a * itemsPerPage <= b * itemsPerPage
  {
    assert b * itemsPerPage - a * itemsPerPage == (b - a) * itemsPerPage;
  }

  /** Item `k` lies in the window of page `k / itemsPerPage + 1`. */
  lemma {:induction false} ItemInItsPage(k: nat, itemsPerPage: nat)
    requires itemsPerPage > 0
    ensures var w := PageWindow(k / itemsPerPage + 1, itemsPerPage);
      w.startIndex <= k < w.endIndex
  {
    var q, r := k / itemsPerPage, k % itemsPerPage;
    assert k == q * itemsPerPage + r;
    assert PageWindow(q + 1, itemsPerPage).startIndex == q * itemsPerPage;
  }

  /** Windows of different pages do not overlap. */
  lemma {:induction false} WindowsDisjoint(k: int, page: int, other: int, itemsPerPage: nat)
    requires PageWindow(page, itemsPerPage).startIndex <= k < PageWindow(page, itemsPerPage).endIndex
    requires PageWindow(other, itemsPerPage).startIndex <= k < PageWindow(other, itemsPerPage).endIndex
    ensures page == other
  {
    WindowsAdjacent(page, itemsPerPage);
    WindowsAdjacent(other, itemsPerPage);
    if other < page {
      MulMonotone(other, page - 1, itemsPerPage);
    } else if other > page {
      MulMonotone(page, other - 1, itemsPerPage);
    }
  }

  /** Every item of the list lies in the window of an in-range page. */
  lemma {:induction false} ItemPageInRange(k: nat, totalItems: nat, itemsPerPage: nat)
    requires itemsPerPage > 0 && k < totalItems
    ensures 1 <= k / itemsPerPage + 1 <= TotalPages(totalItems, itemsPerPage)
  {
    var page := k / itemsPerPage + 1;
    var pages := TotalPages(totalItems, itemsPerPage);
    ItemInItsPage(k, itemsPerPage);
    if page > pages {
      MulMonotone(pages, page - 1, itemsPerPage);
    }
  }

  /** The window of an in-range page starts inside the list. */
  lemma {:induction false} WindowStartsInside(currentPage: int, totalItems: nat, itemsPerPage: nat)
    requires itemsPerPage > 0 && 1 <= currentPage <= TotalPages(totalItems, itemsPerPage)
    ensures 0 <= PageWindow(currentPage, itemsPerPage).startIndex < totalItems
  {
    var pages := TotalPages(totalItems, itemsPerPage);
    assert (currentPage - 1) * itemsPerPage <= (pages - 1) * itemsPerPage by {
      assert currentPage - 1 <= pages - 1;
    }
  }

  /**
   * `pageNumbers`: every page when there are at most seven; otherwise the first
   * seven pages, `...` and the last page near the start, page 1, `...` and the
   * last seven pages near the end, and page 1, `...`, the current page with its
   * two neighbours, `...` and the last page in the middle. Page numbers only
   * rise, stay in range, and the current page, when it exists, is shown.
   */
  function PageNumbers(currentPage: int, totalPages: nat): (links: seq<PageLink>)
    ensures totalPages <= MaxFullStrip ==>
      |links| == totalPages && forall i :: 0 <= i < |links| ==> links[i] == Page(i + 1)
    ensures totalPages > MaxFullStrip ==>
      && |links| == (if currentPage <= 4 || currentPage >= totalPages - 3 then 9 else 7)
      && links[0] == Page(1) && links[|links| - 1] == Page(totalPages)
    ensures forall i, j :: 0 <= i < j < |links| && links[i].Page? && links[j].Page? ==>
      links[i].number < links[j].number
    ensures forall i :: 0 <= i < |links| && links[i].Page? ==> 1 <= links[i].number <= totalPages
    ensures 1 <= currentPage <= totalPages ==> Page(currentPage) in links
  {
    if totalPages <= MaxFullStrip then
      var links := seq(totalPages, i requires 0 <= i < totalPages => Page(i + 1));
      assert 1 <= currentPage <= totalPages ==> links[currentPage - 1] == Page(currentPage);
      links
    else if currentPage <= 4 then
      [Page(1), Page(2), Page(3), Page(4), Page(5), Page(6), Page(7), Ellipsis, Page(totalPages)]
    else if currentPage >= totalPages - 3 then
      [Page(1), Ellipsis, Page(totalPages - 6), Page(totalPages - 5), Page(totalPages - 4),
       Page(totalPages - 3), Page(totalPages - 2), Page(totalPages - 1), Page(totalPages)]
    else
      [Page(1), Ellipsis, Page(currentPage - 1), Page(currentPage), Page(currentPage + 1), Ellipsis, Page(totalPages)]
  }

  /**
   * Between two adjacent page buttons no page is skipped: a skip is always shown
   * by `...`, and `...` is never the last button nor followed by another `...`.
   */
  lemma PageNumbersContiguous(currentPage: int, totalPages: nat)
    ensures var links := PageNumbers(currentPage, totalPages);
      && (forall i :: 0 <= i < |links| - 1 && links[i].Page? && links[i + 1].Page? ==>
            links[i + 1].number == links[i].number + 1)
      && (forall i :: 0 <= i < |links| && links[i].Ellipsis? ==> i < |links| - 1 && links[i + 1].Page?)
  {
  }

  /** The state of the `usePagination` hook: its props and the current page. */
  class Paginator {
    var totalItems: nat
    var itemsPerPage: nat
    var currentPage: int

    /** The props' invariant: a positive page size. */
    ghost predicate Valid()
      reads this
    {
      itemsPerPage > 0
    }

    /** The page count for the current props. */
    function PageCount(): nat
      reads this
      requires Valid()
    {
      TotalPages(totalItems, itemsPerPage)
    }

    /** The current page is a real page. */
    ghost predicate InRange()
      reads this
      requires Valid()
    {
      1 <= currentPage <= PageCount()
    }

    /** First render: the state starts at `initialPage`, by default page 1, and the clamp runs. */
    constructor (totalItems: nat, itemsPerPage: nat, initialPage: int := 1)
      requires itemsPerPage > 0
      ensures Valid()
      ensures this.totalItems == totalItems && this.itemsPerPage == itemsPerPage
      ensures currentPage == Clamp(initialPage, TotalPages(totalItems, itemsPerPage))
      ensures totalItems > 0 ==> InRange()
    {
      this.totalItems := totalItems;
      this.itemsPerPage := itemsPerPage;
      currentPage := initialPage;
      new;
      Normalize();
    }

    /** The clamp as an explicit step: the current page moved into range. */
    method Normalize()
      requires Valid()
      modifies this`currentPage
      ensures Valid()
      ensures currentPage == Clamp(old(currentPage), PageCount())
      ensures PageCount() > 0 ==> InRange()
    {
      if currentPage > PageCount() && PageCount() > 0 {
        currentPage := PageCount();
      } else if currentPage < 1 {
        currentPage := 1;
      }
    }

    /** A later render with new props: the props change and the clamp runs again. */
    method Rerender(totalItems: nat, itemsPerPage: nat)
      requires itemsPerPage > 0
      modifies this
      ensures Valid()
      ensures this.totalItems == totalItems && this.itemsPerPage == itemsPerPage
      ensures currentPage == Clamp(old(currentPage), TotalPages(totalItems, itemsPerPage))
      ensures totalItems > 0 ==> InRange()
    {
      this.totalItems := totalItems;
      this.itemsPerPage := itemsPerPage;
      Normalize();
    }

    /** `goToPage`: moves only to an existing page; otherwise nothing changes. */
    method GoToPage(page: int)
      requires Valid()
      modifies this`currentPage
      ensures Valid()
      ensures currentPage == if 1 <= page <= PageCount() then page else old(currentPage)
      ensures old(InRange()) ==> InRange()
    {
      if page >= 1 && page <= PageCount() {
        currentPage := page;
      }
    }

    /** `goToNextPage`: one page on, only when not on the last page. */
    method GoToNextPage()
      requires Valid()
      modifies this`currentPage
      ensures Valid()
      ensures currentPage == if old(currentPage) < PageCount() then old(currentPage) + 1 else old(currentPage)
      ensures old(InRange()) ==> InRange()
    {
      if currentPage < PageCount() {
        currentPage := currentPage + 1;
      }
    }

    /** `goToPreviousPage`: one page back, only when not on the first page. */
    method GoToPreviousPage()
      requires Valid()
      modifies this`currentPage
      ensures Valid()
      ensures currentPage == if old(currentPage) > 1 then old(currentPage) - 1 else old(currentPage)
      ensures old(InRange()) ==> InRange()
    {
      if currentPage > 1 {
        currentPage := currentPage - 1;
      }
    }

    /** `goToFirstPage`: page 1, which is in range whenever there are pages. */
    method GoToFirstPage()
      requires Valid()
      modifies this`currentPage
      ensures Valid()
      ensures currentPage == 1
      ensures PageCount() > 0 ==> InRange()
    {
      currentPage := 1;
    }

    /**
     * `goToLastPage`: the page count, which is 0 when there are no items; the
     * next render's clamp then makes it 1.
     */
    method GoToLastPage()
      requires Valid()
      modifies this`currentPage
      ensures Valid()
      ensures currentPage == PageCount()
      ensures PageCount() > 0 ==> InRange()
      ensures Clamp(currentPage, PageCount()) == if PageCount() == 0 then 1 else currentPage
    {
      currentPage := PageCount();
    }
  }
}
