/** `src/components/Common/Pagination.tsx`: the buttons the pager renders
    for a current page and a page count. Page changes are callbacks to the
    parent, so the view only says which page each button requests. */
module Pagination {
  import opened Wrappers
  import opened Language

  /** One numbered button: the page it requests and whether it is styled as
      the current one. */
  datatype PageButton = PageButton(page: int, highlighted: bool)

  datatype PagerView = PagerView(
    previousTarget: int,
    previousDisabled: bool,
    previousLabel: string,
    pages: seq<PageButton>,
    nextTarget: int,
    nextDisabled: bool,
    nextLabel: string)

  /** The pager; `None` where the component renders nothing. */
  function Render(currentPage: int, totalPages: int, language: Locale): (r: Option<PagerView>)
    ensures r.None? <==> totalPages <= 1
    ensures r.Some? ==> |r.value.pages| == totalPages
  {
    if totalPages <= 1 then None
    else
      Some(PagerView(
        currentPage - 1,
        currentPage == 1,
        if language == Id then "Sebelumnnya" else "Previous",
        seq(totalPages, i => PageButton(i + 1, currentPage == i + 1)),
        currentPage + 1,
        currentPage == totalPages,
        if language == Id then "Selanjutnya" else "Next"))
  }

  /** The numbered buttons are 1 to `totalPages`, ascending. */
  lemma PagesAreOneToTotal(currentPage: int, totalPages: int, language: Locale)
    requires totalPages > 1
    ensures forall i :: 0 <= i < totalPages ==> Render(currentPage, totalPages, language).value.pages[i].page == i + 1
    ensures forall i, j :: 0 <= i < j < totalPages ==>
      Render(currentPage, totalPages, language).value.pages[i].page < Render(currentPage, totalPages, language).value.pages[j].page
  {
  }

  /** A button is highlighted iff it is the current page, so at most one
      is, and exactly one when the current page is in range. */
  lemma OneHighlighted(currentPage: int, totalPages: int, language: Locale)
    requires totalPages > 1
    ensures forall b :: b in Render(currentPage, totalPages, language).value.pages ==> (b.highlighted <==> b.page == currentPage)
    ensures forall i, j ::
      (0 <= i < totalPages && 0 <= j < totalPages &&
       Render(currentPage, totalPages, language).value.pages[i].highlighted &&
       Render(currentPage, totalPages, language).value.pages[j].highlighted) ==> i == j
    ensures 1 <= currentPage <= totalPages ==>
      Render(currentPage, totalPages, language).value.pages[currentPage - 1].highlighted
  {
  }

  /** Previous requests the page before and is disabled only on page 1;
      Next requests the page after and is disabled only on the last page.
      The current page is not clamped: with it in range every enabled
      button requests a page in range, but past the end Next stays enabled
      and requests a page beyond the last. */
  lemma RequestsStayInRange(currentPage: int, totalPages: int, language: Locale)
    requires totalPages > 1
    ensures var v := Render(currentPage, totalPages, language).value;
      && (v.previousDisabled <==> currentPage == 1)
      && (v.nextDisabled <==> currentPage == totalPages)
      && v.previousTarget == currentPage - 1 && v.nextTarget == currentPage + 1
      && (forall b :: b in v.pages ==> 1 <= b.page <= totalPages)
    ensures var v := Render(currentPage, totalPages, language).value;
      1 <= currentPage <= totalPages ==>
        && (!v.previousDisabled ==> 1 <= v.previousTarget <= totalPages)
        && (!v.nextDisabled ==> 1 <= v.nextTarget <= totalPages)
    ensures var v := Render(currentPage, totalPages, language).value;
      currentPage > totalPages ==> !v.nextDisabled && v.nextTarget > totalPages
  {
  }
}
