/** The controls both admin tables share: the sort direction a header click
    flips, pagination by `Array.prototype.slice` on the sorted list,
    `Math.ceil(n / pageSize)` pages, and the Prev/Next buttons. The derived
    view itself does not clamp the page number. */
module Paging {

  const Asc := "asc"
  const Desc := "desc"

  /** `sortOrder === 'asc' ? 'desc' : 'asc'`. */
  function Flip(order: string): (r: string)
    ensures r == Asc || r == Desc
    ensures order == Asc <==> r == Desc
  {
    if order == Asc then Desc else Asc
  }

  /** Flipping twice restores either direction. */
  lemma FlipTwice(order: string)
    requires order == Asc || order == Desc
    ensures Flip(Flip(order)) == order
  {
  }

  const PageSize: nat := 10

  /** How `slice` resolves an index: negative counts from the end, and the
      result is clamped to `[0, n]`. */
  function ResolveIndex(i: int, n: nat): (k: nat)
    ensures k <= n
    ensures 0 <= i <= n ==> k == i
  {
    if i < 0 then (if n + i < 0 then 0 else n + i)
    else if i > n then n
    else i
  }

  /** `s.slice(start, end)`. */
  function JsSlice<T>(s: seq<T>, start: int, end: int): (r: seq<T>)
    ensures |r| <= |s|
  {
    var a := ResolveIndex(start, |s|);
    var b := ResolveIndex(end, |s|);
    if a < b then s[a..b] else []
  }

  /** `list.slice((page - 1) * pageSize, (page - 1) * pageSize + pageSize)`. */
  function PageItems<T>(s: seq<T>, page: int): seq<T>
  {
    JsSlice(s, (page - 1) * PageSize, (page - 1) * PageSize + PageSize)
  }

  /** `Math.ceil(n / pageSize)`. */
  function TotalPages(n: nat): (pages: nat)
    ensures pages * PageSize >= n
    ensures pages == 0 || (pages - 1) * PageSize < n
    ensures pages == 0 <==> n == 0
  {
    (n + PageSize - 1) / PageSize
  }

  /** The Prev button: `Math.max(1, page - 1)`. */
  function PrevPage(page: int): (p: int)
    ensures p >= 1
    ensures page > 1 ==> p == page - 1
    ensures page <= 1 ==> p == 1
  {
    if page - 1 < 1 then 1 else page - 1
  }

  /** The Next button: `Math.min(totalPages, page + 1)`. */
  function NextPage(page: int, totalPages: int): (p: int)
    ensures p <= totalPages
    ensures page < totalPages ==> p == page + 1
    ensures page >= totalPages ==> p == totalPages
  {
    if totalPages < page + 1 then totalPages else page + 1
  }

  /** Whatever page number is asked for, a page holds at most `pageSize` items. */
  lemma PageItemsBound<T>(s: seq<T>, page: int)
    ensures |PageItems(s, page)| <= PageSize
  {
  }

  /** For a page number from 1 on, the page is the window
      `[(page - 1) * pageSize, page * pageSize)` cut off at the end of the list. */
  lemma PageItemsWindow<T>(s: seq<T>, page: int)
    requires page >= 1
    ensures var lo := (page - 1) * PageSize;
            var hi := page * PageSize;
            PageItems(s, page)
            == if lo >= |s| then [] else s[lo..if hi <= |s| then hi else |s|]
  {
  }

  /** Every page from 1 to `totalPages` holds something; past the last page the
      view is empty rather than clamped. */
  lemma PageItemsNonEmptyIff<T>(s: seq<T>, page: int)
    requires page >= 1
    ensures PageItems(s, page) != [] <==> page <= TotalPages(|s|)
  {
    PageItemsWindow(s, page);
  }

  /** The pages partition the list: item `k` is item `k % pageSize` of page
      `k / pageSize + 1`. */
  lemma {:induction false} PagesCoverList<T>(s: seq<T>, k: nat)
    requires k < |s|
    ensures var page := k / PageSize + 1;
            k % PageSize < |PageItems(s, page)| && PageItems(s, page)[k % PageSize] == s[k]
  {
    var page := k / PageSize + 1;
    PageItemsWindow(s, page);
    assert (page - 1) * PageSize + k % PageSize == k;
  }

  /** A page number inside `[1, totalPages]` stays inside after Prev or Next. */
  lemma PrevNextStayInRange(page: int, totalPages: int)
    requires 1 <= page <= totalPages
    ensures 1 <= PrevPage(page) <= totalPages
    ensures 1 <= NextPage(page, totalPages) <= totalPages
  {
  }
}
