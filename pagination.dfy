/**
 * The pagination arithmetic of app/recipe/page.tsx (lines 99-102, 110-120):
 * pages of nine records, the page count, and the next/previous page numbers.
 * The page number is whatever the address said; nothing here clamps it.
 */
module Pagination {

  /** `itemsPerPage`. */
  const ItemsPerPage: nat := 9

  /** How `Array.prototype.slice` reads one of its bounds: a negative bound
      counts from the end, and every bound is kept within `[0, len]`. */
  function SliceBound(len: nat, i: int): (b: nat)
    ensures b <= len
    ensures 0 <= i <= len ==> b == i
  {
    if i < 0 then (if len + i < 0 then 0 else len + i)
    else if i > len then len
    else i
  }

  /** `s.slice(start, end)`, empty when the bounds cross. */
  function JsSlice<T>(s: seq<T>, start: int, end: int): (r: seq<T>)
    ensures |r| <= |s|
  {
    var from := SliceBound(|s|, start);
    var to := SliceBound(|s|, end);
    if from < to then s[from..to] else []
  }

  /** `currentRecipes`: the slice from the first to one past the last index
      of the page, both derived from the page number times nine. */
  function PageSlice<T>(recipes: seq<T>, page: int): seq<T> {
    JsSlice(recipes, page * ItemsPerPage - ItemsPerPage, page * ItemsPerPage)
  }

  /** `totalPages`: the least page count whose pages hold `n` records. */
  function TotalPages(n: nat): (t: nat)
    ensures t * ItemsPerPage >= n
    ensures t > 0 ==> (t - 1) * ItemsPerPage < n
  {
    (n + ItemsPerPage - 1) / ItemsPerPage
  }

  /** The page after `page`, but never beyond the page count. */
  function NextPage(page: int, totalPages: int): (r: int)
    ensures page < totalPages ==> r == page + 1
    ensures page >= totalPages ==> r == totalPages
    ensures 1 <= page <= totalPages ==> 1 <= r <= totalPages
  {
    if page + 1 < totalPages then page + 1 else totalPages
  }

  /** The page before `page`, but never below page 1. */
  function PrevPage(page: int): (r: int)
    ensures r >= 1
    ensures page > 1 ==> r == page - 1
    ensures page <= 1 ==> r == 1
  {
    if page - 1 > 1 then page - 1 else 1
  }

  /** For a page number of at least 1 the displayed records are
      `recipes[(page-1)*9 .. min(page*9, n))`, at most nine of them, in list
      order; a page past the last one, which the address may well name since
      it is not clamped, shows nothing. */
  lemma PageSliceOfPositivePage<T>(recipes: seq<T>, page: int)
    requires page >= 1
    ensures |PageSlice(recipes, page)| <= ItemsPerPage
    ensures (page - 1) * ItemsPerPage <= |recipes| ==>
      PageSlice(recipes, page) == recipes[(page - 1) * ItemsPerPage ..
        if page * ItemsPerPage < |recipes| then page * ItemsPerPage else |recipes|]
    ensures page > TotalPages(|recipes|) <==> PageSlice(recipes, page) == []
  {
  }

  /** Page 0 shows nothing: its end bound is 0. */
  lemma PageZeroIsEmpty<T>(recipes: seq<T>)
    ensures PageSlice(recipes, 0) == []
  {
  }

  /** A negative page is not rejected: `slice` counts its bounds from the
      end, so page `-k` shows the nine records that end `9k` before the end
      of the list, and they are non-empty when the list is long enough. */
  lemma NegativePageCountsFromEnd<T>(recipes: seq<T>, page: int)
    requires page < 0 && |recipes| >= (1 - page) * ItemsPerPage
    ensures PageSlice(recipes, page) ==
      recipes[|recipes| + (page - 1) * ItemsPerPage .. |recipes| + page * ItemsPerPage]
    ensures |PageSlice(recipes, page)| == ItemsPerPage
  {
  }

  /** The pages from `page` to the last one, concatenated. */
  function PagesFrom<T>(recipes: seq<T>, page: nat): seq<T>
    requires page >= 1
    decreases TotalPages(|recipes|) + 1 - page
  {
    if page > TotalPages(|recipes|) then []
    else PageSlice(recipes, page) + PagesFrom(recipes, page + 1)
  }

  /** Pages `page..totalPages` hold exactly the records from the first of
      page `page` onward. */
  lemma {:induction false} PagesFromIsSuffix<T>(recipes: seq<T>, page: nat)
    requires page >= 1
    ensures PagesFrom(recipes, page) ==
      recipes[if (page - 1) * ItemsPerPage < |recipes| then (page - 1) * ItemsPerPage else |recipes| ..]
    decreases TotalPages(|recipes|) + 1 - page
  {
    var n := |recipes|;
    PageSliceOfPositivePage(recipes, page);
    if page <= TotalPages(n) {
      PagesFromIsSuffix(recipes, page + 1);
      var lo := (page - 1) * ItemsPerPage;
      var hi := if page * ItemsPerPage < n then page * ItemsPerPage else n;
      assert recipes[lo..] == recipes[lo..hi] + recipes[hi..];
    }
  }

  /** Pages `1..totalPages`, concatenated, give back the whole list. */
  lemma AllPagesCoverList<T>(recipes: seq<T>)
    ensures PagesFrom(recipes, 1) == recipes
  {
    PagesFromIsSuffix(recipes, 1);
  }

  /** "Next" on the last page and "previous" on page 1 leave the page as it
      is; from an unclamped page past the last, "next" jumps back to the last
      page; from a page in `[1, totalPages]` both stay in that range. */
  lemma NavigationAtTheEdges(page: int, totalPages: int)
    ensures page == totalPages ==> NextPage(page, totalPages) == page
    ensures page == 1 ==> PrevPage(page) == page
    ensures page > totalPages ==> NextPage(page, totalPages) < page
    ensures 1 <= page <= totalPages ==> 1 <= PrevPage(page) <= totalPages
  {
  }
}
