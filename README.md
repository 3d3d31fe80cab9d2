# Recipe catalog search: a Dafny model

This project models the one piece of the recipe-browsing site that has
behaviour worth stating: the remote-catalog search flow of the recipe listing
page. The page takes a search term, a category and a page number from its
address. It fetches meals from the remote meal catalog in one of three ways:
by name, by category, or by a 26-request alphabetical sweep. The sweep's
results are de-duplicated by `idMeal`. Name results can be filtered by
category, and the list is shown nine meals per page.

Modules:

- `Common` holds `Option` and `Result`.
- `Fetcher` models `components/Fetcher.tsx`. Each HTTP exchange is an input
  value `HttpResponse`: either the request threw, or it returned a status and a
  body. The body is malformed, or JSON whose `meals` may be missing or null.
  `fetchBySearch` and `fetchByCategory` differ only in their URL, so one
  function models both: `FetchList`. `fetchAllAlphabetically` is a method over
  the 26 letter responses, in letter order. Its `forEach` loop over a `Map` is
  the method `MergeUnique`, which keeps a map and the key-insertion order. That
  method is proved against `MergeById`, and lemmas about `MergeById` give
  uniqueness, coverage, first-occurrence order and last-write-wins.
- `QueryParams` models the query string as an ordered list of name/value pairs,
  with `URLSearchParams.get`, `URLSearchParams.set` and `Number.toString`.
- `Pagination` models the slice arithmetic, `Math.ceil(n / 9)`, and the
  next/previous page numbers. `Array.prototype.slice` is modelled in full,
  including negative bounds that count from the end. That is why no page
  number needs a precondition.
- `RecipeSearch` covers the decisions `fetchRecipes` makes: which endpoint is
  asked, the case-insensitive category filter, and which error ends up on the
  page. It states them as the function `FetchOutcome` plus lemmas.
- `RecipePage` is the page's React state as the class `RecipeListing`. Its
  fields are `recipes`, `search`, `selectedCategory`, `loading`, `error`,
  `currentPage`, the current query `urlParams`, and `history`, which records
  every `router.push`. The methods are `fetchRecipes`, the address effect and
  the three handlers.

Points of the code's behaviour worth knowing:

- The page number read from the address is never clamped. A page past the
  last one shows an empty slice. Page 0 shows nothing. A negative page shows
  records counted from the end of the list. See `PageSliceOfPositivePage`,
  `PageZeroIsEmpty` and `NegativePageCountsFromEnd`.
- In the alphabetical sweep, each id keeps the position of its first
  occurrence and stores the record of its last occurrence.
- The page has only "previous" and "next" buttons for moving between pages.

## Model

| member | source | states |
|---|---|---|
| Fetcher.FetchList | components/Fetcher.tsx:13-27 | The fetch fails exactly when the request threw, the status is outside 200-299, or the body is not JSON. A non-ok status fails with that status. Otherwise the result is the `meals` list, and a missing or null list reads as empty. |
| Fetcher.LetterBatch | components/Fetcher.tsx:31-41 | A letter's batch is what `FetchList` would return for the same response, except that every failure becomes an empty batch. |
| Fetcher.LetterBatches | components/Fetcher.tsx:43 | There is one batch per letter, at that letter's position, so the order does not depend on when each request finished. |
| Fetcher.Flatten | components/Fetcher.tsx:45 | A record is in the flattened list exactly when it is in one of the batches. |
| Fetcher.FlattenAppend | components/Fetcher.tsx:45 | Flattening two lists of batches joined together equals joining the two flattened lists. |
| Fetcher.FlattenKeepsBatchOrder | components/Fetcher.tsx:30-45 | Batch i is one contiguous block of the flattened list, after every earlier letter and before every later one. |
| Fetcher.InsertionOrder | components/Fetcher.tsx:44-47 | The map's keys, in insertion order, are pairwise distinct and are exactly the ids that occur in the input. |
| Fetcher.Stored | components/Fetcher.tsx:44-47 | The map's key set is exactly the set of ids in the input. |
| Fetcher.StoredIsLastOccurrence | components/Fetcher.tsx:46 | Because `Map.set` overwrites, the value stored under an id is the last record in the input with that id. |
| Fetcher.InsertionOrderIsFirstOccurrence | components/Fetcher.tsx:44-47 | Key order follows the position of each id's first occurrence in the input. |
| Fetcher.MergeHasUniqueIds | components/Fetcher.tsx:44-48 | The merged list holds at most one record per `idMeal`. |
| Fetcher.MergeCoversInput | components/Fetcher.tsx:45-48 | Every id of the input appears in the merged list, and every merged record is one of the input records. |
| Fetcher.MergeKeepsFirstOccurrenceOrder | components/Fetcher.tsx:43-48 | Merged records are ordered by the first occurrence of their ids in the letter-ordered flattened list. |
| Fetcher.MergeKeepsLastWrite | components/Fetcher.tsx:46-48 | Each merged record is the last occurrence of its id in the flattened list. |
| Fetcher.MergeOfUniqueIsIdentity | components/Fetcher.tsx:44-48 | A list whose ids are already unique merges to itself. |
| Fetcher.MergeUnique | components/Fetcher.tsx:44-48 | The `forEach` loop over a map plus its insertion order returns `MergeById` of the flattened list. |
| Fetcher.FetchAllAlphabetically | components/Fetcher.tsx:29-49 | The sweep returns the merge of the letter batches, flattened in a..z order. It never fails as a whole. |
| Fetcher.AlphabetCoversSuccessfulLetters | components/Fetcher.tsx:31-48 | Every id served by a letter whose request succeeded is in the merged catalog, whatever the other letters returned. |
| Fetcher.FailedLetterIsEmptyLetter | components/Fetcher.tsx:33-40 | A letter that threw, got a non-ok status or got a malformed body gives the same catalog as a letter that returned no meals. |
| QueryParams.SetParam | app/recipe/page.tsx:105-106 | After `set`, the name occurs exactly once, with the new value. Every other name reads as before. A name that was absent is appended at the end. |
| QueryParams.DecimalString | app/recipe/page.tsx:106 | `toString` gives the decimal digits of the number, which read back as its value, preceded by a minus sign when it is negative. |
| Pagination.TotalPages | app/recipe/page.tsx:102 | The result is `ceil(n/9)`: the least page count whose nine-item pages hold all n records. |
| Pagination.NextPage | app/recipe/page.tsx:111 | Next advances by one below the last page. On or past the last page it gives the last page. From a page in [1, totalPages] it stays in that range. |
| Pagination.PrevPage | app/recipe/page.tsx:117 | Previous goes back by one above page 1 and gives 1 otherwise. It is never below 1. |
| Pagination.PageSliceOfPositivePage | app/recipe/page.tsx:99-101 | For p >= 1 the page shows `recipes[(p-1)*9 .. min(p*9, n))`, at most nine records, in list order. The slice is empty exactly when p > ceil(n/9). |
| Pagination.PageZeroIsEmpty | app/recipe/page.tsx:99-101 | Page 0, which the unclamped address can name, shows nothing. |
| Pagination.NegativePageCountsFromEnd | app/recipe/page.tsx:99-101 | A negative page is not rejected. When the list holds at least 9(k+1) records, page -k shows the nine records that end 9k records before the end of the list. |
| Pagination.PagesFromIsSuffix | app/recipe/page.tsx:99-102 | Pages p through totalPages, joined together, are the list from the first record of page p onward. |
| Pagination.AllPagesCoverList | app/recipe/page.tsx:99-102 | Pages 1 through totalPages, joined together, give back the whole list. |
| Pagination.NavigationAtTheEdges | app/recipe/page.tsx:110-120 | Next on the last page and previous on page 1 leave the page unchanged. Next from an unclamped page past the end moves back. Previous from a page in range stays in range. |
| RecipeSearch.MessagesAreDistinct | app/recipe/page.tsx:55-72 | The scoped "not in this category" message always differs from the generic failure message. |
| RecipeSearch.FilterByCategory | app/recipe/page.tsx:50-54 | Kept meals are exactly the name results whose non-empty category equals the chosen one ignoring case, each kept as many times as it occurs. They are an order-preserving subsequence of the name results. |
| RecipeSearch.FilterIgnoresCase | app/recipe/page.tsx:50-54 | Two category names that differ only in letter case select the same meals. |
| RecipeSearch.TermUsesNameSearch | app/recipe/page.tsx:46-62 | A non-empty term gives the same outcome whatever the category listing and the letter searches would answer. |
| RecipeSearch.CategoryUsesCategoryListing | app/recipe/page.tsx:63-64 | An empty term with a category other than "All" gives the same outcome whatever the name search and the letter searches would answer. |
| RecipeSearch.NoFilterUsesAlphabet | app/recipe/page.tsx:65-67 | An empty term with "All" depends only on the letter searches, and it never ends in an error. |
| RecipeSearch.FilteredMealsAreInCategory | app/recipe/page.tsx:49-54 | With a term and a category other than "All", every meal shown has a non-empty category equal to the chosen one ignoring case. The meals shown are a subsequence of the name results. |
| RecipeSearch.ScopedErrorExactly | app/recipe/page.tsx:55-59 | The scoped error is set exactly when the name search found meals and none of them is in the category. It is never set when the name search found nothing. |
| RecipeSearch.FailureLeavesNoRecipes | app/recipe/page.tsx:39-75 | The generic error is set exactly when the one request made threw. Any error leaves the recipe list empty. |
| RecipePage.SubmitParams | app/recipe/page.tsx:90-95 | The submitted query always has `page=1`. It has `s` only for a non-empty term, and `c` only for a non-empty category other than "All". |
| RecipePage.SubmitParamsRoundTrip | app/recipe/page.tsx:79-95 | Read back by this page's address reader, the submitted query gives the same term and category (an empty category reads as "All") and page 1. The program itself never makes this round trip: the query is pushed to `/menu`, whose reader uses only `s`, lower-cased. |
| RecipePage.RecipeListing.constructor | app/recipe/page.tsx:28-35 | The first render has an empty list, no term, category "All", no loading, no error, and the page number from the address, unclamped. |
| RecipePage.RecipeListing.PageCount | app/recipe/page.tsx:102 | The page count is `ceil(n/9)`: its pages hold every recipe, and one page fewer would not. It is at least 1 when there are recipes. |
| RecipePage.RecipeListing.DisplayedRecipes | app/recipe/page.tsx:99-101 | For a positive page p the page shows `recipes[(p-1)*9 .. min(p*9, n))`, at most nine recipes in list order. It shows none for a page past the last one. |
| RecipePage.RecipeListing.FetchRecipes | app/recipe/page.tsx:38-76 | The final recipes and error are those of `FetchOutcome`. Loading ends false, and a page with an error shows no recipes. |
| RecipePage.RecipeListing.OnAddressChange | app/recipe/page.tsx:78-88 | The address gives the term (default empty), the category (default "All") and the page number, which is not clamped. The page then fetches for that term and category. |
| RecipePage.RecipeListing.HandleSearchSubmit | app/recipe/page.tsx:90-97 | Submitting pushes `/menu` with `SubmitParams` of the current term and category. |
| RecipePage.RecipeListing.UpdatePageInUrl | app/recipe/page.tsx:104-108 | The method pushes `/recipe` with the current query, with `page` replaced by the new number. |
| RecipePage.RecipeListing.HandleNextPage | app/recipe/page.tsx:110-114 | The page becomes `min(p+1, totalPages)`: unchanged on the last page, and in range when it started in range. The new page is pushed to the address. |
| RecipePage.RecipeListing.HandlePrevPage | app/recipe/page.tsx:116-120 | The page becomes `max(p-1, 1)`: unchanged on page 1, and in range when it started in range. The new page is pushed to the address. |

## Left out

- HTTP requests, URL interpolation of the term, category and letter, and JSON
  decoding: each response is an input value.
- The concurrency of the 26-request `Promise.all` fan-out is not modelled. The
  merge runs sequentially over the batches already in letter order.
- The race between overlapping `fetchRecipes` calls, where a stale response
  can overwrite a newer one, is not modelled. Each call is modelled as if it
  completes before the next begins.
- RecipePage.RecipeListing.FetchRecipes: states only the final state. The
  intermediate render with `loading` true and an empty list is not
  observable in the model.
- `toLowerCase` maps only the ASCII letters A-Z. Unicode case mapping beyond
  ASCII is not modelled.
- `parseInt` of the page parameter, and its NaN case, are not modelled. The
  parsed page is given as an integer.
- Page numbers are JavaScript doubles but are modelled as unbounded integers.
  Past 2^53 the arithmetic on them is inexact, and from 1e21 on `toString`
  switches to exponent form ("1e+21"). Neither is modelled.
- The string form of `URLSearchParams` and its percent-encoding are not
  modelled. Only `get` and `set` on the name/value list are.
- `router.push` is recorded in `history`. The framework re-running the address
  effect after a push is not modelled. `OnAddressChange` is the effect, called
  by whoever changes the address.
- `console.error` logging of the caught error is not modelled.
- `components/Searchbar.tsx` accepts neither `search`/`setSearch` nor
  `selectedCategory`. It never calls `onSubmit`: its own form pushes
  `/recipe?s=...`. `HandleSearchSubmit` is modelled as written, even though
  nothing in the shown components invokes it.
- Fuzzy search with Fuse.js on the static-catalog pages, the random shuffle of
  top recipes, and the recipe detail page with its share and clipboard
  handling are not modelled.
- All JSX rendering, styling and images are not modelled.
