/**
 * The state of the recipe listing page, app/recipe/page.tsx: the React state
 * hooks become fields, `fetchRecipes` and the event handlers become methods
 * that update them.  `router.push` is modelled by appending to `history`;
 * the page's current query string is `urlParams`.
 */
module RecipePage {
  import opened Common
  import opened Fetcher
  import opened QueryParams
  import opened Pagination
  import opened RecipeSearch

  /** Where `router.push` was sent, and with which query. */
  datatype Navigation = Navigation(path: string, query: Params)

  const RecipePath: string := "/recipe"
  const MenuPath: string := "/menu"

  /** Lines 79-80: the term and category the page reads from its address.
      An absent or empty `c` means "All". */
  function SearchFromUrl(ps: Params): string {
    match Lookup(ps, "s")
    case None => ""
    case Some(v) => v
  }

  function CategoryFromUrl(ps: Params): string {
    match Lookup(ps, "c")
    case None => AllCategory
    case Some(v) => if v == "" then AllCategory else v
  }

  /**
   * `handleSearchSubmit`'s query (lines 91-95): `s` only for a non-empty
   * term, `c` only for a non-empty category other than "All", and always
   * `page=1`.
   */
  function SubmitParams(search: string, category: string): (ps: Params)
    ensures Lookup(ps, "page") == Some("1")
    ensures Lookup(ps, "s") == if search != "" then Some(search) else None
    ensures Lookup(ps, "c") == if category != "" && category != AllCategory then Some(category) else None
  {
    var withTerm: Params := if search != "" then SetParam([], "s", search) else [];
    var withCategory := if category != "" && category != AllCategory then SetParam(withTerm, "c", category) else withTerm;
    SetParam(withCategory, "page", "1")
  }

  /** Read back by this page's address reader, the submitted query gives
      the same term and category (an empty category reading as "All") and
      page 1.  The program itself never makes this round trip: the query goes
      to the menu page, which reads only the term, lower-cased. */
  lemma SubmitParamsRoundTrip(search: string, category: string)
    ensures SearchFromUrl(SubmitParams(search, category)) == search
    ensures CategoryFromUrl(SubmitParams(search, category)) == if category == "" then AllCategory else category
    ensures Lookup(SubmitParams(search, category), "page") == Some("1")
  {
  }

  class RecipeListing {
    var recipes: seq<Recipe>
    var search: string
    var selectedCategory: string
    var loading: bool
    var error: Option<PageError>
    var currentPage: int
    var urlParams: Params
    var history: seq<Navigation>

    /** Between two handlers the page is not loading, and a page showing an
        error shows no recipes. */
    ghost predicate Valid()
      reads this
    {
      !loading && (error.Some? ==> recipes == [])
    }

    /** The first render (lines 28-35): empty list, no term, category "All",
        not loading, no error, and the page number as parsed from the
        address, unclamped. */
    constructor (ps: Params, initialPage: int)
      ensures Valid()
      ensures recipes == [] && search == "" && selectedCategory == AllCategory
      ensures !loading && error == None
      ensures currentPage == initialPage && urlParams == ps && history == []
    {
      recipes := [];
      search := "";
      selectedCategory := AllCategory;
      loading := false;
      error := None;
      currentPage := initialPage;
      urlParams := ps;
      history := [];
    }

    /** `totalPages` (line 102): the least page count whose nine-record
        pages hold every recipe. */
    function PageCount(): (t: nat)
      reads this
      ensures t * ItemsPerPage >= |recipes|
      ensures t > 0 ==> (t - 1) * ItemsPerPage < |recipes|
      ensures recipes != [] ==> t >= 1
    {
      TotalPages(|recipes|)
    }

    /** `currentRecipes` (lines 99-101): for a positive page, the recipes from
        the page's first index up to nine of them, in list order; none at all
        for a page past the last one. */
    function DisplayedRecipes(): (shown: seq<Recipe>)
      reads this
      ensures |shown| <= |recipes|
      ensures currentPage >= 1 ==> |shown| <= ItemsPerPage
      ensures currentPage >= 1 && (currentPage - 1) * ItemsPerPage <= |recipes| ==>
        shown == recipes[(currentPage - 1) * ItemsPerPage ..
          if currentPage * ItemsPerPage < |recipes| then currentPage * ItemsPerPage else |recipes|]
      ensures currentPage > PageCount() ==> shown == []
    {
      if currentPage >= 1 then
        PageSliceOfPositivePage(recipes, currentPage);
        PageSlice(recipes, currentPage)
      else
        PageSlice(recipes, currentPage)
    }

    /**
     * `fetchRecipes(term, category)`: clear the error and the list, ask the
     * one endpoint the term and category select, filter name results by
     * category, and record the scoped or the generic error; loading is off
     * at the end either way.
     */
    method FetchRecipes(term: string, category: string, net: Network)
      requires |net.letters| == |Alphabet|
      modifies this`recipes, this`error, this`loading
      ensures Valid()
      ensures recipes == FetchOutcome(term, category, net).recipes
      ensures error == FetchOutcome(term, category, net).error
    {
      loading := true;
      error := None;
      recipes := [];

      var meals: seq<Recipe> := [];
      var threw := false;
      if term != "" {
        var byName := FetchList(net.byName);
        if byName.Err? {
          threw := true;
        } else if category != AllCategory {
          meals := FilterByCategory(byName.value, category);
          if |byName.value| > 0 && |meals| == 0 {
            error := Some(NotInCategory(term, category));
          }
        } else {
          meals := byName.value;
        }
      } else if category != AllCategory {
        var list := FetchList(net.byCategory);
        if list.Err? {
          threw := true;
        } else {
          meals := list.value;
        }
      } else {
        meals := FetchAllAlphabetically(net.letters);
      }

      if threw {
        error := Some(LoadFailed);
      } else {
        recipes := meals;
      }
      loading := false;
    }

    /** The effect run whenever the address changes (lines 78-88): read the
        term, the category and the (unclamped) page, then fetch. */
    method OnAddressChange(ps: Params, page: int, net: Network)
      requires |net.letters| == |Alphabet|
      modifies this`recipes, this`error, this`loading, this`search, this`selectedCategory, this`currentPage, this`urlParams
      ensures Valid()
      ensures urlParams == ps && currentPage == page
      ensures search == SearchFromUrl(ps) && selectedCategory == CategoryFromUrl(ps)
      ensures recipes == FetchOutcome(search, selectedCategory, net).recipes
      ensures error == FetchOutcome(search, selectedCategory, net).error
    {
      urlParams := ps;
      var term := SearchFromUrl(ps);
      var category := CategoryFromUrl(ps);
      search := term;
      selectedCategory := category;
      currentPage := page;
      FetchRecipes(term, category, net);
    }

    /** `handleSearchSubmit` (lines 90-97): go to the menu page with the
        term, the category and page 1. */
    method HandleSearchSubmit()
      modifies this`history
      ensures history == old(history) + [Navigation(MenuPath, SubmitParams(search, selectedCategory))]
    {
      var query := SubmitParams(search, selectedCategory);
      history := history + [Navigation(MenuPath, query)];
    }

    /** `updatePageInUrl` (lines 104-108): the current query with `page`
        replaced. */
    method UpdatePageInUrl(newPage: int)
      modifies this`history
      ensures history == old(history) + [Navigation(RecipePath, SetParam(urlParams, "page", DecimalString(newPage)))]
    {
      var query := SetParam(urlParams, "page", DecimalString(newPage));
      history := history + [Navigation(RecipePath, query)];
    }

    /** `handleNextPage` (lines 110-114). */
    method HandleNextPage()
      requires Valid()
      modifies this`currentPage, this`history
      ensures Valid()
      ensures currentPage == NextPage(old(currentPage), PageCount())
      ensures old(currentPage) == PageCount() ==> currentPage == old(currentPage)
      ensures 1 <= old(currentPage) <= PageCount() ==> 1 <= currentPage <= PageCount()
      ensures history == old(history) + [Navigation(RecipePath, SetParam(urlParams, "page", DecimalString(currentPage)))]
    {
      var newPage := NextPage(currentPage, PageCount());
      currentPage := newPage;
      UpdatePageInUrl(newPage);
    }

    /** `handlePrevPage` (lines 116-120). */
    method HandlePrevPage()
      requires Valid()
      modifies this`currentPage, this`history
      ensures Valid()
      ensures currentPage == PrevPage(old(currentPage))
      ensures old(currentPage) == 1 ==> currentPage == 1
      ensures 1 <= old(currentPage) <= PageCount() ==> 1 <= currentPage <= PageCount()
      ensures history == old(history) + [Navigation(RecipePath, SetParam(urlParams, "page", DecimalString(currentPage)))]
    {
      var newPage := PrevPage(currentPage);
      currentPage := newPage;
      UpdatePageInUrl(newPage);
    }
  }
}
