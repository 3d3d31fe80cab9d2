/**
 * The decisions `fetchRecipes` makes in app/recipe/page.tsx (lines 38-76),
 * as functions of the search term, the category and the responses the
 * catalog gives: which endpoint is asked, the case-insensitive category
 * filter, and which error (if any) ends up on the page.
 */
module RecipeSearch {
  import opened Common
  import opened Fetcher

  /** The category value meaning "no category filter". */
  const AllCategory: string := "All"

  /** The errors the page can show. */
  datatype PageError =
    | NotInCategory(term: string, category: string)  // the term exists, but not in this category
    | LoadFailed                                      // a request threw

  /** The text shown for each error. */
  function Message(e: PageError): string {
    match e
    case NotInCategory(term, category) =>
      "Makanan \"" + term + "\" tidak terdapat di kategori \"" + category + "\"."
    case LoadFailed => "Gagal memuat resep. Silakan coba lagi nanti."
  }

  /** The scoped message is never the generic one. */
  lemma MessagesAreDistinct(term: string, category: string)
    ensures Message(NotInCategory(term, category)) != Message(LoadFailed)
  {
    var generic := "Gagal memuat resep. Silakan coba lagi nanti.";
    assert Message(LoadFailed) == generic;
    assert generic[0] == 'G';
    assert Message(NotInCategory(term, category))[0] == 'M';
  }

  /** The responses the catalog gives to the requests `fetchRecipes` may
      make: the name search for the term, the category listing, and the 26
      single-letter searches in letter order. */
  datatype Network = Network(byName: HttpResponse, byCategory: HttpResponse, letters: seq<HttpResponse>)

  /** `toLowerCase` on one character (ASCII letters only). */
  function LowerChar(c: char): char {
    if 'A' <= c <= 'Z' then (c as int + 32) as char else c
  }

  /** `toLowerCase` on a string. */
  function ToLower(s: string): (r: string)
    ensures |r| == |s|
    ensures forall i :: 0 <= i < |s| ==> r[i] == LowerChar(s[i])
  {
    seq(|s|, i requires 0 <= i < |s| => LowerChar(s[i]))
  }

  /** The filter's test: the meal has a category, and it equals the chosen
      one once both are lower-cased; a missing, null or empty category never
      matches. */
  predicate InCategory(meal: Recipe, category: string) {
    meal.strCategory.Some? && meal.strCategory.value != ""
    && ToLower(meal.strCategory.value) == ToLower(category)
  }

  /** `xs` is `ys` with some elements left out and the rest in order. */
  ghost predicate IsSubsequence<T>(xs: seq<T>, ys: seq<T>)
    decreases |ys|
  {
    if xs == [] then true
    else if ys == [] then false
    else (xs[0] == ys[0] && IsSubsequence(xs[1..], ys[1..])) || IsSubsequence(xs, ys[1..])
  }

  /** The `filter` of lines 50-54: the name results whose category matches,
      ignoring case, kept in their original order. */
  function FilterByCategory(meals: seq<Recipe>, category: string): (kept: seq<Recipe>)
    ensures forall m :: m in kept ==> m in meals && InCategory(m, category)
    ensures forall m :: m in meals && InCategory(m, category) ==> m in kept
    ensures IsSubsequence(kept, meals)
    ensures forall m :: multiset(kept)[m] == if InCategory(m, category) then multiset(meals)[m] else 0
  {
    if meals == [] then []
    else
      var rest := FilterByCategory(meals[1..], category);
      assert meals == [meals[0]] + meals[1..];
      assert multiset(meals) == multiset{meals[0]} + multiset(meals[1..]);
      if InCategory(meals[0], category) then [meals[0]] + rest else rest
  }

  /** Category names that differ only in letter case select the same
      meals. */
  lemma {:induction false} FilterIgnoresCase(meals: seq<Recipe>, c1: string, c2: string)
    requires ToLower(c1) == ToLower(c2)
    ensures FilterByCategory(meals, c1) == FilterByCategory(meals, c2)
  {
    if meals != [] {
      FilterIgnoresCase(meals[1..], c1, c2);
    }
  }

  /** What the page holds once `fetchRecipes` has finished. */
  datatype Outcome = Outcome(recipes: seq<Recipe>, error: Option<PageError>)

  /**
   * The final recipes and error of `fetchRecipes(term, category)`:
   * a non-empty term searches by name (then filters by category unless it is
   * "All"); otherwise a category other than "All" lists that category;
   * otherwise the alphabetical sweep.  A thrown request leaves the list empty
   * (it was cleared first) and sets the generic error.
   */
  function FetchOutcome(term: string, category: string, net: Network): Outcome
    requires |net.letters| == |Alphabet|
  {
    if term != "" then
      match FetchList(net.byName)
      case Err(_) => Outcome([], Some(LoadFailed))
      case Ok(byName) =>
        if category != AllCategory then
          var kept := FilterByCategory(byName, category);
          Outcome(kept, if |byName| > 0 && |kept| == 0 then Some(NotInCategory(term, category)) else None)
        else Outcome(byName, None)
    else if category != AllCategory then
      match FetchList(net.byCategory)
      case Err(_) => Outcome([], Some(LoadFailed))
      case Ok(list) => Outcome(list, None)
    else
      Outcome(MergeById(Flatten(LetterBatches(net.letters))), None)
  }

  /** A non-empty term asks the name search only: the outcome is the same
      whatever the category listing and the letter searches would answer. */
  lemma TermUsesNameSearch(term: string, category: string, net: Network, byCategory: HttpResponse, letters: seq<HttpResponse>)
    requires term != "" && |net.letters| == |Alphabet| && |letters| == |Alphabet|
    ensures FetchOutcome(term, category, net) == FetchOutcome(term, category, Network(net.byName, byCategory, letters))
  {
  }

  /** An empty term with a category other than "All" asks the category
      listing only. */
  lemma CategoryUsesCategoryListing(category: string, net: Network, byName: HttpResponse, letters: seq<HttpResponse>)
    requires category != AllCategory && |net.letters| == |Alphabet| && |letters| == |Alphabet|
    ensures FetchOutcome("", category, net) == FetchOutcome("", category, Network(byName, net.byCategory, letters))
  {
  }

  /** An empty term with "All" asks the 26 letter searches only, and never
      fails. */
  lemma NoFilterUsesAlphabet(net: Network, byName: HttpResponse, byCategory: HttpResponse)
    requires |net.letters| == |Alphabet|
    ensures FetchOutcome("", AllCategory, net) == FetchOutcome("", AllCategory, Network(byName, byCategory, net.letters))
    ensures FetchOutcome("", AllCategory, net).error == None
  {
  }

  /** With a term and a category other than "All", every meal shown is in
      the category (ignoring case, and with a non-empty category field), and
      the meals shown are the name results in their own order, some left
      out. */
  lemma FilteredMealsAreInCategory(term: string, category: string, net: Network)
    requires term != "" && category != AllCategory && |net.letters| == |Alphabet|
    ensures forall m :: m in FetchOutcome(term, category, net).recipes ==>
      m.strCategory.Some? && m.strCategory.value != "" && ToLower(m.strCategory.value) == ToLower(category)
    ensures FetchList(net.byName).Ok? ==> IsSubsequence(FetchOutcome(term, category, net).recipes, FetchList(net.byName).value)
  {
  }

  /** The scoped "not in this category" error is set exactly when the name
      search found meals and none of them is in the category; in particular
      not when the name search itself found nothing. */
  lemma ScopedErrorExactly(term: string, category: string, net: Network)
    requires term != "" && category != AllCategory && |net.letters| == |Alphabet|
    requires FetchList(net.byName).Ok?
    ensures FetchOutcome(term, category, net).error == Some(NotInCategory(term, category)) <==>
      (|FetchList(net.byName).value| > 0 && forall m :: m in FetchList(net.byName).value ==> !InCategory(m, category))
    ensures FetchList(net.byName).value == [] ==> FetchOutcome(term, category, net).error == None
  {
    var byName := FetchList(net.byName).value;
    var kept := FilterByCategory(byName, category);
    if |kept| > 0 {
      assert kept[0] in kept;
    }
  }

  /** The generic error is set exactly when the one request that was made
      threw, and then no recipes are shown.  No other error ever leaves
      recipes on the page either. */
  lemma FailureLeavesNoRecipes(term: string, category: string, net: Network)
    requires |net.letters| == |Alphabet|
    ensures FetchOutcome(term, category, net).error == Some(LoadFailed) <==>
      (term != "" && FetchList(net.byName).Err?)
      || (term == "" && category != AllCategory && FetchList(net.byCategory).Err?)
    ensures FetchOutcome(term, category, net).error.Some? ==> FetchOutcome(term, category, net).recipes == []
  {
  }
}
