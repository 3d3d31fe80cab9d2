/**
 * The data-access helpers of components/Fetcher.tsx.
 *
 * HTTP, URL building and JSON decoding are not modelled: every request is
 * represented by the response the server gave to it (`HttpResponse`), and the
 * helpers are modelled as what they do with that response.  The alphabetical
 * sweep receives the 26 per-letter responses, in letter order, as an input.
 */
module Fetcher {
  import opened Common

  /** One meal record as returned by the remote catalog. `strCategory` is
      `None` when the field is missing or null in the JSON. */
  datatype Recipe = Recipe(
    idMeal: string,
    strMeal: string,
    strCategory: Option<string>,
    strInstructions: string,
    strMealThumb: string,
    strYoutube: string)

  /** The decoded JSON body: either not JSON at all, or an object whose
      `meals` field may be missing or null. */
  datatype Body = Malformed | Json(meals: Option<seq<Recipe>>)

  /** What `fetch` produced: it threw (transport error), or a response with a
      status code and a body. */
  datatype HttpResponse = Thrown | Response(status: int, body: Body)

  /** Why `fetchBySearch` / `fetchByCategory` threw. */
  datatype FetchError = NetworkError | HttpError(status: int) | InvalidJson

  /** The letters of the alphabetical sweep, in request order. */
  const Alphabet: string := "abcdefghijklmnopqrstuvwxyz"

  /** `response.ok`: the status is in the range 200-299. */
  predicate IsOk(status: int) {
    200 <= status <= 299
  }

  /** The meal list of a decoded body; a missing or null list reads as the
      empty list. */
  function MealsOrEmpty(meals: Option<seq<Recipe>>): seq<Recipe> {
    match meals
    case None => []
    case Some(list) => list
  }

  /** True when a response is one from which a meal list can be read. */
  predicate Readable(resp: HttpResponse) {
    resp.Response? && IsOk(resp.status) && resp.body.Json?
  }

  /**
   * `fetchBySearch` and `fetchByCategory` (they differ only in the URL they
   * request): a thrown request, a non-ok status or a body that is not JSON
   * make the call throw; otherwise the meal list, empty when absent.
   */
  function FetchList(resp: HttpResponse): (r: Result<seq<Recipe>, FetchError>)
    ensures r.Err? <==> !Readable(resp)
    ensures r.Ok? ==> r.value == MealsOrEmpty(resp.body.meals)
    ensures resp.Response? && !IsOk(resp.status) ==> r == Err(HttpError(resp.status))
  {
    match resp
    case Thrown => Err(NetworkError)
    case Response(status, body) =>
      if !IsOk(status) then Err(HttpError(status))
      else
        match body
        case Malformed => Err(InvalidJson)
        case Json(meals) => Ok(MealsOrEmpty(meals))
  }

  /**
   * One letter of `fetchAllAlphabetically`: a non-ok status yields `[]`, and
   * anything thrown (by `fetch` or by `response.json()`) is caught and yields
   * `[]`.  So a letter batch is exactly what `FetchList` would give, with
   * every failure turned into an empty batch.
   */
  function LetterBatch(resp: HttpResponse): (batch: seq<Recipe>)
    ensures batch == match FetchList(resp) case Ok(list) => list case Err(_) => []
    ensures !Readable(resp) ==> batch == []
  {
    match resp
    case Thrown => []
    case Response(status, body) =>
      if !IsOk(status) then []
      else
        match body
        case Malformed => []
        case Json(meals) => MealsOrEmpty(meals)
  }

  /** The result of `Promise.all` over the per-letter requests: one batch per
      letter, at the position of its letter whatever order they settled in. */
  function LetterBatches(letters: seq<HttpResponse>): (batches: seq<seq<Recipe>>)
    ensures |batches| == |letters|
    ensures forall i :: 0 <= i < |letters| ==> batches[i] == LetterBatch(letters[i])
  {
    seq(|letters|, i requires 0 <= i < |letters| => LetterBatch(letters[i]))
  }

  /** `Array.prototype.flat` on a list of batches. */
  function Flatten(batches: seq<seq<Recipe>>): (flat: seq<Recipe>)
    ensures forall i, x :: 0 <= i < |batches| && x in batches[i] ==> x in flat
    ensures forall x :: x in flat ==> exists i :: 0 <= i < |batches| && x in batches[i]
  {
    if batches == [] then [] else batches[0] + Flatten(batches[1..])
  }

  /** Flattening distributes over concatenation of batch lists. */
  lemma {:induction false} FlattenAppend(a: seq<seq<Recipe>>, b: seq<seq<Recipe>>)
    ensures Flatten(a + b) == Flatten(a) + Flatten(b)
  {
    if a == [] {
      assert a + b == b;
    } else {
      assert (a + b)[1..] == a[1..] + b;
      FlattenAppend(a[1..], b);
    }
  }

  /** Letter order is array order: the records of batch `i` form one block,
      after every earlier batch and before every later one. */
  lemma {:induction false} FlattenKeepsBatchOrder(batches: seq<seq<Recipe>>, i: nat)
    requires i < |batches|
    ensures Flatten(batches) == Flatten(batches[..i]) + batches[i] + Flatten(batches[i + 1..])
  {
    var before, after := batches[..i], batches[i + 1..];
    var rest := [batches[i]] + after;
    assert batches == before + rest;
    FlattenAppend(before, rest);
    assert rest[1..] == after;
    assert Flatten(rest) == batches[i] + Flatten(after);
  }

  // ---------------------------------------------------------------------------
  // The de-duplicating merge: every record of the flattened list is stored
  // in a map under its id, then the map's values are read out.  A JavaScript `Map`
  // iterates in key-insertion order, and `set` on an existing key keeps its
  // position but replaces its value.
  // ---------------------------------------------------------------------------

  /** The set of ids occurring in a list of records. */
  function IdSet(s: seq<Recipe>): set<string> {
    set k | 0 <= k < |s| :: s[k].idMeal
  }

  /** True when no id occurs twice in `ids`. */
  predicate Distinct(ids: seq<string>) {
    forall i, j :: 0 <= i < j < |ids| ==> ids[i] != ids[j]
  }

  /** The keys of the map after inserting every record of `s` in order. */
  function InsertionOrder(s: seq<Recipe>): (ids: seq<string>)
    ensures Distinct(ids)
    ensures forall id :: id in ids <==> id in IdSet(s)
  {
    if s == [] then []
    else
      var prefix := InsertionOrder(s[..|s| - 1]);
      var id := s[|s| - 1].idMeal;
      assert IdSet(s) == IdSet(s[..|s| - 1]) + {id};
      if id in prefix then prefix else prefix + [id]
  }

  /** The map's contents after inserting every record of `s` in order. */
  function Stored(s: seq<Recipe>): (m: map<string, Recipe>)
    ensures m.Keys == IdSet(s)
  {
    if s == [] then map[]
    else
      assert IdSet(s) == IdSet(s[..|s| - 1]) + {s[|s| - 1].idMeal};
      Stored(s[..|s| - 1])[s[|s| - 1].idMeal := s[|s| - 1]]
  }

  /** The merged list: the stored records, read out in key order. */
  function MergeById(s: seq<Recipe>): seq<Recipe> {
    var ids := InsertionOrder(s);
    var m := Stored(s);
    seq(|ids|, i requires 0 <= i < |ids| => m[ids[i]])
  }

  /** Position of the first record with id `id`. */
  function FirstIndex(s: seq<Recipe>, id: string): (k: nat)
    requires id in IdSet(s)
    ensures k < |s| && s[k].idMeal == id
    ensures forall q :: 0 <= q < k ==> s[q].idMeal != id
  {
    if s[0].idMeal == id then 0
    else
      assert id in IdSet(s[1..]) by {
        var k :| 0 <= k < |s| && s[k].idMeal == id;
        assert s[1..][k - 1].idMeal == id;
      }
      1 + FirstIndex(s[1..], id)
  }

  /** Position of the last record with id `id`. */
  function LastIndex(s: seq<Recipe>, id: string): (k: nat)
    requires id in IdSet(s)
    ensures k < |s| && s[k].idMeal == id
    ensures forall q :: k < q < |s| ==> s[q].idMeal != id
  {
    if s[|s| - 1].idMeal == id then |s| - 1
    else
      assert IdSet(s) == IdSet(s[..|s| - 1]) + {s[|s| - 1].idMeal};
      LastIndex(s[..|s| - 1], id)
  }

  /** `Map.set` overwrites: the record stored under an id is its last
      occurrence in the inserted list. */
  lemma {:induction false} StoredIsLastOccurrence(s: seq<Recipe>, id: string)
    requires id in IdSet(s)
    ensures id in Stored(s) && Stored(s)[id] == s[LastIndex(s, id)]
  {
    var prefix := s[..|s| - 1];
    if s[|s| - 1].idMeal != id {
      assert IdSet(s) == IdSet(prefix) + {s[|s| - 1].idMeal};
      StoredIsLastOccurrence(prefix, id);
    }
  }

  /** The first occurrence of an id that already occurs in a prefix does not
      move when records are appended. */
  lemma FirstIndexOfPrefix(s: seq<Recipe>, n: nat, id: string)
    requires n <= |s| && id in IdSet(s[..n])
    ensures id in IdSet(s) && FirstIndex(s, id) == FirstIndex(s[..n], id)
  {
  }

  /** Map keys come out in order of first occurrence in the inserted list. */
  lemma {:induction false} InsertionOrderIsFirstOccurrence(s: seq<Recipe>)
    ensures forall i, j :: 0 <= i < j < |InsertionOrder(s)| ==>
      FirstIndex(s, InsertionOrder(s)[i]) < FirstIndex(s, InsertionOrder(s)[j])
  {
    if s != [] {
      var prefix := s[..|s| - 1];
      InsertionOrderIsFirstOccurrence(prefix);
      var ids := InsertionOrder(s);
      var pids := InsertionOrder(prefix);
      assert prefix == s[..|s| - 1];
      forall i | 0 <= i < |pids|
        ensures FirstIndex(s, pids[i]) == FirstIndex(prefix, pids[i]) < |prefix|
      {
        FirstIndexOfPrefix(s, |s| - 1, pids[i]);
      }
      var last := s[|s| - 1].idMeal;
      if last !in pids {
        assert last !in IdSet(prefix);
        assert FirstIndex(s, last) == |s| - 1;
      }
    }
  }

  /** The merged list has at most one record per `idMeal`. */
  lemma MergeHasUniqueIds(s: seq<Recipe>)
    ensures forall i, j :: 0 <= i < j < |MergeById(s)| ==>
      MergeById(s)[i].idMeal != MergeById(s)[j].idMeal
  {
    var ids := InsertionOrder(s);
    forall i | 0 <= i < |ids| ensures MergeById(s)[i].idMeal == ids[i] {
      StoredIsLastOccurrence(s, ids[i]);
    }
  }

  /** Every id of the input is in the merged list, and every merged record
      is one of the input records. */
  lemma MergeCoversInput(s: seq<Recipe>)
    ensures forall k :: 0 <= k < |s| ==> exists i :: 0 <= i < |MergeById(s)| && MergeById(s)[i].idMeal == s[k].idMeal
    ensures forall r :: r in MergeById(s) ==> r in s
  {
    var ids := InsertionOrder(s);
    var merged := MergeById(s);
    forall i | 0 <= i < |ids| ensures merged[i].idMeal == ids[i] && merged[i] in s {
      StoredIsLastOccurrence(s, ids[i]);
    }
    forall k | 0 <= k < |s|
      ensures exists i :: 0 <= i < |merged| && merged[i].idMeal == s[k].idMeal
    {
      assert s[k].idMeal in IdSet(s);
      var i :| 0 <= i < |ids| && ids[i] == s[k].idMeal;
      assert merged[i].idMeal == s[k].idMeal;
    }
  }

  /** Merged order is the order of first occurrence of each id. */
  lemma MergeKeepsFirstOccurrenceOrder(s: seq<Recipe>)
    ensures forall r :: r in MergeById(s) ==> r.idMeal in IdSet(s)
    ensures forall i, j :: 0 <= i < j < |MergeById(s)| ==>
      FirstIndex(s, MergeById(s)[i].idMeal) < FirstIndex(s, MergeById(s)[j].idMeal)
  {
    var ids := InsertionOrder(s);
    var merged := MergeById(s);
    forall i | 0 <= i < |ids| ensures merged[i].idMeal == ids[i] {
      StoredIsLastOccurrence(s, ids[i]);
    }
    InsertionOrderIsFirstOccurrence(s);
  }

  /** For a duplicated id the merged record is its last occurrence. */
  lemma MergeKeepsLastWrite(s: seq<Recipe>)
    ensures forall r :: r in MergeById(s) ==> r.idMeal in IdSet(s) && r == s[LastIndex(s, r.idMeal)]
  {
    var ids := InsertionOrder(s);
    var merged := MergeById(s);
    forall i | 0 <= i < |ids|
      ensures merged[i].idMeal == ids[i] && merged[i] == s[LastIndex(s, ids[i])]
    {
      StoredIsLastOccurrence(s, ids[i]);
    }
  }

  /** The ids of a list, in list order. */
  function IdsOf(s: seq<Recipe>): seq<string> {
    seq(|s|, i requires 0 <= i < |s| => s[i].idMeal)
  }

  lemma {:induction false} InsertionOrderOfDistinct(s: seq<Recipe>)
    requires Distinct(IdsOf(s))
    ensures InsertionOrder(s) == IdsOf(s)
  {
    if s != [] {
      var prefix := s[..|s| - 1];
      assert IdsOf(prefix) == IdsOf(s)[..|s| - 1];
      InsertionOrderOfDistinct(prefix);
      forall k | 0 <= k < |prefix| ensures IdsOf(prefix)[k] != s[|s| - 1].idMeal {
        assert IdsOf(prefix)[k] == IdsOf(s)[k];
        assert IdsOf(s)[|s| - 1] == s[|s| - 1].idMeal;
      }
    }
  }

  /** Merging a list whose ids are already unique changes nothing. */
  lemma MergeOfUniqueIsIdentity(s: seq<Recipe>)
    requires Distinct(IdsOf(s))
    ensures MergeById(s) == s
  {
    InsertionOrderOfDistinct(s);
    forall i | 0 <= i < |s| ensures MergeById(s)[i] == s[i] {
      assert s[i].idMeal in IdSet(s);
      StoredIsLastOccurrence(s, s[i].idMeal);
      var k := LastIndex(s, s[i].idMeal);
      assert IdsOf(s)[k] == IdsOf(s)[i];
    }
  }

  /**
   * The `forEach` loop of `fetchAllAlphabetically` (lines 44-48): insert each
   * record into a map keyed by `idMeal`, remembering the order in which keys
   * were first inserted, then read the values out in that order.
   */
  method MergeUnique(flat: seq<Recipe>) returns (merged: seq<Recipe>)
    ensures merged == MergeById(flat)
  {
    var unique: map<string, Recipe> := map[];
    var order: seq<string> := [];
    var i := 0;
    while i < |flat|
      invariant 0 <= i <= |flat|
      invariant order == InsertionOrder(flat[..i])
      invariant unique == Stored(flat[..i])
    {
      var meal := flat[i];
      assert flat[..i + 1][..i] == flat[..i];
      if meal.idMeal !in unique {
        order := order + [meal.idMeal];
      }
      unique := unique[meal.idMeal := meal];
      i := i + 1;
    }
    assert flat[..i] == flat;
    merged := seq(|order|, k requires 0 <= k < |order| => unique[order[k]]);
  }

  /**
   * `fetchAllAlphabetically`: one request per letter a..z; a failed letter
   * contributes an empty batch, the batches are flattened in letter order and
   * merged by id.  It never fails as a whole.
   */
  method FetchAllAlphabetically(letters: seq<HttpResponse>) returns (meals: seq<Recipe>)
    requires |letters| == |Alphabet|
    ensures meals == MergeById(Flatten(LetterBatches(letters)))
  {
    var allResults := LetterBatches(letters);
    meals := MergeUnique(Flatten(allResults));
  }

  /** Every id served by a letter whose request succeeded is in the merged
      catalog, whatever happened to the other letters. */
  lemma AlphabetCoversSuccessfulLetters(letters: seq<HttpResponse>, i: nat, r: Recipe)
    requires |letters| == |Alphabet| && i < |letters|
    requires Readable(letters[i]) && r in MealsOrEmpty(letters[i].body.meals)
    ensures exists m :: m in MergeById(Flatten(LetterBatches(letters))) && m.idMeal == r.idMeal
  {
    var flat := Flatten(LetterBatches(letters));
    assert r in flat;
    var k :| 0 <= k < |flat| && flat[k] == r;
    MergeCoversInput(flat);
    var j :| 0 <= j < |MergeById(flat)| && MergeById(flat)[j].idMeal == flat[k].idMeal;
    assert MergeById(flat)[j] in MergeById(flat);
  }

  /** A failed letter is indistinguishable from a letter with no meals. */
  lemma FailedLetterIsEmptyLetter(letters: seq<HttpResponse>, i: nat, failure: HttpResponse)
    requires |letters| == |Alphabet| && i < |letters| && !Readable(failure)
    ensures MergeById(Flatten(LetterBatches(letters[i := failure])))
         == MergeById(Flatten(LetterBatches(letters[i := Response(200, Json(Some([])))]))) 
  {
    assert LetterBatches(letters[i := failure]) == LetterBatches(letters[i := Response(200, Json(Some([])))]);
  }
}
