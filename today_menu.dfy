/**
 * `TodayMenuView`: the recipe list with its cuisine chips. The screen's
 * state is a class; the chips and the filtered list are functions of it.
 */
module TodayMenu {
  import opened Wrappers
  import opened Text
  import opened DataProvider

  /** The first chip, which selects every recipe. */
  const AllCuisines := "すべて"
  const FailurePrefix := "レシピの取得に失敗しました。\n"

  /** The non-empty cuisines of the recipes, in recipe order (`compactMap`). */
  function Cuisines(recipes: seq<RecipeSummary>): (r: seq<string>)
    ensures forall c :: c in r <==>
      c != [] && exists i :: 0 <= i < |recipes| && recipes[i].cuisine == Some(c)
  {
    if recipes == [] then []
    else
      var init, last := recipes[..|recipes| - 1], recipes[|recipes| - 1];
      assert forall i :: 0 <= i < |init| ==> init[i] == recipes[i];
      Cuisines(init) + (if last.cuisine.Some? && last.cuisine.value != [] then [last.cuisine.value] else [])
  }

  /** `availableCuisines`: "すべて", then each non-empty cuisine once, in ascending order. */
  function AvailableCuisines(recipes: seq<RecipeSummary>): (r: seq<string>)
    ensures |r| >= 1 && r[0] == AllCuisines
    ensures StrictlySorted(r[1..])
    ensures forall c :: c in r[1..] <==>
      c != [] && exists i :: 0 <= i < |recipes| && recipes[i].cuisine == Some(c)
  {
    var unique := SortedDistinct(Cuisines(recipes));
    assert ([AllCuisines] + unique)[1..] == unique;
    [AllCuisines] + unique
  }

  /** The chips depend only on which recipes there are, not on their order. */
  lemma AvailableCuisinesOrderFree(a: seq<RecipeSummary>, b: seq<RecipeSummary>)
    requires multiset(a) == multiset(b)
    ensures AvailableCuisines(a) == AvailableCuisines(b)
  {
    var ra, rb := AvailableCuisines(a), AvailableCuisines(b);
    forall c ensures c in ra[1..] <==> c in rb[1..] {
      if c in ra[1..] {
        var i :| 0 <= i < |a| && a[i].cuisine == Some(c);
        assert a[i] in multiset(b);
        var j :| 0 <= j < |b| && b[j] == a[i];
      }
      if c in rb[1..] {
        var j :| 0 <= j < |b| && b[j].cuisine == Some(c);
        assert b[j] in multiset(a);
        var i :| 0 <= i < |a| && a[i] == b[j];
      }
    }
    StrictlySortedUnique(ra[1..], rb[1..]);
    assert ra == [ra[0]] + ra[1..] && rb == [rb[0]] + rb[1..];
  }

  /** The recipes whose cuisine is `c`, in their original order. */
  function WithCuisine(recipes: seq<RecipeSummary>, c: string): (r: seq<RecipeSummary>)
    ensures |r| <= |recipes|
    ensures forall x :: x in r <==> x in recipes && x.cuisine == Some(c)
  {
    if recipes == [] then []
    else
      var init, last := recipes[..|recipes| - 1], recipes[|recipes| - 1];
      assert recipes == init + [last];
      WithCuisine(init, c) + (if last.cuisine == Some(c) then [last] else [])
  }

  /** Filtering keeps order: it distributes over concatenation. */
  lemma {:induction false} WithCuisineAppend(a: seq<RecipeSummary>, b: seq<RecipeSummary>, c: string)
    ensures WithCuisine(a + b, c) == WithCuisine(a, c) + WithCuisine(b, c)
    decreases |b|
  {
    if b == [] {
      assert a + b == a;
    } else {
      var init, last := b[..|b| - 1], b[|b| - 1];
      assert (a + b)[..|a + b| - 1] == a + init;
      WithCuisineAppend(a, init, c);
    }
  }

  /** `filteredRecipes` */
  function FilteredRecipes(recipes: seq<RecipeSummary>, selected: string): (r: seq<RecipeSummary>)
    ensures selected == AllCuisines ==> r == recipes
    ensures selected != AllCuisines ==> forall x :: x in r <==> x in recipes && x.cuisine == Some(selected)
  {
    if selected == AllCuisines then recipes else WithCuisine(recipes, selected)
  }

  /** While the selection is one of the chips, a non-empty list never filters down to nothing. */
  lemma SelectionShowsSomething(recipes: seq<RecipeSummary>, selected: string)
    requires recipes != [] && selected in AvailableCuisines(recipes)
    ensures FilteredRecipes(recipes, selected) != []
  {
    var r := AvailableCuisines(recipes);
    if selected != AllCuisines {
      var k :| 0 <= k < |r| && r[k] == selected;
      assert selected in r[1..] by { assert r[1..][k - 1] == selected; }
      var i :| 0 <= i < |recipes| && recipes[i].cuisine == Some(selected);
      assert recipes[i] in FilteredRecipes(recipes, selected);
    }
  }

  /** What the screen shows: a spinner, the error card, or the filtered recipe cards. */
  datatype Screen = Spinner | ErrorCard(message: string) | Cards(recipes: seq<RecipeSummary>)

  class TodayMenuModel {
    var recipes: seq<RecipeSummary>
    var selectedCuisine: string
    var isLoading: bool
    var errorMessage: Option<string>

    /** The selected chip is always one of the chips on show. */
    predicate Valid()
      reads this
    {
      selectedCuisine in AvailableCuisines(recipes)
    }

    /** `body`: the spinner wins over the error, the error over the cards. */
    function Shown(): (s: Screen)
      reads this
      ensures isLoading ==> s == Spinner
      ensures !isLoading && errorMessage.Some? ==> s == ErrorCard(errorMessage.value)
      ensures !isLoading && errorMessage.None? ==> s == Cards(FilteredRecipes(recipes, selectedCuisine))
    {
      if isLoading then Spinner
      else if errorMessage.Some? then ErrorCard(errorMessage.value)
      else Cards(FilteredRecipes(recipes, selectedCuisine))
    }

    constructor()
      ensures recipes == [] && selectedCuisine == AllCuisines && isLoading && errorMessage == None
      ensures Valid()
    {
      recipes, selectedCuisine, isLoading, errorMessage := [], AllCuisines, true, None;
    }

    /** Tapping a chip selects its cuisine. */
    method SelectCuisine(cuisine: string)
      requires cuisine in AvailableCuisines(recipes)
      modifies this
      ensures selectedCuisine == cuisine && Valid()
      ensures recipes == old(recipes) && isLoading == old(isLoading) && errorMessage == old(errorMessage)
    {
      selectedCuisine := cuisine;
    }

    /**
     * `load()`: `fetched` is what the data provider answered, a list of
     * summaries or the failure's localized description. A selection that
     * the new chips no longer offer falls back to "すべて".
     */
    method Load(fetched: Result<seq<RecipeSummary>, string>)
      requires Valid()
      modifies this
      ensures !isLoading && Valid()
      ensures fetched.Ok? ==> recipes == fetched.value && errorMessage == None
      ensures fetched.Ok? && old(selectedCuisine) in AvailableCuisines(recipes) ==> selectedCuisine == old(selectedCuisine)
      ensures fetched.Ok? && old(selectedCuisine) !in AvailableCuisines(recipes) ==> selectedCuisine == AllCuisines
      ensures fetched.Err? ==> recipes == old(recipes) && selectedCuisine == old(selectedCuisine)
      ensures fetched.Err? ==> errorMessage == Some(FailurePrefix + fetched.error)
    {
      isLoading := true;
      errorMessage := None;
      match fetched {
        case Ok(rows) =>
          recipes := rows;
          if selectedCuisine !in AvailableCuisines(recipes) {
            selectedCuisine := AllCuisines;
          }
          isLoading := false;
        case Err(description) =>
          errorMessage := Some(FailurePrefix + description);
          isLoading := false;
      }
    }
  }
}
