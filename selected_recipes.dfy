/**
 * The selection store: the ordered list of recipes the user has picked, with
 * no two sharing an `idMeal`, its mutators, its membership test and the
 * combined ingredient listing derived from it.
 */
module SelectedRecipes {
  import opened RecipeTypes
  import opened Seqs
  import opened IngredientAggregator

  /** `recipes.some(r => r.idMeal === id)`. */
  function HasId(recipes: seq<Recipe>, id: string): (found: bool)
    ensures found <==> exists i :: 0 <= i < |recipes| && recipes[i].idMeal == id
  {
    |recipes| > 0 && (recipes[0].idMeal == id || HasId(recipes[1..], id))
  }

  /** No two recipes of the list share an `idMeal`. */
  ghost predicate UniqueIds(recipes: seq<Recipe>)
  {
    forall i, j :: 0 <= i < j < |recipes| ==> recipes[i].idMeal != recipes[j].idMeal
  }

  /**
   * The list after adding `recipe`: unchanged when its id is present, else
   * appended. Either way the id is present and the earlier entries keep their
   * places; at most one entry is added.
   */
  function WithRecipe(recipes: seq<Recipe>, recipe: Recipe): (added: seq<Recipe>)
    ensures HasId(added, recipe.idMeal)
    ensures |recipes| <= |added| <= |recipes| + 1 && added[..|recipes|] == recipes
  {
    assert (recipes + [recipe])[|recipes|] == recipe;
    assert (recipes + [recipe])[..|recipes|] == recipes;
    if HasId(recipes, recipe.idMeal) then recipes else recipes + [recipe]
  }

  /** The list after removing `id`: `recipes.filter(r => r.idMeal !== id)`; no entry with that id is left. */
  function WithoutId(recipes: seq<Recipe>, id: string): (removed: seq<Recipe>)
    ensures !HasId(removed, id) && |removed| <= |recipes|
  {
    Filter(recipes, (r: Recipe) => r.idMeal != id)
  }

  /** The list after toggling `recipe`: removed when selected, added otherwise; its selection flips. */
  function Toggled(recipes: seq<Recipe>, recipe: Recipe): (toggled: seq<Recipe>)
    ensures HasId(toggled, recipe.idMeal) <==> !HasId(recipes, recipe.idMeal)
  {
    if HasId(recipes, recipe.idMeal) then WithoutId(recipes, recipe.idMeal) else WithRecipe(recipes, recipe)
  }

  /**
   * Adding keeps every earlier entry in place and in order, leaves the list as
   * it was when the id is already there, appends the recipe otherwise, and is
   * idempotent.
   */
  lemma AddSpec(recipes: seq<Recipe>, recipe: Recipe)
    ensures var added := WithRecipe(recipes, recipe);
      && HasId(added, recipe.idMeal)
      && |added| >= |recipes| && added[..|recipes|] == recipes
      && (HasId(recipes, recipe.idMeal) ==> added == recipes)
      && (!HasId(recipes, recipe.idMeal) ==> added == recipes + [recipe])
      && WithRecipe(added, recipe) == added
  {
    var added := WithRecipe(recipes, recipe);
    if !HasId(recipes, recipe.idMeal) {
      assert added[|recipes|] == recipe;
      assert added[..|recipes|] == recipes;
    }
  }

  /** Adding never creates a second entry with the same id. */
  lemma AddKeepsUnique(recipes: seq<Recipe>, recipe: Recipe)
    requires UniqueIds(recipes)
    ensures UniqueIds(WithRecipe(recipes, recipe))
  {
  }

  /** Filtering a list whose ids are distinct keeps them distinct. */
  lemma {:induction false} FilterKeepsUnique(recipes: seq<Recipe>, p: Recipe -> bool)
    requires UniqueIds(recipes)
    ensures UniqueIds(Filter(recipes, p))
  {
    if |recipes| > 0 {
      var rest := recipes[1..];
      FilterKeepsUnique(rest, p);
      FilterMembership(rest, p);
      var r := Filter(recipes, p);
      if p(recipes[0]) {
        assert r == [recipes[0]] + Filter(rest, p);
        forall j | 1 <= j < |r| ensures r[0].idMeal != r[j].idMeal {
          assert r[j] in rest;
          var k :| 0 <= k < |rest| && rest[k] == r[j];
          assert recipes[k + 1] == r[j];
        }
      } else {
        assert r == Filter(rest, p);
      }
    }
  }

  /**
   * Removing `id` drops every entry with that id and keeps each other entry
   * exactly as often as it occurred, in the original order; it changes nothing
   * when the id is absent, and never creates a duplicate id.
   */
  lemma RemoveSpec(recipes: seq<Recipe>, id: string)
    ensures var removed := WithoutId(recipes, id);
      && !HasId(removed, id)
      && (forall r :: r in removed <==> r in recipes && r.idMeal != id)
      && (forall r :: multiset(removed)[r] == if r.idMeal != id then multiset(recipes)[r] else 0)
      && IsSubsequence(removed, recipes)
      && (!HasId(recipes, id) ==> removed == recipes)
      && (UniqueIds(recipes) ==> UniqueIds(removed))
  {
    var p := (r: Recipe) => r.idMeal != id;
    FilterIsSubsequence(recipes, p);
    FilterMembership(recipes, p);
    FilterMultiplicity(recipes, p);
    if UniqueIds(recipes) {
      FilterKeepsUnique(recipes, p);
    }
    if !HasId(recipes, id) {
      FilterAllKept(recipes, p);
    }
  }

  /** Toggling flips membership of the recipe's id and never creates a duplicate id. */
  lemma ToggleSpec(recipes: seq<Recipe>, recipe: Recipe)
    ensures HasId(Toggled(recipes, recipe), recipe.idMeal) <==> !HasId(recipes, recipe.idMeal)
    ensures UniqueIds(recipes) ==> UniqueIds(Toggled(recipes, recipe))
  {
    RemoveSpec(recipes, recipe.idMeal);
    AddSpec(recipes, recipe);
    if UniqueIds(recipes) {
      AddKeepsUnique(recipes, recipe);
    }
  }

  /** Toggling twice, starting with the id absent, restores the exact list. */
  lemma ToggleTwiceFromAbsent(recipes: seq<Recipe>, recipe: Recipe)
    requires !HasId(recipes, recipe.idMeal)
    ensures Toggled(Toggled(recipes, recipe), recipe) == recipes
  {
    var p := (r: Recipe) => r.idMeal != recipe.idMeal;
    assert Toggled(recipes, recipe) == recipes + [recipe];
    assert HasId(recipes + [recipe], recipe.idMeal) by {
      assert (recipes + [recipe])[|recipes|] == recipe;
    }
    FilterConcat(recipes, [recipe], p);
    FilterAllKept(recipes, p);
    assert Filter([recipe], p) == [];
  }

  /**
   * Toggling twice, starting with the id present, leaves it present again but
   * with `recipe` moved to the end: every other entry stays in order.
   */
  lemma ToggleTwiceFromPresent(recipes: seq<Recipe>, recipe: Recipe)
    requires HasId(recipes, recipe.idMeal)
    ensures Toggled(Toggled(recipes, recipe), recipe) == WithoutId(recipes, recipe.idMeal) + [recipe]
    ensures HasId(Toggled(Toggled(recipes, recipe), recipe), recipe.idMeal)
  {
    RemoveSpec(recipes, recipe.idMeal);
    var twice := WithoutId(recipes, recipe.idMeal) + [recipe];
    assert twice[|twice| - 1] == recipe;
  }

  /**
   * The inner loop of `getCombinedIngredients`: records one recipe's
   * ingredient lines, in order, into the map filled so far.
   */
  method RecordRecipe(entries: seq<Entry>, ghost done: seq<Occurrence>, recipe: Recipe) returns (recorded: seq<Entry>)
    requires entries == Group(done)
    ensures recorded == Group(done + RecipeOccurrences(recipe))
  {
    recorded := entries;
    var j := 0;
    TakeEnds(done, RecipeOccurrences(recipe));
    while j < |recipe.ingredients|
      invariant 0 <= j <= |recipe.ingredients|
      invariant recorded == Group(done + RecipeOccurrences(recipe)[..j])
    {
      GroupStep(done, recipe, j, recorded);
      recorded := Record(recorded, OccurrenceOf(recipe, recipe.ingredients[j]));
      j := j + 1;
    }
  }

  /** The selection store (the state of the `useSelectedRecipes` hook). */
  class SelectionStore {
    var selectedRecipes: seq<Recipe>

    /** The store's invariant: no two selected recipes share an id. */
    ghost predicate Valid()
      reads this
    {
      UniqueIds(selectedRecipes)
    }

    /** A session starts with nothing selected. */
    constructor ()
      ensures Valid() && selectedRecipes == []
    {
      selectedRecipes := [];
    }

    /** `addRecipe`: a no-op when the id is already selected, else appends. */
    method AddRecipe(recipe: Recipe)
      requires Valid()
      modifies this
      ensures Valid()
      ensures selectedRecipes == WithRecipe(old(selectedRecipes), recipe)
    {
      if !HasId(selectedRecipes, recipe.idMeal) {
        selectedRecipes := selectedRecipes + [recipe];
      }
    }

    /** `removeRecipe`: keeps the recipes whose id differs from `recipeId`. */
    method RemoveRecipe(recipeId: string)
      requires Valid()
      modifies this
      ensures Valid()
      ensures selectedRecipes == WithoutId(old(selectedRecipes), recipeId)
    {
      RemoveSpec(selectedRecipes, recipeId);
      selectedRecipes := WithoutId(selectedRecipes, recipeId);
    }

    /** `isSelected`: some selected recipe has id `recipeId`. */
    function IsSelected(recipeId: string): (selected: bool)
      reads this
      ensures selected <==> exists i :: 0 <= i < |selectedRecipes| && selectedRecipes[i].idMeal == recipeId
    {
      HasId(selectedRecipes, recipeId)
    }

    /** `toggleRecipe`: remove when selected, add otherwise; membership flips. */
    method ToggleRecipe(recipe: Recipe)
      requires Valid()
      modifies this
      ensures Valid()
      ensures selectedRecipes == Toggled(old(selectedRecipes), recipe)
      ensures IsSelected(recipe.idMeal) <==> !old(IsSelected(recipe.idMeal))
    {
      ToggleSpec(selectedRecipes, recipe);
      if IsSelected(recipe.idMeal) {
        RemoveRecipe(recipe.idMeal);
      } else {
        AddRecipe(recipe);
      }
    }

    /** `clearSelectedRecipes`: nothing selected, so nothing to combine. */
    method ClearSelectedRecipes()
      modifies this
      ensures Valid()
      ensures selectedRecipes == []
      ensures CombinedIngredients(selectedRecipes) == []
    {
      selectedRecipes := [];
    }

    /**
     * `getCombinedIngredients`: walks the selection and each recipe's
     * ingredients in order, recording every occurrence in an insertion-ordered
     * map, then renders the map's entries.
     */
    method GetCombinedIngredients() returns (combined: seq<CombinedIngredient>)
      ensures combined == CombinedIngredients(selectedRecipes)
    {
      var entries: seq<Entry> := [];
      var i := 0;
      while i < |selectedRecipes|
        invariant 0 <= i <= |selectedRecipes|
        invariant entries == Group(Occurrences(selectedRecipes[..i]))
      {
        entries := RecordRecipe(entries, Occurrences(selectedRecipes[..i]), selectedRecipes[i]);
        OccurrencesSnoc(selectedRecipes, i);
        i := i + 1;
      }
      assert selectedRecipes[..i] == selectedRecipes;
      combined := Render(entries);
    }
  }
}
