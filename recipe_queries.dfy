/** The client-side category filter applied to a list of recipes already fetched. */
module RecipeQueries {
  import opened RecipeTypes
  import opened Seqs
  import opened MealApi

  /**
   * `useFilterByCategory`: a falsy category (null or empty) keeps the list as
   * it is; otherwise only the recipes of exactly that category, in order.
   */
  function UseFilterByCategory(recipes: seq<Recipe>, category: Option<string>): (filtered: seq<Recipe>)
    ensures !Truthy(category) ==> filtered == recipes
    ensures Truthy(category) ==> forall i :: 0 <= i < |filtered| ==> filtered[i].strCategory == category.value
    ensures Truthy(category) ==> forall r :: r in recipes && r.strCategory == category.value ==> r in filtered
    ensures forall r :: r in filtered ==> r in recipes
    ensures Truthy(category) ==> forall r ::
      multiset(filtered)[r] == if r.strCategory == category.value then multiset(recipes)[r] else 0
    ensures IsSubsequence(filtered, recipes) && |filtered| <= |recipes|
  {
    if !Truthy(category) then
      SubsequenceReflexive(recipes);
      recipes
    else
      ByCategory(recipes, category.value)
  }

  /** Filtering twice by the same category is filtering once. */
  lemma UseFilterByCategoryIdempotent(recipes: seq<Recipe>, category: Option<string>)
    ensures UseFilterByCategory(UseFilterByCategory(recipes, category), category)
         == UseFilterByCategory(recipes, category)
  {
    if Truthy(category) {
      ByCategoryIdempotent(recipes, category.value);
    }
  }
}
