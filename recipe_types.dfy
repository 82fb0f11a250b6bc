/**
 * The canonical records the application works with: a nullable value, an
 * ingredient line and a normalised recipe as produced from the upstream
 * recipe API payload.
 */
module RecipeTypes {

  /** A value that may be absent: JavaScript's `null` / `undefined`. */
  datatype Option<+T> = None | Some(value: T)

  /** One ingredient line of a recipe: the ingredient's name and its measure. */
  datatype Ingredient = Ingredient(name: string, measure: string)

  /**
   * A normalised recipe. `strTags` and `strYoutube` are absent (`undefined`)
   * when the upstream payload had nothing for them.
   */
  datatype Recipe = Recipe(
    idMeal: string,
    strMeal: string,
    strCategory: string,
    strArea: string,
    strInstructions: string,
    strMealThumb: string,
    strTags: Option<string>,
    strYoutube: Option<string>,
    ingredients: seq<Ingredient>)

  /** JavaScript truthiness of a nullable string: falsy exactly for null/undefined and `''`. */
  predicate Truthy(s: Option<string>)
    ensures !Truthy(s) <==> s == None || s == Some("")
    ensures Truthy(s) ==> |s.value| >= 1
  {
    s.Some? && s.value != ""
  }
}
