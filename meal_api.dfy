/**
 * Normalisation of the upstream recipe API's payloads: the fixed-shape meal
 * record with twenty numbered ingredient/measure slots becomes a `Recipe`, and
 * each lookup shapes an already received `{ meals: [...] | null }` response.
 * The HTTP requests themselves are not modelled; a response (or, for the
 * alphabet sweep, the response for each letter) is a parameter.
 */
module MealApi {
  import opened RecipeTypes
  import opened Text
  import opened Seqs

  /** The number of numbered ingredient/measure slots in a raw meal. */
  const SlotCount: nat := 20

  /**
   * A meal as the API sends it. `strIngredient[k]` and `strMeasure[k]` are the
   * fields `strIngredient{k+1}` and `strMeasure{k+1}`; a slot past the end of
   * the sequence is a missing field.
   */
  datatype RawMeal = RawMeal(
    idMeal: string,
    strMeal: string,
    strCategory: string,
    strArea: string,
    strInstructions: string,
    strMealThumb: string,
    strTags: Option<string>,
    strYoutube: Option<string>,
    strIngredient: seq<Option<string>>,
    strMeasure: seq<Option<string>>)

  /** The body of a meal search or lookup: `meals` is `null` when nothing matched. */
  datatype RecipeResponse = RecipeResponse(meals: Option<seq<RawMeal>>)

  /** The value of numbered field `i` (1-based); a missing field reads as absent. */
  function Slot(fields: seq<Option<string>>, i: nat): (v: Option<string>)
    ensures v.Some? ==> 1 <= i <= |fields| && v == fields[i - 1]
  {
    if 1 <= i <= |fields| then fields[i - 1] else None
  }

  /** A slot value that counts: present, non-empty, and not blank after trimming. */
  predicate Filled(v: Option<string>)
    ensures Filled(v) ==> Truthy(v) && |v.value| >= 1
  {
    Truthy(v) && Trim(v.value) != ""
  }

  /** Slot `i` yields an ingredient: both its name and its measure are filled. */
  predicate SlotKept(meal: RawMeal, i: nat)
    ensures SlotKept(meal, i) ==> 1 <= i <= |meal.strIngredient| && 1 <= i <= |meal.strMeasure|
  {
    Filled(Slot(meal.strIngredient, i)) && Filled(Slot(meal.strMeasure, i))
  }

  /** The ingredient that a kept slot yields: name and measure exactly as sent. */
  function SlotIngredient(meal: RawMeal, i: nat): Ingredient
    requires SlotKept(meal, i)
  {
    Ingredient(Slot(meal.strIngredient, i).value, Slot(meal.strMeasure, i).value)
  }

  /** A slot value counts exactly when it is present and holds some non-whitespace character. */
  lemma FilledNonBlank(v: Option<string>)
    ensures Filled(v) <==> v.Some? && exists k :: 0 <= k < |v.value| && !IsWhitespace(v.value[k])
  {
    if v.Some? {
      TrimEmpty(v.value);
    }
  }

  /** The indices among 1..n that satisfy `keep`, in increasing order. */
  function Indices(keep: nat -> bool, n: nat): seq<nat>
  {
    if n == 0 then [] else Indices(keep, n - 1) + (if keep(n) then [n] else [])
  }

  /** The slot test of one meal, as a predicate on slot numbers. */
  function Keeps(meal: RawMeal): nat -> bool
  {
    (i: nat) => SlotKept(meal, i)
  }

  /** The kept slots among 1..n, in increasing order. */
  function KeptSlots(meal: RawMeal, n: nat): seq<nat>
  {
    Indices(Keeps(meal), n)
  }

  /** The ingredients yielded by slots 1..n, in slot order. */
  function KeptIngredients(meal: RawMeal, n: nat): (ings: seq<Ingredient>)
    ensures |ings| <= n
    ensures forall k :: 0 <= k < |ings| ==> ings[k].name != "" && ings[k].measure != ""
  {
    if n == 0 then []
    else KeptIngredients(meal, n - 1) + (if SlotKept(meal, n) then [SlotIngredient(meal, n)] else [])
  }

  /** The selected indices lie in 1..n, satisfy `keep`, and increase. */
  lemma {:induction false} IndicesOrdered(keep: nat -> bool, n: nat)
    ensures var ix := Indices(keep, n);
      && |ix| <= n
      && (forall k :: 0 <= k < |ix| ==> 1 <= ix[k] <= n && keep(ix[k]))
      && (forall k, l :: 0 <= k < l < |ix| ==> ix[k] < ix[l])
  {
    if n > 0 {
      IndicesOrdered(keep, n - 1);
      var prev := Indices(keep, n - 1);
      if keep(n) {
        var ix := prev + [n];
        assert Indices(keep, n) == ix;
        assert forall k :: 0 <= k < |prev| ==> ix[k] == prev[k];
      } else {
        assert Indices(keep, n) == prev;
      }
    }
  }

  /** Every index among 1..n that satisfies `keep` is selected. */
  lemma {:induction false} IndicesComplete(keep: nat -> bool, n: nat)
    ensures forall i :: 1 <= i <= n && keep(i) ==> i in Indices(keep, n)
  {
    if n > 0 {
      IndicesComplete(keep, n - 1);
      var prev := Indices(keep, n - 1);
      if keep(n) {
        assert Indices(keep, n) == prev + [n];
        assert (prev + [n])[|prev|] == n;
      } else {
        assert Indices(keep, n) == prev;
      }
    }
  }

  /** The k-th ingredient of slots 1..n is what the k-th kept slot yields. */
  lemma {:induction false} KeptIngredientsMatch(meal: RawMeal, n: nat)
    ensures var slots, ings := KeptSlots(meal, n), KeptIngredients(meal, n);
      && |ings| == |slots|
      && forall k :: 0 <= k < |slots| ==> SlotKept(meal, slots[k]) && ings[k] == SlotIngredient(meal, slots[k])
  {
    if n > 0 {
      KeptIngredientsMatch(meal, n - 1);
      var prev, prevIngs := KeptSlots(meal, n - 1), KeptIngredients(meal, n - 1);
      assert Keeps(meal)(n) == SlotKept(meal, n);
      if SlotKept(meal, n) {
        assert KeptSlots(meal, n) == prev + [n];
        assert KeptIngredients(meal, n) == prevIngs + [SlotIngredient(meal, n)];
      } else {
        assert KeptSlots(meal, n) == prev;
        assert KeptIngredients(meal, n) == prevIngs;
      }
    }
  }

  /**
   * The ingredients of slots 1..n are exactly one per kept slot, in increasing
   * slot order, each the slot's name and measure unchanged.
   */
  lemma KeptIngredientsSpec(meal: RawMeal, n: nat)
    ensures var slots, ings := KeptSlots(meal, n), KeptIngredients(meal, n);
      && |ings| == |slots| <= n
      && (forall k :: 0 <= k < |slots| ==>
            1 <= slots[k] <= n && SlotKept(meal, slots[k]) && ings[k] == SlotIngredient(meal, slots[k]))
      && (forall k, l :: 0 <= k < l < |slots| ==> slots[k] < slots[l])
      && (forall i :: 1 <= i <= n && SlotKept(meal, i) ==> i in slots)
  {
    IndicesOrdered(Keeps(meal), n);
    IndicesComplete(Keeps(meal), n);
    KeptIngredientsMatch(meal, n);
    assert forall i :: Keeps(meal)(i) == SlotKept(meal, i);
  }

  /** `strTags || undefined`: absent when null or empty, otherwise the value as sent. */
  function OrUndefined(v: Option<string>): (r: Option<string>)
    ensures r.None? <==> !Truthy(v)
    ensures r.Some? ==> r == v
  {
    if Truthy(v) then v else None
  }

  /** The normalised recipe of a raw meal (what `transformRecipe` returns). */
  function Transformed(meal: RawMeal): (recipe: Recipe)
    ensures |recipe.ingredients| <= SlotCount
    ensures forall k :: 0 <= k < |recipe.ingredients| ==>
      recipe.ingredients[k].name != "" && recipe.ingredients[k].measure != ""
    ensures recipe.strTags.Some? <==> Truthy(meal.strTags)
    ensures recipe.strTags.Some? ==> recipe.strTags.value != "" && Some(recipe.strTags.value) == meal.strTags
    ensures recipe.strYoutube.Some? <==> Truthy(meal.strYoutube)
    ensures recipe.strYoutube.Some? ==> recipe.strYoutube.value != "" && Some(recipe.strYoutube.value) == meal.strYoutube
  {
    Recipe(
      meal.idMeal, meal.strMeal, meal.strCategory, meal.strArea, meal.strInstructions, meal.strMealThumb,
      OrUndefined(meal.strTags), OrUndefined(meal.strYoutube),
      KeptIngredients(meal, SlotCount))
  }

  /**
   * `transformRecipe`: scans slots 1 to 20 in order and keeps each slot whose
   * name and measure are both filled; the display fields are copied.
   */
  method TransformRecipe(meal: RawMeal) returns (recipe: Recipe)
    ensures recipe == Transformed(meal)
  {
    var ingredients: seq<Ingredient> := [];
    for i := 1 to SlotCount + 1
      invariant ingredients == KeptIngredients(meal, i - 1)
    {
      var ingredientName := Slot(meal.strIngredient, i);
      var measure := Slot(meal.strMeasure, i);
      if Truthy(ingredientName) && Truthy(measure) && Trim(ingredientName.value) != "" && Trim(measure.value) != "" {
        ingredients := ingredients + [Ingredient(ingredientName.value, measure.value)];
      }
    }
    recipe := Recipe(
      meal.idMeal, meal.strMeal, meal.strCategory, meal.strArea, meal.strInstructions, meal.strMealThumb,
      OrUndefined(meal.strTags), OrUndefined(meal.strYoutube),
      ingredients);
  }

  /**
   * What the normalised recipe holds: the display fields copied unchanged; at
   * most twenty ingredients, one per kept slot in increasing slot order, each
   * with the slot's name and measure as sent.
   */
  lemma TransformSpec(meal: RawMeal)
    ensures var recipe := Transformed(meal);
      && recipe.idMeal == meal.idMeal && recipe.strMeal == meal.strMeal
      && recipe.strCategory == meal.strCategory && recipe.strArea == meal.strArea
      && recipe.strInstructions == meal.strInstructions && recipe.strMealThumb == meal.strMealThumb
      && recipe.strTags == (if Truthy(meal.strTags) then meal.strTags else None)
      && recipe.strYoutube == (if Truthy(meal.strYoutube) then meal.strYoutube else None)
      && |recipe.ingredients| == |KeptSlots(meal, SlotCount)| <= SlotCount
      && (forall k :: 0 <= k < |recipe.ingredients| ==>
            var slot := KeptSlots(meal, SlotCount)[k];
            1 <= slot <= SlotCount && SlotKept(meal, slot) &&
            recipe.ingredients[k].name == Slot(meal.strIngredient, slot).value &&
            recipe.ingredients[k].measure == Slot(meal.strMeasure, slot).value)
      && (forall k, l :: 0 <= k < l < |KeptSlots(meal, SlotCount)| ==>
            KeptSlots(meal, SlotCount)[k] < KeptSlots(meal, SlotCount)[l])
      && (forall i :: 1 <= i <= SlotCount && SlotKept(meal, i) ==> i in KeptSlots(meal, SlotCount))
  {
    KeptIngredientsSpec(meal, SlotCount);
  }

  /** No ingredient of a transformed meal has a blank name or a blank measure. */
  lemma TransformedFilled(meal: RawMeal)
    ensures forall k :: 0 <= k < |Transformed(meal).ingredients| ==>
      Trim(Transformed(meal).ingredients[k].name) != "" && Trim(Transformed(meal).ingredients[k].measure) != ""
  {
    KeptIngredientsMatch(meal, SlotCount);
  }

  /** `meals.map(transformRecipe)`. */
  function TransformAll(meals: seq<RawMeal>): (recipes: seq<Recipe>)
    ensures |recipes| == |meals|
    ensures forall i :: 0 <= i < |meals| ==>
      recipes[i].idMeal == meals[i].idMeal && |recipes[i].ingredients| <= SlotCount
  {
    seq(|meals|, i requires 0 <= i < |meals| => Transformed(meals[i]))
  }

  /** `searchMeals`: no meals means an empty list, otherwise every meal transformed, in order. */
  function SearchMeals(response: RecipeResponse): (recipes: seq<Recipe>)
    ensures response.meals.None? ==> recipes == []
    ensures response.meals.Some? ==>
      |recipes| == |response.meals.value| &&
      forall i :: 0 <= i < |recipes| ==> recipes[i] == Transformed(response.meals.value[i])
  {
    match response.meals
    case None => []
    case Some(meals) => TransformAll(meals)
  }

  /** `getMealById`: null for a null or empty `meals`, else the first meal transformed. */
  function GetMealById(response: RecipeResponse): (recipe: Option<Recipe>)
    ensures recipe.None? <==> response.meals.None? || response.meals.value == []
    ensures recipe.Some? ==> recipe.value == Transformed(response.meals.value[0])
  {
    if response.meals.None? || |response.meals.value| == 0 then None
    else Some(Transformed(response.meals.value[0]))
  }

  /** `getRandomMeal`: null for a null or empty `meals`, else the first meal transformed. */
  function GetRandomMeal(response: RecipeResponse): (recipe: Option<Recipe>)
    ensures recipe.None? <==> response.meals.None? || response.meals.value == []
    ensures recipe.Some? ==> recipe.value == Transformed(response.meals.value[0])
  {
    if response.meals.None? || |response.meals.value| == 0 then None
    else Some(Transformed(response.meals.value[0]))
  }

  /** The letters `a` to `z`, in order. */
  function Alphabet(): (letters: seq<char>)
    ensures |letters| == 26 && letters[0] == 'a' && letters[25] == 'z'
    ensures forall i, j :: 0 <= i < j < |letters| ==> letters[i] < letters[j]
  {
    seq(26, i requires 0 <= i < 26 => (97 + i) as char)
  }

  /** `response.data.meals || []`. */
  function MealsOrEmpty(response: RecipeResponse): (meals: seq<RawMeal>)
    ensures response.meals.None? ==> meals == []
    ensures forall m :: m in meals <==> response.meals.Some? && m in response.meals.value
  {
    match response.meals
    case None => []
    case Some(meals) => meals
  }

  /** `lists.flat()`: the lists one after another. */
  function Concat(lists: seq<seq<RawMeal>>): (flat: seq<RawMeal>)
    ensures forall m :: m in flat ==> exists i :: 0 <= i < |lists| && m in lists[i]
    ensures forall i, m :: 0 <= i < |lists| && m in lists[i] ==> m in flat
  {
    if |lists| == 0 then [] else Concat(lists[..|lists| - 1]) + lists[|lists| - 1]
  }

  /** Lists that are all empty concatenate to nothing. */
  lemma {:induction false} ConcatAllEmpty(lists: seq<seq<RawMeal>>)
    requires forall i :: 0 <= i < |lists| ==> lists[i] == []
    ensures Concat(lists) == []
  {
    if |lists| > 0 {
      ConcatAllEmpty(lists[..|lists| - 1]);
    }
  }

  /** Concatenation distributes over joining lists of lists. */
  lemma {:induction false} ConcatAppend(a: seq<seq<RawMeal>>, b: seq<seq<RawMeal>>)
    ensures Concat(a + b) == Concat(a) + Concat(b)
    decreases |b|
  {
    if |b| == 0 {
      assert a + b == a;
    } else {
      var b' := b[..|b| - 1];
      assert (a + b)[..|a + b| - 1] == a + b';
      ConcatAppend(a, b');
    }
  }

  /** The per-letter meal lists of the alphabet sweep, in letter order; a null result is empty. */
  function LetterResults(searchByLetter: char -> RecipeResponse): (lists: seq<seq<RawMeal>>)
    ensures |lists| == 26
    ensures forall i :: 0 <= i < 26 ==> lists[i] == MealsOrEmpty(searchByLetter((97 + i) as char))
  {
    assert forall i :: 0 <= i < 26 ==> Alphabet()[i] == (97 + i) as char;
    seq(26, i requires 0 <= i < 26 => MealsOrEmpty(searchByLetter(Alphabet()[i])))
  }

  /** `getAllMeals`: every letter's meals, a to z, one after another, each transformed once. */
  function GetAllMeals(searchByLetter: char -> RecipeResponse): (all: seq<Recipe>)
    ensures forall k :: 0 <= k < |all| ==> |all[k].ingredients| <= SlotCount
    ensures (forall j :: 0 <= j < 26 ==> searchByLetter(Alphabet()[j]).meals.None?) ==> all == []
  {
    var lists := LetterResults(searchByLetter);
    assert (forall j :: 0 <= j < 26 ==> searchByLetter(Alphabet()[j]).meals.None?) ==> Concat(lists) == [] by {
      if forall j :: 0 <= j < 26 ==> searchByLetter(Alphabet()[j]).meals.None? {
        assert forall j :: 0 <= j < 26 ==> Alphabet()[j] == (97 + j) as char;
        ConcatAllEmpty(lists);
      }
    }
    TransformAll(Concat(lists))
  }

  /**
   * The sweep's result is the transform of the letters' meals in letter order:
   * the meals of letter `i` form one block after those of every earlier
   * letter and before those of every later one, and a meal is included exactly
   * when some letter's non-null result holds it.
   */
  lemma GetAllMealsSpec(searchByLetter: char -> RecipeResponse, i: nat)
    requires i < 26
    ensures var all := Concat(LetterResults(searchByLetter));
      && all == Concat(LetterResults(searchByLetter)[..i])
                + MealsOrEmpty(searchByLetter(Alphabet()[i]))
                + Concat(LetterResults(searchByLetter)[i + 1..])
      && |GetAllMeals(searchByLetter)| == |all|
      && (forall k :: 0 <= k < |all| ==> GetAllMeals(searchByLetter)[k] == Transformed(all[k]))
      && (forall m :: m in all <==>
            exists j :: 0 <= j < 26 && searchByLetter(Alphabet()[j]).meals.Some? &&
                        m in searchByLetter(Alphabet()[j]).meals.value)
  {
    var lists := LetterResults(searchByLetter);
    assert lists == lists[..i] + [lists[i]] + lists[i + 1..];
    ConcatAppend(lists[..i] + [lists[i]], lists[i + 1..]);
    ConcatAppend(lists[..i], [lists[i]]);
    assert Concat([lists[i]]) == lists[i] by {
      assert [lists[i]][..0] == [];
    }
    forall m ensures m in Concat(lists) <==>
      exists j :: 0 <= j < 26 && searchByLetter(Alphabet()[j]).meals.Some? &&
                  m in searchByLetter(Alphabet()[j]).meals.value
    {
      if m in Concat(lists) {
        var j :| 0 <= j < |lists| && m in lists[j];
        assert lists[j] == MealsOrEmpty(searchByLetter(Alphabet()[j]));
      }
      if exists j :: 0 <= j < 26 && searchByLetter(Alphabet()[j]).meals.Some? &&
                     m in searchByLetter(Alphabet()[j]).meals.value {
        var j :| 0 <= j < 26 && searchByLetter(Alphabet()[j]).meals.Some? &&
                 m in searchByLetter(Alphabet()[j]).meals.value;
        assert m in lists[j];
      }
    }
  }

  /**
   * The meals of `recipes` whose category is exactly `category`, in order, each
   * kept as many times as it occurs.
   */
  function ByCategory(recipes: seq<Recipe>, category: string): (filtered: seq<Recipe>)
    ensures |filtered| <= |recipes|
    ensures forall i :: 0 <= i < |filtered| ==> filtered[i].strCategory == category
    ensures forall r :: r in filtered <==> r in recipes && r.strCategory == category
    ensures forall r :: multiset(filtered)[r] == if r.strCategory == category then multiset(recipes)[r] else 0
    ensures IsSubsequence(filtered, recipes)
  {
    var p := (r: Recipe) => r.strCategory == category;
    FilterMembership(recipes, p);
    FilterMultiplicity(recipes, p);
    FilterIsSubsequence(recipes, p);
    Filter(recipes, p)
  }

  /** Filtering by the same category twice is filtering once. */
  lemma ByCategoryIdempotent(recipes: seq<Recipe>, category: string)
    ensures ByCategory(ByCategory(recipes, category), category) == ByCategory(recipes, category)
  {
    FilterIdempotent(recipes, (r: Recipe) => r.strCategory == category);
  }

  /**
   * `getMealsByCategory`: the sweep's meals whose category is exactly `category`,
   * in order, each as many times as the sweep holds it.
   */
  function GetMealsByCategory(searchByLetter: char -> RecipeResponse, category: string): (recipes: seq<Recipe>)
    ensures forall i :: 0 <= i < |recipes| ==> recipes[i].strCategory == category
    ensures forall r :: r in recipes <==> r in GetAllMeals(searchByLetter) && r.strCategory == category
    ensures forall r ::
      multiset(recipes)[r] == if r.strCategory == category then multiset(GetAllMeals(searchByLetter))[r] else 0
    ensures IsSubsequence(recipes, GetAllMeals(searchByLetter))
  {
    ByCategory(GetAllMeals(searchByLetter), category)
  }
}
