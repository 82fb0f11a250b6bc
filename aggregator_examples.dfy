/**
 * A worked example of the combined ingredient listing: two recipes that share
 * an ingredient spelled differently ("Salt" and " salt ") produce one group for
 * it, with one measure line per recipe, and the groups keep first-seen order.
 */
module AggregatorExamples {
  import opened IngredientAggregator
  import opened RecipeTypes
  import opened Text
  import opened Seqs

  /** A string without upper-case letters is its own lower-case form. */
  lemma LowerUnchanged(s: string)
    requires forall i :: 0 <= i < |s| ==> !('A' <= s[i] <= 'Z')
    ensures ToLower(s) == s
  {
  }

  /** A string with no whitespace at either end is its own trimmed form. */
  lemma TrimUnchanged(s: string)
    requires |s| > 0 && !IsWhitespace(s[0]) && !IsWhitespace(s[|s| - 1])
    ensures Trim(s) == s
  {
    assert TrimStart(s) == s;
  }

  /** A word with no blank at either end normalises to its lower-case form, character by character. */
  lemma LowerWordKey(name: string, key: string)
    requires |name| == |key| > 0 && !IsWhitespace(key[0]) && !IsWhitespace(key[|key| - 1])
    requires forall i :: 0 <= i < |name| ==> LowerChar(name[i]) == key[i]
    ensures NormalizeKey(name) == key
  {
    assert ToLower(name) == key;
    TrimUnchanged(key);
  }

  /** Names without surrounding blanks normalise to their lower-case form. */
  lemma PlainKey(name: string, key: string)
    requires (name == "Salt" && key == "salt") || (name == "Water" && key == "water") || (name == "Onion" && key == "onion")
    ensures NormalizeKey(name) == key
  {
    LowerWordKey(name, key);
  }

  /** One blank on each side of a word is trimmed away. */
  lemma TrimPadded(word: string)
    requires |word| > 0 && !IsWhitespace(word[0]) && !IsWhitespace(word[|word| - 1])
    ensures Trim([' '] + word + [' ']) == word
  {
    var padded, tail := [' '] + word + [' '], word + [' '];
    assert padded[1..] == tail && tail[0] == word[0];
    assert TrimStart(padded) == tail;
    assert tail[..|word|] == word;
    assert TrimEnd(tail) == TrimEnd(word) == word;
  }

  /** Surrounding blanks are dropped by normalisation. */
  lemma PaddedKey()
    ensures NormalizeKey(" salt ") == "salt"
  {
    LowerUnchanged(" salt ");
    assert " salt " == [' '] + "salt" + [' '];
    assert "salt"[0] == 's' && "salt"[3] == 't';
    TrimPadded("salt");
  }

  /** The first two occurrences, with different keys, open two groups in order. */
  lemma ExampleGroupTwo(c1: Contribution, c2: Contribution)
    ensures Group([Occurrence("salt", c1), Occurrence("water", c2)]) == [Entry("salt", [c1]), Entry("water", [c2])]
  {
    var o1, o2 := Occurrence("salt", c1), Occurrence("water", c2);
    GroupSnoc([], o1);
    GroupSnoc([o1], o2);
    assert Group([o1]) == [Entry("salt", [c1])];
  }

  /** The third occurrence repeats the first key and joins its group. */
  lemma ExampleGroupThree(c1: Contribution, c2: Contribution, c3: Contribution)
    ensures Group([Occurrence("salt", c1), Occurrence("water", c2), Occurrence("salt", c3)])
         == [Entry("salt", [c1, c3]), Entry("water", [c2])]
  {
    var o1, o2, o3 := Occurrence("salt", c1), Occurrence("water", c2), Occurrence("salt", c3);
    ExampleGroupTwo(c1, c2);
    GroupSnoc([o1, o2], o3);
    assert [o1, o2] + [o3] == [o1, o2, o3];
    assert KeyIndex([Entry("salt", [c1]), Entry("water", [c2])], "salt") == 0;
    assert [c1] + [c3] == [c1, c3];
  }

  /** A repeated key joins its first group; new keys open groups at the end. */
  lemma ExampleGroup(c1: Contribution, c2: Contribution, c3: Contribution, c4: Contribution)
    ensures Group([Occurrence("salt", c1), Occurrence("water", c2), Occurrence("salt", c3), Occurrence("onion", c4)])
         == [Entry("salt", [c1, c3]), Entry("water", [c2]), Entry("onion", [c4])]
  {
    var o1, o2, o3, o4 := Occurrence("salt", c1), Occurrence("water", c2), Occurrence("salt", c3), Occurrence("onion", c4);
    ExampleGroupThree(c1, c2, c3);
    GroupSnoc([o1, o2, o3], o4);
    assert [o1, o2, o3] + [o4] == [o1, o2, o3, o4];
    assert "water" != "onion" && "salt" != "onion";
    assert KeyIndex([Entry("salt", [c1, c3]), Entry("water", [c2])], "onion") == -1;
  }

  /** A recipe with two ingredient lines has two occurrences, keyed by the normalised names. */
  lemma TwoLineOccurrences(recipe: Recipe, key0: string, key1: string)
    requires |recipe.ingredients| == 2
    requires NormalizeKey(recipe.ingredients[0].name) == key0 && NormalizeKey(recipe.ingredients[1].name) == key1
    ensures RecipeOccurrences(recipe) == [
      Occurrence(key0, Contribution(recipe.ingredients[0], recipe.strMeal)),
      Occurrence(key1, Contribution(recipe.ingredients[1], recipe.strMeal))]
  {
    var occs := RecipeOccurrences(recipe);
    PairElements(occs,
      Occurrence(key0, Contribution(recipe.ingredients[0], recipe.strMeal)),
      Occurrence(key1, Contribution(recipe.ingredients[1], recipe.strMeal)));
  }

  /** The occurrences of the first recipe, keys normalised. */
  lemma SoupOccurrences(soup: Recipe)
    requires soup == Recipe("1", "Soup", "", "", "", "", None, None, [Ingredient("Salt", "1 tsp"), Ingredient("Water", "2 cups")])
    ensures RecipeOccurrences(soup) == [
      Occurrence("salt", Contribution(Ingredient("Salt", "1 tsp"), "Soup")),
      Occurrence("water", Contribution(Ingredient("Water", "2 cups"), "Soup"))]
  {
    PlainKey("Salt", "salt");
    PlainKey("Water", "water");
    TwoLineOccurrences(soup, "salt", "water");
  }

  /** The occurrences of the second recipe; the padded name gets the shared key. */
  lemma StewOccurrences(stew: Recipe)
    requires stew == Recipe("2", "Stew", "", "", "", "", None, None, [Ingredient(" salt ", "2 tsp"), Ingredient("Onion", "1")])
    ensures RecipeOccurrences(stew) == [
      Occurrence("salt", Contribution(Ingredient(" salt ", "2 tsp"), "Stew")),
      Occurrence("onion", Contribution(Ingredient("Onion", "1"), "Stew"))]
  {
    PaddedKey();
    PlainKey("Onion", "onion");
    TwoLineOccurrences(stew, "salt", "onion");
  }

  /** The traversal of two recipes is the first one's occurrences, then the second's. */
  lemma TwoRecipeOccurrences(a: Recipe, b: Recipe)
    ensures Occurrences([a, b]) == RecipeOccurrences(a) + RecipeOccurrences(b)
  {
    var pair := [a, b];
    OccurrencesSnoc(pair, 0);
    OccurrencesSnoc(pair, 1);
    TakeEnds([], RecipeOccurrences(a));
    TakeEnds(pair, pair);
    EmptyPrefix(pair, RecipeOccurrences(a));
  }

  /** Each measure line is the measure followed by the recipe name in parentheses. */
  lemma ExampleLines(c1: Contribution, c2: Contribution, c3: Contribution, c4: Contribution)
    requires c1 == Contribution(Ingredient("Salt", "1 tsp"), "Soup")
    requires c2 == Contribution(Ingredient("Water", "2 cups"), "Soup")
    requires c3 == Contribution(Ingredient(" salt ", "2 tsp"), "Stew")
    requires c4 == Contribution(Ingredient("Onion", "1"), "Stew")
    ensures MeasureLines([c1, c3]) == ["1 tsp (Soup)", "2 tsp (Stew)"]
    ensures MeasureLines([c2]) == ["2 cups (Soup)"]
    ensures MeasureLines([c4]) == ["1 (Stew)"]
  {
    assert MeasureLine(c1) == "1 tsp (Soup)";
    assert MeasureLine(c2) == "2 cups (Soup)";
    assert MeasureLine(c3) == "2 tsp (Stew)";
    assert MeasureLine(c4) == "1 (Stew)";
  }

  /** "Salt" in Soup and " salt " in Stew become one row with two measure lines. */
  lemma SoupAndStew(soup: Recipe, stew: Recipe)
    requires soup == Recipe("1", "Soup", "", "", "", "", None, None, [Ingredient("Salt", "1 tsp"), Ingredient("Water", "2 cups")])
    requires stew == Recipe("2", "Stew", "", "", "", "", None, None, [Ingredient(" salt ", "2 tsp"), Ingredient("Onion", "1")])
    ensures CombinedIngredients([soup, stew])
      == [CombinedIngredient("salt", ImageUrl("salt"), ["1 tsp (Soup)", "2 tsp (Stew)"]),
          CombinedIngredient("water", ImageUrl("water"), ["2 cups (Soup)"]),
          CombinedIngredient("onion", ImageUrl("onion"), ["1 (Stew)"])]
  {
    var c1 := Contribution(soup.ingredients[0], soup.strMeal);
    var c2 := Contribution(soup.ingredients[1], soup.strMeal);
    var c3 := Contribution(stew.ingredients[0], stew.strMeal);
    var c4 := Contribution(stew.ingredients[1], stew.strMeal);
    SoupOccurrences(soup);
    StewOccurrences(stew);
    TwoRecipeOccurrences(soup, stew);
    var occs := [Occurrence("salt", c1), Occurrence("water", c2), Occurrence("salt", c3), Occurrence("onion", c4)];
    assert Occurrences([soup, stew]) == occs;
    ExampleGroup(c1, c2, c3, c4);
    var entries := [Entry("salt", [c1, c3]), Entry("water", [c2]), Entry("onion", [c4])];
    assert CombinedIngredients([soup, stew]) == Render(entries);
    ExampleLines(c1, c2, c3, c4);
  }
}
