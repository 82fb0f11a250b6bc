/**
 * The combined ingredient listing of a selection of recipes: every
 * ingredient occurrence is grouped under its normalised name (lower-cased,
 * then trimmed); groups appear in the order their name first occurs when the
 * recipes are walked in order and each recipe's ingredients in order, and each
 * group lists its "measure (recipe)" lines in that same traversal order.
 *
 * `Group` is the insertion-ordered map the application fills; `ItemsFor` and
 * `FirstOccurrence` are the independent reference it is proved against.
 */
module IngredientAggregator {
  import opened RecipeTypes
  import opened Text
  import opened Seqs

  /** The fixed image-hosting path an ingredient image URL starts with. */
  const ImageUrlPrefix := "https://www.themealdb.com/images/ingredients/"

  /** One occurrence of an ingredient in a selected recipe, with the recipe's name. */
  datatype Contribution = Contribution(ingredient: Ingredient, recipeName: string)

  /** A contribution together with the normalised key it is grouped under. */
  datatype Occurrence = Occurrence(key: string, contribution: Contribution)

  /** One entry of the insertion-ordered map: a key and its contributions so far. */
  datatype Entry = Entry(key: string, items: seq<Contribution>)

  /** One row of the combined listing, as handed to the page. */
  datatype CombinedIngredient = CombinedIngredient(name: string, imageUrl: string, measures: seq<string>)

  /** The grouping identity of an ingredient name: lower-cased, then trimmed. */
  function NormalizeKey(name: string): (key: string)
    ensures |key| <= |name|
    ensures key == [] || (!IsWhitespace(key[0]) && !IsWhitespace(key[|key| - 1]))
  {
    Trim(ToLower(name))
  }

  /** The occurrence that ingredient line `ingredient` of `recipe` contributes. */
  function OccurrenceOf(recipe: Recipe, ingredient: Ingredient): (o: Occurrence)
    ensures o.contribution.ingredient == ingredient && o.contribution.recipeName == recipe.strMeal
    ensures |o.key| <= |ingredient.name|
  {
    Occurrence(NormalizeKey(ingredient.name), Contribution(ingredient, recipe.strMeal))
  }

  /** The occurrences of one recipe, in ingredient-list order. */
  function RecipeOccurrences(recipe: Recipe): (occs: seq<Occurrence>)
    ensures |occs| == |recipe.ingredients|
    ensures forall j :: 0 <= j < |occs| ==>
      occs[j].contribution == Contribution(recipe.ingredients[j], recipe.strMeal)
  {
    seq(|recipe.ingredients|, j requires 0 <= j < |recipe.ingredients| => OccurrenceOf(recipe, recipe.ingredients[j]))
  }

  /** The number of ingredient lines across all recipes. */
  function TotalIngredients(recipes: seq<Recipe>): nat
  {
    if |recipes| == 0 then 0
    else TotalIngredients(recipes[..|recipes| - 1]) + |recipes[|recipes| - 1].ingredients|
  }

  /**
   * The traversal: recipes in selection order, each recipe's ingredients in
   * order. It visits as many occurrences as there are ingredient lines.
   */
  function Occurrences(recipes: seq<Recipe>): (occs: seq<Occurrence>)
    ensures |occs| == TotalIngredients(recipes)
  {
    if |recipes| == 0 then []
    else Occurrences(recipes[..|recipes| - 1]) + RecipeOccurrences(recipes[|recipes| - 1])
  }

  /** Every ingredient line of a selected recipe is visited by the traversal. */
  lemma {:induction false} OccurrenceVisited(recipes: seq<Recipe>, r: Recipe, ing: Ingredient)
    requires r in recipes && ing in r.ingredients
    ensures OccurrenceOf(r, ing) in Occurrences(recipes)
  {
    var init, last := recipes[..|recipes| - 1], recipes[|recipes| - 1];
    assert recipes == init + [last];
    if r in init {
      OccurrenceVisited(init, r, ing);
    } else {
      var j :| 0 <= j < |r.ingredients| && r.ingredients[j] == ing;
      assert RecipeOccurrences(last)[j] == OccurrenceOf(r, ing);
    }
  }

  /** Every visited occurrence comes from an ingredient line of a selected recipe. */
  lemma {:induction false} OccurrenceSource(recipes: seq<Recipe>, o: Occurrence)
    requires o in Occurrences(recipes)
    ensures exists r, ing :: r in recipes && ing in r.ingredients && o == OccurrenceOf(r, ing)
  {
    var init, last := recipes[..|recipes| - 1], recipes[|recipes| - 1];
    assert Occurrences(recipes) == Occurrences(init) + RecipeOccurrences(last);
    if o in Occurrences(init) {
      OccurrenceSource(init, o);
      var r, ing :| r in init && ing in r.ingredients && o == OccurrenceOf(r, ing);
      assert r in recipes;
    } else {
      var j :| 0 <= j < |last.ingredients| && o == RecipeOccurrences(last)[j];
      assert last.ingredients[j] in last.ingredients && last in recipes;
    }
  }

  /** Position of `key` in the map's entries, or -1 when absent (`Map.has` / `Map.get`). */
  function KeyIndex(entries: seq<Entry>, key: string): (i: int)
    ensures -1 <= i < |entries|
    ensures i >= 0 ==> entries[i].key == key
    ensures i == -1 <==> forall j :: 0 <= j < |entries| ==> entries[j].key != key
  {
    if |entries| == 0 then -1
    else if entries[0].key == key then 0
    else
      var i := KeyIndex(entries[1..], key);
      if i == -1 then -1 else i + 1
  }

  /**
   * One step of the fill: a new key is inserted at the end with an empty list
   * (fixing its iteration position); then the contribution is appended to the
   * key's list.
   */
  function Record(entries: seq<Entry>, o: Occurrence): (r: seq<Entry>)
    ensures |entries| <= |r| <= |entries| + 1
    ensures KeyIndex(entries, o.key) == -1 ==> |r| == |entries| + 1 && r[|entries|] == Entry(o.key, [o.contribution])
    ensures KeyIndex(entries, o.key) >= 0 ==>
      var i := KeyIndex(entries, o.key);
      |r| == |entries| && r[i].items == entries[i].items + [o.contribution]
  {
    var i := KeyIndex(entries, o.key);
    if i == -1 then entries + [Entry(o.key, [o.contribution])]
    else entries[i := Entry(o.key, entries[i].items + [o.contribution])]
  }

  /** One step of the fill keeps every key in place and changes no entry of another key. */
  lemma RecordFrame(entries: seq<Entry>, o: Occurrence)
    ensures forall i :: 0 <= i < |entries| ==> Record(entries, o)[i].key == entries[i].key
    ensures forall i :: 0 <= i < |entries| && entries[i].key != o.key ==> Record(entries, o)[i] == entries[i]
  {
  }

  /** The insertion-ordered map after recording every occurrence, in order; never more entries than occurrences. */
  function Group(occs: seq<Occurrence>): (g: seq<Entry>)
    ensures |g| <= |occs|
  {
    if |occs| == 0 then [] else Record(Group(occs[..|occs| - 1]), occs[|occs| - 1])
  }

  /** Recording one more occurrence is one more step of the fill. */
  lemma GroupSnoc(occs: seq<Occurrence>, o: Occurrence)
    ensures Group(occs + [o]) == Record(Group(occs), o)
  {
    assert (occs + [o])[..|occs|] == occs;
  }

  /** Recording the next ingredient line of the recipe being traversed is one more step of the fill. */
  lemma GroupStep(done: seq<Occurrence>, recipe: Recipe, j: nat, entries: seq<Entry>)
    requires j < |recipe.ingredients|
    requires entries == Group(done + RecipeOccurrences(recipe)[..j])
    ensures Record(entries, OccurrenceOf(recipe, recipe.ingredients[j])) == Group(done + RecipeOccurrences(recipe)[..j + 1])
  {
    var mine := RecipeOccurrences(recipe);
    TakeSnoc(done, mine, j);
    GroupSnoc(done + mine[..j], mine[j]);
  }

  /** Traversing one more recipe appends that recipe's occurrences. */
  lemma OccurrencesSnoc(recipes: seq<Recipe>, i: nat)
    requires i < |recipes|
    ensures Occurrences(recipes[..i + 1]) == Occurrences(recipes[..i]) + RecipeOccurrences(recipes[i])
  {
    assert recipes[..i + 1][..i] == recipes[..i];
  }

  /** Reference: the contributions of the occurrences whose key is `key`, in traversal order. */
  function ItemsFor(occs: seq<Occurrence>, key: string): seq<Contribution>
  {
    if |occs| == 0 then []
    else
      ItemsFor(occs[..|occs| - 1], key) +
      (if occs[|occs| - 1].key == key then [occs[|occs| - 1].contribution] else [])
  }

  /** Reference: the index of the first occurrence with key `key` (|occs| when there is none). */
  function FirstOccurrence(occs: seq<Occurrence>, key: string): (n: nat)
    ensures n <= |occs|
    ensures forall m :: 0 <= m < n ==> occs[m].key != key
    ensures n < |occs| ==> occs[n].key == key
  {
    if |occs| == 0 then 0
    else if occs[0].key == key then 0
    else 1 + FirstOccurrence(occs[1..], key)
  }

  /** Some occurrence has key `key`. */
  ghost predicate Occurs(occs: seq<Occurrence>, key: string)
  {
    exists n :: 0 <= n < |occs| && occs[n].key == key
  }

  /** Some entry has key `key`. */
  ghost predicate HasKey(entries: seq<Entry>, key: string)
  {
    exists i :: 0 <= i < |entries| && entries[i].key == key
  }

  /** No two entries share a key. */
  ghost predicate DistinctKeys(entries: seq<Entry>)
  {
    forall i, j :: 0 <= i < j < |entries| ==> entries[i].key != entries[j].key
  }

  /** A key that never occurs collects no contributions. */
  lemma {:induction false} ItemsForAbsent(occs: seq<Occurrence>, key: string)
    requires !Occurs(occs, key)
    ensures ItemsFor(occs, key) == []
  {
    if |occs| > 0 {
      var init := occs[..|occs| - 1];
      assert !Occurs(init, key) by {
        forall n | 0 <= n < |init| ensures init[n].key != key {
          assert init[n] == occs[n];
        }
      }
      ItemsForAbsent(init, key);
      assert occs[|occs| - 1].key != key;
    }
  }

  /** Appending an occurrence does not move the first occurrence of a key already present. */
  lemma FirstOccurrenceSnoc(occs: seq<Occurrence>, o: Occurrence, key: string)
    ensures Occurs(occs, key) ==> FirstOccurrence(occs + [o], key) == FirstOccurrence(occs, key) < |occs|
    ensures !Occurs(occs, key) && o.key == key ==> FirstOccurrence(occs + [o], key) == |occs|
  {
    var n, n' := FirstOccurrence(occs, key), FirstOccurrence(occs + [o], key);
    assert forall m :: 0 <= m < |occs| ==> (occs + [o])[m] == occs[m];
    if Occurs(occs, key) {
      var w :| 0 <= w < |occs| && occs[w].key == key;
      assert n <= w;
      assert (occs + [o])[n] == occs[n];
    } else if o.key == key {
      assert (occs + [o])[|occs|] == o;
    }
  }

  /** One step of the fill keeps the keys distinct and adds exactly the recorded key. */
  lemma RecordKeys(entries: seq<Entry>, o: Occurrence)
    ensures DistinctKeys(entries) ==> DistinctKeys(Record(entries, o))
    ensures forall k :: HasKey(Record(entries, o), k) <==> HasKey(entries, k) || k == o.key
  {
    var r := Record(entries, o);
    var idx := KeyIndex(entries, o.key);
    forall k ensures HasKey(r, k) <==> HasKey(entries, k) || k == o.key {
      if HasKey(r, k) {
        var i :| 0 <= i < |r| && r[i].key == k;
        if i < |entries| {
          assert HasKey(entries, k);
        }
      }
      if HasKey(entries, k) {
        var i :| 0 <= i < |entries| && entries[i].key == k;
        assert r[i].key == k;
      }
      if k == o.key {
        if idx == -1 {
          assert r[|entries|].key == k;
        } else {
          assert r[idx].key == k;
        }
      }
    }
  }

  /** The map's keys are distinct and are exactly the keys that occur. */
  lemma {:induction false} GroupKeys(occs: seq<Occurrence>)
    ensures DistinctKeys(Group(occs))
    ensures forall k :: HasKey(Group(occs), k) <==> Occurs(occs, k)
  {
    if |occs| > 0 {
      var init, o := occs[..|occs| - 1], occs[|occs| - 1];
      GroupKeys(init);
      RecordKeys(Group(init), o);
      assert Group(occs) == Record(Group(init), o);
      forall k ensures Occurs(occs, k) <==> Occurs(init, k) || k == o.key {
        if Occurs(occs, k) {
          var n :| 0 <= n < |occs| && occs[n].key == k;
          if n < |init| {
            assert init[n] == occs[n];
          }
        }
        if Occurs(init, k) {
          var n :| 0 <= n < |init| && init[n].key == k;
          assert occs[n] == init[n];
        }
        if k == o.key {
          assert occs[|occs| - 1].key == k;
        }
      }
    }
  }

  /** Each entry of the map holds exactly the contributions of its key, in traversal order. */
  lemma {:induction false} GroupItems(occs: seq<Occurrence>)
    ensures forall i :: 0 <= i < |Group(occs)| ==> Group(occs)[i].items == ItemsFor(occs, Group(occs)[i].key)
  {
    if |occs| > 0 {
      var init, o := occs[..|occs| - 1], occs[|occs| - 1];
      GroupItems(init);
      GroupKeys(init);
      var g0 := Group(init);
      var g := Group(occs);
      assert g == Record(g0, o);
      var idx := KeyIndex(g0, o.key);
      forall i | 0 <= i < |g| ensures g[i].items == ItemsFor(occs, g[i].key) {
        if idx == -1 && i == |g0| {
          assert g[i] == Entry(o.key, [o.contribution]);
          assert !HasKey(g0, o.key);
          ItemsForAbsent(init, o.key);
        } else if i == idx {
          assert g[i] == Entry(o.key, g0[i].items + [o.contribution]);
        } else {
          assert g[i] == g0[i];
          assert g0[i].key != o.key;
        }
      }
    }
  }

  /** The map's entries are ordered by the first occurrence of their keys. */
  lemma {:induction false} GroupOrder(occs: seq<Occurrence>)
    ensures forall i, j :: 0 <= i < j < |Group(occs)| ==>
      FirstOccurrence(occs, Group(occs)[i].key) < FirstOccurrence(occs, Group(occs)[j].key)
  {
    if |occs| > 0 {
      var init, o := occs[..|occs| - 1], occs[|occs| - 1];
      GroupOrder(init);
      GroupKeys(init);
      var g0 := Group(init);
      var g := Group(occs);
      assert g == Record(g0, o);
      assert occs == init + [o];
      var idx := KeyIndex(g0, o.key);
      forall i | 0 <= i < |g0|
        ensures g[i].key == g0[i].key
        ensures FirstOccurrence(occs, g0[i].key) == FirstOccurrence(init, g0[i].key) < |init|
      {
        assert HasKey(g0, g0[i].key);
        FirstOccurrenceSnoc(init, o, g0[i].key);
      }
      if idx == -1 {
        assert !HasKey(g0, o.key);
        FirstOccurrenceSnoc(init, o, o.key);
        assert g[|g0|].key == o.key;
      }
    }
  }

  /** The total number of contributions held by the entries. */
  function TotalItems(entries: seq<Entry>): nat
  {
    if |entries| == 0 then 0 else TotalItems(entries[..|entries| - 1]) + |entries[|entries| - 1].items|
  }

  /** Replacing one entry changes the total by the difference of the two entries' sizes. */
  lemma {:induction false} TotalItemsUpdate(entries: seq<Entry>, i: nat, e: Entry)
    requires i < |entries|
    ensures TotalItems(entries[i := e]) == TotalItems(entries) - |entries[i].items| + |e.items|
  {
    var n := |entries|;
    if i < n - 1 {
      assert entries[i := e][..n - 1] == entries[..n - 1][i := e];
      TotalItemsUpdate(entries[..n - 1], i, e);
    } else {
      assert entries[i := e][..n - 1] == entries[..n - 1];
    }
  }

  /** Every occurrence is recorded exactly once. */
  lemma {:induction false} GroupTotal(occs: seq<Occurrence>)
    ensures TotalItems(Group(occs)) == |occs|
  {
    if |occs| > 0 {
      var init, o := occs[..|occs| - 1], occs[|occs| - 1];
      GroupTotal(init);
      var g0 := Group(init);
      var idx := KeyIndex(g0, o.key);
      if idx == -1 {
        assert (g0 + [Entry(o.key, [o.contribution])])[..|g0|] == g0;
      } else {
        TotalItemsUpdate(g0, idx, Entry(o.key, g0[idx].items + [o.contribution]));
      }
    }
  }

  /** The display line of one contribution: `measure (recipe name)`. */
  function MeasureLine(c: Contribution): (line: string)
    ensures |line| == |c.ingredient.measure| + |c.recipeName| + 3
    ensures line[..|c.ingredient.measure|] == c.ingredient.measure && line[|line| - 1] == ')'
  {
    c.ingredient.measure + " (" + c.recipeName + ")"
  }

  /** The display lines of a list of contributions, in order. */
  function MeasureLines(items: seq<Contribution>): (lines: seq<string>)
    ensures |lines| == |items|
    ensures forall j :: 0 <= j < |items| ==>
      |items[j].ingredient.measure| < |lines[j]| && lines[j][..|items[j].ingredient.measure|] == items[j].ingredient.measure
  {
    seq(|items|, j requires 0 <= j < |items| => MeasureLine(items[j]))
  }

  /** The image URL of a key: the fixed prefix, the key with spaces made underscores, `.png`. */
  function ImageUrl(key: string): (url: string)
    ensures |url| == |ImageUrlPrefix| + |key| + 4
    ensures url[..|ImageUrlPrefix|] == ImageUrlPrefix && url[|url| - 4..] == ".png"
    ensures ' ' !in url[|ImageUrlPrefix|..|ImageUrlPrefix| + |key|]
  {
    ImageUrlPrefix + ReplaceSpaces(key) + ".png"
  }

  /** The final `.map` over the map's entries: one row per entry, named by its key, one line per contribution. */
  function Render(entries: seq<Entry>): (rows: seq<CombinedIngredient>)
    ensures |rows| == |entries|
    ensures forall i :: 0 <= i < |rows| ==> rows[i].name == entries[i].key && |rows[i].measures| == |entries[i].items|
  {
    seq(|entries|, i requires 0 <= i < |entries| =>
      CombinedIngredient(entries[i].key, ImageUrl(entries[i].key), MeasureLines(entries[i].items)))
  }

  /** The combined ingredient listing of a selection: never more rows than ingredient lines. */
  function CombinedIngredients(recipes: seq<Recipe>): (combined: seq<CombinedIngredient>)
    ensures |combined| <= TotalIngredients(recipes)
  {
    Render(Group(Occurrences(recipes)))
  }

  /** The total number of measure lines in a listing. */
  function MeasureCount(combined: seq<CombinedIngredient>): nat
  {
    if |combined| == 0 then 0
    else MeasureCount(combined[..|combined| - 1]) + |combined[|combined| - 1].measures|
  }

  /** Rendering keeps one measure line per contribution. */
  lemma {:induction false} RenderCount(entries: seq<Entry>)
    ensures MeasureCount(Render(entries)) == TotalItems(entries)
  {
    if |entries| > 0 {
      var init := entries[..|entries| - 1];
      RenderCount(init);
      assert Render(entries)[..|entries| - 1] == Render(init);
    }
  }

  /** The combined listing has one row per map entry, named by its key. */
  lemma CombinedRows(recipes: seq<Recipe>)
    ensures var c, g := CombinedIngredients(recipes), Group(Occurrences(recipes));
      |c| == |g| &&
      forall i :: 0 <= i < |c| ==>
        c[i] == CombinedIngredient(g[i].key, ImageUrl(g[i].key), MeasureLines(g[i].items))
  {
  }

  /** No two rows of the combined listing share a name. */
  lemma CombinedNamesDistinct(recipes: seq<Recipe>)
    ensures var c := CombinedIngredients(recipes);
      forall i, j :: 0 <= i < j < |c| ==> c[i].name != c[j].name
  {
    GroupKeys(Occurrences(recipes));
    CombinedRows(recipes);
  }

  /** `name` is the normalised name of some ingredient line of a recipe in `recipes`. */
  ghost predicate IsSelectedIngredientName(recipes: seq<Recipe>, name: string)
  {
    exists r, ing :: r in recipes && ing in r.ingredients && NormalizeKey(ing.name) == name
  }

  /** Every row is named by the normalised name of some selected ingredient line. */
  lemma CombinedNamesSound(recipes: seq<Recipe>)
    ensures var c := CombinedIngredients(recipes);
      forall i :: 0 <= i < |c| ==> IsSelectedIngredientName(recipes, c[i].name)
  {
    var occs := Occurrences(recipes);
    var g := Group(occs);
    var c := CombinedIngredients(recipes);
    GroupKeys(occs);
    CombinedRows(recipes);
    forall i | 0 <= i < |c|
      ensures IsSelectedIngredientName(recipes, c[i].name)
    {
      assert HasKey(g, g[i].key);
      var n :| 0 <= n < |occs| && occs[n].key == c[i].name;
      OccurrenceSource(recipes, occs[n]);
      var r, ing :| r in recipes && ing in r.ingredients && occs[n] == OccurrenceOf(r, ing);
      assert NormalizeKey(ing.name) == c[i].name;
    }
  }

  /** The normalised name of one selected ingredient line names some row. */
  lemma LineListed(recipes: seq<Recipe>, r: Recipe, ing: Ingredient)
    requires r in recipes && ing in r.ingredients
    ensures var c := CombinedIngredients(recipes);
      exists i :: 0 <= i < |c| && c[i].name == NormalizeKey(ing.name)
  {
    var occs := Occurrences(recipes);
    var g := Group(occs);
    var o := OccurrenceOf(r, ing);
    OccurrenceVisited(recipes, r, ing);
    GroupKeys(occs);
    CombinedRows(recipes);
    var n :| 0 <= n < |occs| && occs[n] == o;
    assert Occurs(occs, o.key);
    var i :| 0 <= i < |g| && g[i].key == o.key;
    assert CombinedIngredients(recipes)[i].name == o.key;
  }

  /** The normalised name of every selected ingredient line names some row. */
  lemma CombinedNamesComplete(recipes: seq<Recipe>)
    ensures var c := CombinedIngredients(recipes);
      forall r, ing :: r in recipes && ing in r.ingredients ==>
        exists i :: 0 <= i < |c| && c[i].name == NormalizeKey(ing.name)
  {
    var c := CombinedIngredients(recipes);
    forall r, ing | r in recipes && ing in r.ingredients
      ensures exists i :: 0 <= i < |c| && c[i].name == NormalizeKey(ing.name)
    {
      LineListed(recipes, r, ing);
    }
  }

  /** Rows are ordered by the first occurrence of their name in the traversal. */
  lemma CombinedOrder(recipes: seq<Recipe>)
    ensures var c, occs := CombinedIngredients(recipes), Occurrences(recipes);
      forall i, j :: 0 <= i < j < |c| ==> FirstOccurrence(occs, c[i].name) < FirstOccurrence(occs, c[j].name)
  {
    GroupOrder(Occurrences(recipes));
    CombinedRows(recipes);
  }

  /**
   * Each row lists one `measure (recipe)` line per occurrence of its name, in
   * traversal order, and its image URL is the prefix, the name with spaces made
   * underscores, and `.png`.
   */
  lemma CombinedMeasures(recipes: seq<Recipe>)
    ensures var c, occs := CombinedIngredients(recipes), Occurrences(recipes);
      forall i :: 0 <= i < |c| ==>
        && c[i].measures == MeasureLines(ItemsFor(occs, c[i].name))
        && c[i].imageUrl == ImageUrlPrefix + ReplaceSpaces(c[i].name) + ".png"
  {
    GroupItems(Occurrences(recipes));
    CombinedRows(recipes);
  }

  /** The listing holds exactly one measure line per selected ingredient line. */
  lemma CombinedCount(recipes: seq<Recipe>)
    ensures MeasureCount(CombinedIngredients(recipes)) == TotalIngredients(recipes)
  {
    var occs := Occurrences(recipes);
    GroupTotal(occs);
    RenderCount(Group(occs));
  }

  /** An empty selection has an empty combined listing. */
  lemma CombinedIngredientsEmpty()
    ensures CombinedIngredients([]) == []
  {
  }
}
