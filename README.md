# food-tanstack core, modelled in Dafny

food-tanstack is a recipe-browsing web application over a public recipe API.
This project models the parts of it that compute rather than render:

- **The selection store** (`SelectedRecipes`). This is the ordered list of recipes the user has picked, with no two sharing an `idMeal`. It has add, remove, toggle, clear and membership operations. The class `SelectionStore` holds the list in a `seq` field, and its methods are proved against the pure specification functions `WithRecipe`, `WithoutId` and `Toggled`.
- **The combined ingredient listing** (`IngredientAggregator`, plus `SelectionStore.GetCombinedIngredients`).
  - Every ingredient line of every selected recipe is grouped under its name lower-cased and then trimmed.
  - Groups keep the order in which their name first occurs. Each group lists its `measure (recipe)` lines in traversal order and carries an image URL built from the name.
  - The JavaScript `Map` the application fills is modelled as an insertion-ordered association list. `Group` folds the occurrences into it.
  - `Group` is proved against independent reference definitions: `ItemsFor` and `FirstOccurrence`.
  - The method `GetCombinedIngredients` is the nested loop of the source, with the inner loop over one recipe's lines in the method `RecordRecipe`. It is proved equal to that fold.
- **Pagination** (`Pagination`). This covers the page count, the clamp that keeps the current page in range, the item window of a page, and the strip of page buttons with `...` placeholders. The class `Paginator` carries the current page and the guarded navigation methods.
- **API payload shaping** (`MealApi`).
  - `transformRecipe` scans the twenty numbered ingredient/measure slots. It keeps the filled ones, and turns empty tags or video links into "absent". It is modelled as a method with a loop.
  - The search and lookup shaping is modelled over responses already received. The a-to-z sweep is modelled likewise, and so is the category filter applied to it.
- **Client-side category filter** (`RecipeQueries`): a falsy category keeps the list, and any other category keeps the matching recipes in order.
- **Card preview** (`RecipeCard`): the first fifty characters of the instructions, followed by `...` only when there are more.
- **Support modules:**
  - `RecipeTypes` holds the records.
  - `Text` holds the string primitives `toLowerCase`, `trim`, `replace(/ /g, '_')` and `slice`.
  - `Seqs` holds an order-preserving `filter`.
  - `AggregatorExamples` works one two-recipe listing out in full.

## Model

| member | source | states |
|---|---|---|
| Text.IsWhitespace | src/api/mealApi.ts:25 | what `trim` strips is never a letter or a digit |
| Text.LowerChar | src/hooks/useSelectedRecipes.ts:55 | a lower-cased character is never an upper-case letter, and lower-casing neither creates nor removes whitespace |
| Text.ToLower | src/hooks/useSelectedRecipes.ts:55 | `toLowerCase` keeps the length and lower-cases every character in place |
| Text.TrimStart | src/api/mealApi.ts:25 | the result is a suffix of the input, every dropped character is whitespace, and the result does not start with whitespace |
| Text.TrimEnd | src/api/mealApi.ts:25 | the result is a prefix of the input, every dropped character is whitespace, and the result does not end with whitespace |
| Text.Trim | src/hooks/useSelectedRecipes.ts:55 | `trim` never lengthens, and a non-empty result has no whitespace at either end |
| Text.TrimEmpty | src/api/mealApi.ts:25 | a string trims to `''` exactly when every character of it is whitespace |
| Text.ReplaceSpaces | src/hooks/useSelectedRecipes.ts:71 | same length, no space left, every space replaced by `_` and every other character kept |
| Text.Prefix | src/components/RecipeCard.tsx:35 | `slice(0, n)` is the first `n` characters, or the whole string when it is shorter |
| RecipeTypes.Truthy | src/api/mealApi.ts:40-41 | a nullable string is falsy exactly when it is null/undefined or `''`; a truthy one has at least one character |
| Seqs.Filter | src/hooks/useSelectedRecipes.ts:21 | `filter` never lengthens, and every kept element satisfies the predicate |
| Seqs.FilterMembership | src/hooks/useSelectedRecipes.ts:21 | an element is in the filtered list exactly when it is in the input and satisfies the predicate |
| Seqs.FilterIsSubsequence | src/api/mealApi.ts:110 | filtering preserves order: the result is a subsequence of the input |
| Seqs.FilterIdempotent | src/hooks/useRecipeQueries.ts:63 | filtering twice with the same predicate equals filtering once |
| Seqs.FilterAllKept | src/hooks/useSelectedRecipes.ts:21 | when every element satisfies the predicate, filtering returns the list unchanged |
| Seqs.FilterConcat | src/hooks/useSelectedRecipes.ts:21 | filtering distributes over concatenation |
| Seqs.FilterMultiplicity | src/hooks/useSelectedRecipes.ts:21 | `filter` keeps every passing element as many times as it occurs and drops every failing one |
| SelectedRecipes.HasId | src/hooks/useSelectedRecipes.ts:12 | `some(r => r.idMeal === id)` holds exactly when some entry has that id |
| SelectedRecipes.WithRecipe | src/hooks/useSelectedRecipes.ts:10-16 | the updater leaves the id present and keeps the old list as a prefix, adding at most one recipe |
| SelectedRecipes.WithoutId | src/hooks/useSelectedRecipes.ts:21 | the updater leaves no entry with the id and never lengthens the list |
| SelectedRecipes.Toggled | src/hooks/useSelectedRecipes.ts:31-40 | toggling leaves the id selected exactly when it was not selected before |
| SelectedRecipes.AddSpec | src/hooks/useSelectedRecipes.ts:9-17 | after adding, the id is present, earlier entries keep their places, a present id leaves the list unchanged, an absent one appends the recipe, and adding again changes nothing |
| SelectedRecipes.AddKeepsUnique | src/hooks/useSelectedRecipes.ts:12-15 | adding never creates a second entry with the same id |
| SelectedRecipes.FilterKeepsUnique | src/hooks/useSelectedRecipes.ts:21 | filtering a list whose ids are distinct keeps them distinct |
| SelectedRecipes.RemoveSpec | src/hooks/useSelectedRecipes.ts:20-22 | after removing, the id is absent, exactly the other entries remain in their original order, each as many times as before, an absent id leaves the list unchanged, and distinct ids stay distinct |
| SelectedRecipes.ToggleSpec | src/hooks/useSelectedRecipes.ts:31-40 | toggling flips whether the recipe's id is selected and never creates a duplicate id |
| SelectedRecipes.ToggleTwiceFromAbsent | src/hooks/useSelectedRecipes.ts:31-40 | toggling twice starting from an unselected recipe restores the exact list |
| SelectedRecipes.ToggleTwiceFromPresent | src/hooks/useSelectedRecipes.ts:31-40 | toggling twice starting from a selected recipe selects it again, now at the end after the other entries in their order |
| SelectedRecipes.RecordRecipe | src/hooks/useSelectedRecipes.ts:54-63 | the inner loop over one recipe's ingredient lines leaves the map filled with every occurrence seen so far followed by that recipe's |
| SelectedRecipes.SelectionStore.constructor | src/hooks/useSelectedRecipes.ts:6 | the store starts empty, without duplicate ids |
| SelectedRecipes.SelectionStore.AddRecipe | src/hooks/useSelectedRecipes.ts:9-17 | the new list is the old one with the recipe added by id, and ids stay distinct |
| SelectedRecipes.SelectionStore.RemoveRecipe | src/hooks/useSelectedRecipes.ts:20-22 | the new list is the old one without the id, and ids stay distinct |
| SelectedRecipes.SelectionStore.IsSelected | src/hooks/useSelectedRecipes.ts:25-28 | true exactly when some selected recipe has the id |
| SelectedRecipes.SelectionStore.ToggleRecipe | src/hooks/useSelectedRecipes.ts:31-40 | the new list is the old one toggled, ids stay distinct, and the recipe's selection flips |
| SelectedRecipes.SelectionStore.ClearSelectedRecipes | src/hooks/useSelectedRecipes.ts:43-45 | the list becomes empty, and so does its combined listing |
| SelectedRecipes.SelectionStore.GetCombinedIngredients | src/hooks/useSelectedRecipes.ts:48-75 | the nested loop filling the map returns exactly the combined listing of the current selection |
| IngredientAggregator.NormalizeKey | src/hooks/useSelectedRecipes.ts:55 | a grouping key is no longer than the name and has no whitespace at either end |
| IngredientAggregator.OccurrenceOf | src/hooks/useSelectedRecipes.ts:55-62 | one ingredient line contributes itself with its recipe's name, under a key no longer than its name |
| IngredientAggregator.RecipeOccurrences | src/hooks/useSelectedRecipes.ts:54-62 | a recipe yields one occurrence per ingredient line, in line order, each carrying that line and the recipe's name |
| IngredientAggregator.Occurrences | src/hooks/useSelectedRecipes.ts:53-54 | the traversal visits as many occurrences as there are ingredient lines in the selection |
| IngredientAggregator.OccurrenceVisited | src/hooks/useSelectedRecipes.ts:53-55 | every ingredient line of every selected recipe is visited under its normalised key and its recipe's name |
| IngredientAggregator.OccurrenceSource | src/hooks/useSelectedRecipes.ts:53-55 | every visited occurrence comes from some ingredient line of some selected recipe |
| IngredientAggregator.KeyIndex | src/hooks/useSelectedRecipes.ts:56 | `Map.has`/`get`: an index whose entry has the key, or -1 exactly when no entry has it |
| IngredientAggregator.Record | src/hooks/useSelectedRecipes.ts:56-62 | one fill step adds at most one entry: an absent key is appended with the one contribution; a present key keeps its place and gets the contribution appended to its list |
| IngredientAggregator.RecordFrame | src/hooks/useSelectedRecipes.ts:56-62 | one fill step keeps every key at its position and leaves every other key's entry unchanged |
| IngredientAggregator.RecordKeys | src/hooks/useSelectedRecipes.ts:56-58 | one fill step keeps keys distinct and adds exactly the recorded key |
| IngredientAggregator.Group | src/hooks/useSelectedRecipes.ts:53-64 | the filled map never has more entries than there are occurrences |
| IngredientAggregator.FirstOccurrence | src/hooks/useSelectedRecipes.ts:56-58 | the index of the first occurrence of a key: no earlier occurrence has the key, and the occurrence at that index does |
| IngredientAggregator.ItemsForAbsent | src/hooks/useSelectedRecipes.ts:56-57 | a key that never occurs collects no contributions |
| IngredientAggregator.FirstOccurrenceSnoc | src/hooks/useSelectedRecipes.ts:56-58 | a later occurrence does not move a key's first occurrence, and a key's first occurrence is where it first appears |
| IngredientAggregator.GroupKeys | src/hooks/useSelectedRecipes.ts:56-58 | the map's keys are pairwise distinct and are exactly the keys that occur |
| IngredientAggregator.GroupItems | src/hooks/useSelectedRecipes.ts:59-62 | each map entry holds exactly its key's contributions, in traversal order |
| IngredientAggregator.GroupOrder | src/hooks/useSelectedRecipes.ts:56-58 | the map's entries are in order of their keys' first occurrences (insertion order) |
| IngredientAggregator.GroupTotal | src/hooks/useSelectedRecipes.ts:53-64 | every occurrence is recorded exactly once |
| IngredientAggregator.MeasureLine | src/hooks/useSelectedRecipes.ts:72 | a measure line starts with the measure and ends with `)`, three characters longer than measure and recipe name together |
| IngredientAggregator.MeasureLines | src/hooks/useSelectedRecipes.ts:72 | one line per contribution, in order, each starting with that contribution's measure |
| IngredientAggregator.ImageUrl | src/hooks/useSelectedRecipes.ts:71 | the URL is the fixed prefix, then the key with no space left, then `.png` |
| IngredientAggregator.Render | src/hooks/useSelectedRecipes.ts:67-74 | one row per map entry, in map order, named by its key, with one measure line per contribution |
| IngredientAggregator.CombinedIngredients | src/hooks/useSelectedRecipes.ts:48-75 | the listing never has more rows than the selection has ingredient lines |
| IngredientAggregator.RenderCount | src/hooks/useSelectedRecipes.ts:72 | rendering keeps one measure line per contribution |
| IngredientAggregator.CombinedNamesDistinct | src/hooks/useSelectedRecipes.ts:56-58 | no two rows of the listing share a name |
| IngredientAggregator.CombinedNamesSound | src/hooks/useSelectedRecipes.ts:55-58 | every row's name is the lowercase-then-trim of some selected ingredient's name |
| IngredientAggregator.LineListed | src/hooks/useSelectedRecipes.ts:53-58 | the normalised name of a given selected ingredient line appears as a row |
| IngredientAggregator.CombinedNamesComplete | src/hooks/useSelectedRecipes.ts:53-58 | the normalised name of every selected ingredient line appears as a row |
| IngredientAggregator.CombinedOrder | src/hooks/useSelectedRecipes.ts:67 | rows are ordered by the first occurrence of their names in recipe-then-ingredient order |
| IngredientAggregator.CombinedMeasures | src/hooks/useSelectedRecipes.ts:71-72 | each row lists `measure (recipe)` for every occurrence of its name in traversal order, and its URL is the prefix, the name with spaces made `_`, then `.png` |
| IngredientAggregator.CombinedCount | src/hooks/useSelectedRecipes.ts:59-62 | the listing's measure lines number exactly the selection's ingredient lines |
| IngredientAggregator.CombinedIngredientsEmpty | src/hooks/useSelectedRecipes.ts:50-53 | an empty selection gives an empty listing |
| AggregatorExamples.LowerUnchanged | src/hooks/useSelectedRecipes.ts:55 | a string without upper-case letters is unchanged by `toLowerCase` |
| AggregatorExamples.TrimUnchanged | src/hooks/useSelectedRecipes.ts:55 | a string with no whitespace at either end is unchanged by `trim` |
| AggregatorExamples.PlainKey | src/hooks/useSelectedRecipes.ts:55 | `Salt`, `Water` and `Onion` are keyed `salt`, `water` and `onion` |
| AggregatorExamples.PaddedKey | src/hooks/useSelectedRecipes.ts:55 | ` salt ` is keyed `salt` |
| AggregatorExamples.ExampleGroupTwo | src/hooks/useSelectedRecipes.ts:56-62 | two occurrences with different keys open two entries in order |
| AggregatorExamples.ExampleGroupThree | src/hooks/useSelectedRecipes.ts:56-62 | a third occurrence repeating the first key joins the first entry |
| AggregatorExamples.ExampleGroup | src/hooks/useSelectedRecipes.ts:56-62 | for the keys salt, water, salt, onion, the map holds salt with two contributions, then water, then onion |
| AggregatorExamples.SoupOccurrences | src/hooks/useSelectedRecipes.ts:53-62 | the occurrences of a two-line recipe carry the normalised keys and the recipe's name |
| AggregatorExamples.StewOccurrences | src/hooks/useSelectedRecipes.ts:53-62 | a padded ingredient name gets the same key as the unpadded one |
| AggregatorExamples.TwoRecipeOccurrences | src/hooks/useSelectedRecipes.ts:53-54 | walking two recipes visits the first recipe's lines, then the second's |
| AggregatorExamples.ExampleLines | src/hooks/useSelectedRecipes.ts:72 | concrete `measure (recipe)` lines |
| AggregatorExamples.SoupAndStew | src/hooks/useSelectedRecipes.ts:48-75 | `Salt` in Soup and ` salt ` in Stew give one `salt` row with both measure lines, followed by `water` and `onion` |
| Pagination.TotalPages | src/hooks/usePagination.ts:18 | the page count is the least number of pages that holds every item, and it is 0 exactly when there are no items |
| Pagination.Clamp | src/hooks/usePagination.ts:21-27 | a page above a positive page count becomes the last page, a page below 1 becomes 1, and any other page is kept; the result is at least 1, and at most the page count when there are pages |
| Pagination.ClampIdempotent | src/hooks/usePagination.ts:21-27 | a clamped page is left alone by the next clamp |
| Pagination.PageWindow | src/hooks/usePagination.ts:30-34 | a window spans `itemsPerPage` items, starts at or after 0 for page 1 on, and page 1's window is `0` to `itemsPerPage` |
| Pagination.WindowsAdjacent | src/hooks/usePagination.ts:30-34 | a window spans `itemsPerPage` items, and the next page's window starts where this one ends |
| Pagination.ItemInItsPage | src/hooks/usePagination.ts:30-34 | item `k` lies in the window of page `k / itemsPerPage + 1` |
| Pagination.WindowsDisjoint | src/hooks/usePagination.ts:30-34 | an item lies in the window of at most one page |
| Pagination.ItemPageInRange | src/hooks/usePagination.ts:18 | every item's page is between 1 and the page count |
| Pagination.WindowStartsInside | src/hooks/usePagination.ts:30-34 | the window of an existing page starts inside the list |
| Pagination.PageNumbers | src/hooks/usePagination.ts:37-54 | at most seven pages shows every page; beyond that, 9 buttons near either end and 7 in the middle, starting with 1 and ending with the last page; page numbers strictly rise and stay in range; the current page is shown whenever it exists |
| Pagination.PageNumbersContiguous | src/hooks/usePagination.ts:43-52 | adjacent page buttons are consecutive pages, and every `...` is followed by a page button |
| Pagination.Paginator.constructor | src/hooks/usePagination.ts:13-15 | the first render starts at the clamped initial page, page 1 when none is given, which is in range whenever there are items |
| Pagination.Paginator.Normalize | src/hooks/usePagination.ts:21-27 | the clamp moves the current page into range whenever there are pages |
| Pagination.Paginator.Rerender | src/hooks/usePagination.ts:18-27 | new props recompute the page count and re-clamp the current page |
| Pagination.Paginator.GoToPage | src/hooks/usePagination.ts:57-61 | the page changes only to an existing page; otherwise nothing changes, and an in-range page stays in range |
| Pagination.Paginator.GoToNextPage | src/hooks/usePagination.ts:63-67 | one page on only when before the last page; never leaves the range from inside it |
| Pagination.Paginator.GoToPreviousPage | src/hooks/usePagination.ts:69-73 | one page back only when after page 1; never leaves the range from inside it |
| Pagination.Paginator.GoToFirstPage | src/hooks/usePagination.ts:75-77 | the page becomes 1, which is in range whenever there are pages |
| Pagination.Paginator.GoToLastPage | src/hooks/usePagination.ts:79-81 | the page becomes the page count; when that is 0 the next clamp makes it 1 |
| MealApi.Slot | src/api/mealApi.ts:18-22 | reading slot `i` of a numbered field family yields a value only for a slot that exists, and then the field's own value |
| MealApi.Filled | src/api/mealApi.ts:25 | a field counts as filled only when it is truthy, so it holds at least one character |
| MealApi.FilledNonBlank | src/api/mealApi.ts:25 | a field is filled exactly when it is present and holds some non-whitespace character |
| MealApi.SlotKept | src/api/mealApi.ts:18-25 | a slot is kept only when both its ingredient and its measure field exist |
| MealApi.KeptIngredients | src/api/mealApi.ts:17-31 | scanning slots 1..n keeps at most n ingredients, none with an empty name or measure |
| MealApi.IndicesOrdered | src/api/mealApi.ts:17 | the slots a loop over 1..n keeps lie in 1..n, pass the test, and increase |
| MealApi.IndicesComplete | src/api/mealApi.ts:17-25 | every slot in 1..n that passes the test is kept |
| MealApi.KeptIngredientsMatch | src/api/mealApi.ts:25-29 | the k-th pushed ingredient is the name and measure of the k-th kept slot |
| MealApi.KeptIngredientsSpec | src/api/mealApi.ts:17-31 | one ingredient per slot whose name and measure are both filled, in increasing slot order, name and measure as sent; no other slot yields one |
| MealApi.OrUndefined | src/api/mealApi.ts:40-41 | the fallback to `undefined` gives absent exactly when the value is null or empty, and otherwise the value unchanged |
| MealApi.Transformed | src/api/mealApi.ts:12-44 | at most twenty ingredients, none with an empty name or measure; a tag or video link is present exactly when the one sent is truthy, and then it is the one sent |
| MealApi.TransformRecipe | src/api/mealApi.ts:12-44 | the slot-scanning loop returns exactly the transformed recipe |
| MealApi.TransformSpec | src/api/mealApi.ts:12-44 | the six display fields are copied unchanged; tags and video link are kept when truthy and dropped to undefined otherwise; at most twenty ingredients, exactly one per filled slot, in slot order, untrimmed |
| MealApi.TransformedFilled | src/api/mealApi.ts:25 | no ingredient of a transformed meal has a name or measure that is blank after trimming |
| MealApi.TransformAll | src/api/mealApi.ts:101 | `map(transformRecipe)` gives one recipe per meal, at the same position with the same id, each with at most twenty ingredients |
| MealApi.SearchMeals | src/api/mealApi.ts:56-57 | null `meals` gives `[]`, and otherwise every meal is transformed, in order |
| MealApi.GetMealById | src/api/mealApi.ts:65-66 | null or empty `meals` gives null, and otherwise the transform of the first meal |
| MealApi.GetRandomMeal | src/api/mealApi.ts:82-83 | null or empty `meals` gives null, and otherwise the transform of the first meal |
| MealApi.Alphabet | src/api/mealApi.ts:47 | 26 letters from `a` to `z`, strictly increasing |
| MealApi.MealsOrEmpty | src/api/mealApi.ts:93 | the fallback to `[]` is empty for a null result and otherwise holds exactly the result's meals |
| MealApi.Concat | src/api/mealApi.ts:100 | a meal is in the flattened list exactly when it is in one of the lists |
| MealApi.ConcatAppend | src/api/mealApi.ts:100 | `flat` distributes over joining lists of lists |
| MealApi.LetterResults | src/api/mealApi.ts:91-94 | one meal list per letter, twenty-six in all, the list at position `i` being the non-null result for the `i`-th lower-case letter, else empty |
| MealApi.GetAllMeals | src/api/mealApi.ts:87-101 | every swept recipe has at most twenty ingredients, and when every letter's result is null there are none |
| MealApi.GetAllMealsSpec | src/api/mealApi.ts:87-101 | each letter's meals form one block, after every earlier letter's and before every later letter's; each meal is transformed once, in place; a meal is included exactly when some letter's non-null result holds it |
| MealApi.ByCategory | src/api/mealApi.ts:110 | exactly the meals whose category equals the given one, in their original order, each as many times as it occurs |
| MealApi.ByCategoryIdempotent | src/api/mealApi.ts:110 | filtering by the same category twice equals filtering once |
| MealApi.GetMealsByCategory | src/api/mealApi.ts:105-111 | exactly the swept meals of that category, in sweep order, each as many times as the sweep holds it |
| RecipeQueries.UseFilterByCategory | src/hooks/useRecipeQueries.ts:61-64 | a null or empty category returns the input; otherwise every result has the category and every input recipe with it is kept as many times as it occurs; the result is an order-preserving subsequence of the input, never longer |
| RecipeQueries.UseFilterByCategoryIdempotent | src/hooks/useRecipeQueries.ts:63 | filtering twice by the same category equals filtering once |
| RecipeCard.TruncatedInstructions | src/components/RecipeCard.tsx:35 | short instructions are shown whole; longer ones as their first 50 characters plus `...`; the length is `min(len, 50)`, plus 3 when cut, never above 53; the preview always starts with the first `min(len, 50)` characters |

## Left out

- **HTTP and logging:** the axios instance, the requests, `Promise.all`, the `async` wrappers and the `console.log` calls in src/api/mealApi.ts. Each lookup is modelled on the response it receives. The a-to-z sweep takes the per-letter responses as a function from letter to response.
- **`getCategories`** (src/api/mealApi.ts:70-75): it passes the categories response through untouched, so there is nothing to shape.
- **React Query hooks** (src/hooks/useRecipeQueries.ts:15-56): caching, staleness and `enabled` belong to a library that is not part of this model.
- **React state machinery:**
  - `useState`, `useCallback` and `useMemo` are not modelled as such.
  - `SelectionStore.ToggleRecipe` decides against the current list. It does not model the source's render-time `isSelected` closure going stale while add/remove apply functional updates.
  - The pagination clamp runs as a side effect of rendering. Here it is an explicit step: `Paginator.Normalize`, run by the constructor and `Paginator.Rerender`. Between a navigation call and the next render, the model's current page can therefore be out of range, just as the source's state can.
- **Unicode:** `Text.LowerChar` changes only `A`-`Z`, and `Text.IsWhitespace` covers the space and tab through carriage return. JavaScript's `toLowerCase` and `trim` act on all of Unicode. Strings are sequences of characters, not UTF-16 code units, so a length of 50 counts characters.
- **Pagination.TotalPages:** it requires a positive page size. The source divides floating-point numbers with `Math.ceil`, so a page size of 0 gives `Infinity` or `NaN`. No caller passes 0.
- **Types module:** src/types/recipe.ts is not part of this model.
  - The nullable API strings are `Option<string>`.
  - The twenty `strIngredientN`/`strMeasureN` fields are two sequences. A slot past the end of a sequence reads as a missing field.
- **Map lookup cost:** the JavaScript `Map` is an association list with a linear key search. Only its contents and insertion order are modelled, not its hashing.
- **Not modelled:**
  - rendering and routing: all JSX, the context provider and its `throw`;
  - the tag and line splitting in src/components/RecipeDetail.tsx;
  - the search debounce in src/components/SearchBar.tsx;
  - vite.config.ts.
