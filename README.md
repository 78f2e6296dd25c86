# Recipe browser state machine

A Dafny model of the state logic in `app.js`, a browser-resident recipe book. The page keeps five globals:
- the loaded recipe list;
- the category whose list was rendered last;
- the index of the recipe open in the detail view;
- whether that recipe is shown as a photo or in the typed layout;
- the set of favorite recipe ids.

Its click handlers update these globals and then redraw the DOM. The model keeps the globals and drops the redraw.

- `recipes.dfy` (module `Recipes`) models the recipe records and the two pure queries. `getRecipesForCategory` is a filter whose pseudo-category `"Favorites"` selects by favorite membership, and any other category selects by the record's `category` field. The `findIndex` lookup maps a clicked card back to a position in the full list. The filter is proved against an independent reference, `Positions`: the increasing list of all positions whose recipe is selected.
- `navigation.dfy` (module `Navigation`) models previous/next stepping. The source wraps the index with JavaScript's `%`, which truncates toward zero. Dafny's `%` is Euclidean, so that operator is written out as `JsRemainder`.
- `favorites.dfy` (module `Favorites`) models the flip the favorite button applies to the favorites set, and the set of ids a stored favorites list contributes.
- `browser.dfy` (module `Browser`) holds the class `RecipeBrowser`. It has the five globals as fields and one method per handler. Each method's `modifies` frame names the fields it may change, so it says which globals the handler may change. `Valid()` says the index names a recipe whenever there is one. Navigation keeps `Valid()`, and so does a card click on a recipe of the list.

The favorites store read at start-up becomes an `Option<seq<RecipeId>>` parameter, with `None` for nothing stored or unreadable. The fetched recipe file becomes an `Option<seq<Recipe>>` parameter, with `None` for a failed fetch.

## Model

| member | source | states |
|---|---|---|
| `Recipes.SelectorFor` | app.js:108-111 | for `"Favorites"` the selector accepts exactly the recipes whose id is a favorite; for any other category, exactly the recipes whose `category` equals it |
| `Recipes.Filter` | app.js:109-111 | the filtered list is no longer than the input; its elements are exactly the input's elements that the selector accepts |
| `Recipes.Positions` | app.js:109-111 | reference definition: strictly increasing positions of the input, each holding an accepted recipe, and containing every position that holds one |
| `Recipes.FilterIsSelection` | app.js:109-111 | the filter's k-th element is the input's element at the k-th accepted position, so the order is kept |
| `Recipes.RecipesForCategory` | app.js:107-112 | every listed recipe is in the full list; for `"Favorites"` each is a favorite, otherwise each has the requested category |
| `Recipes.FavoritesListExact` | app.js:108-109 | the `"Favorites"` list holds, in original order, exactly the recipes whose id is in the favorites set |
| `Recipes.CategoryListExact` | app.js:111 | any other category's list holds, in original order, exactly the recipes whose `category` equals it |
| `Recipes.FindIndex` | app.js:165 | `findIndex` on the id: -1 exactly when no recipe has the id, otherwise the first position holding it |
| `Recipes.CardIndexInRange` | app.js:163-166 | a card taken from any category list maps back to a valid index of the full list, one holding the card's id |
| `Navigation.JsRemainder` | app.js:265 | JavaScript `%` with a positive divisor: the result has the dividend's sign and lies strictly between `-n` and `n`; a dividend in that range is returned unchanged |
| `Navigation.JsCongruent` | app.js:265 | the remainder differs from the dividend by a whole multiple of the divisor, which with `JsRemainder`'s sign and range makes it the truncated remainder |
| `Navigation.NextIndex` | app.js:271 | the next index is in range whenever the old index is at least -1 |
| `Navigation.PrevIndex` | app.js:264-265 | adding the list length first keeps the previous index in range whenever the old index is at least `1 - n` |
| `Navigation.NextIndexWraps` | app.js:271 | from a valid index, next is the following index, and the last index wraps to 0 |
| `Navigation.PrevIndexWraps` | app.js:264-265 | from a valid index, previous is the preceding index, and 0 wraps to the last |
| `Navigation.NextPrevInverse` | app.js:262-273 | from a valid index, next then previous, or previous then next, returns to that index |
| `Favorites.Toggled` | app.js:320-324 | the favorite button flips membership of the pressed id and leaves every other id as it was |
| `Favorites.ToggledTwice` | app.js:320-324 | flipping the same id twice restores the favorites set |
| `Favorites.IdsOf` | app.js:48 | the ids contributed by a stored list are exactly the list's elements |
| `Browser.RecipeBrowser.constructor` | app.js:2-6 | initial state: no recipes, no category, index 0, photo view, no favorites; the state is valid |
| `Browser.RecipeBrowser.LoadFavorites` | app.js:44-53 | each stored id is added to the favorites set; nothing stored leaves the set unchanged |
| `Browser.RecipeBrowser.LoadRecipes` | app.js:81-91 | the fetched list becomes the recipe list, and a failed fetch gives the empty list |
| `Browser.RecipeBrowser.RenderRecipeList` | app.js:114-116 | the current category becomes the argument; the list shown is that category's filtered list |
| `Browser.RecipeBrowser.OpenRecipeDetail` | app.js:174-176 | an index with no recipe changes nothing; a valid index resets the view to photo (line 240) and changes no other state |
| `Browser.RecipeBrowser.OpenCard` | app.js:163-168 | the current index becomes the first position holding the card's id, and the recipe opens in photo view; it is valid when the card's recipe is in the list |
| `Browser.RecipeBrowser.GoToPrevRecipe` | app.js:262-267 | without recipes nothing changes; otherwise the index becomes `PrevIndex` of the old one; validity is kept and the recipe opens in photo view |
| `Browser.RecipeBrowser.GoToNextRecipe` | app.js:269-273 | without recipes nothing changes; otherwise the index becomes `NextIndex` of the old one; validity is kept and the recipe opens in photo view |
| `Browser.RecipeBrowser.ToggleTypedView` | app.js:303-307 | the view flag is negated and nothing else changes, so toggling twice restores it |
| `Browser.RecipeBrowser.ToggleFavorite` | app.js:316-327 | without a recipe at the current index nothing changes; otherwise the favorites set becomes `Toggled` of the current recipe's id and the recipe re-opens in photo view |

## Left out

- DOM construction and updates are left out: `showCategoryView`, `showRecipeDetailView`, `updateViewModeButton`, `updateRecipeViewMode`, the card and ingredient rendering inside `renderRecipeList` and `openRecipeDetail`, and `scrollIntoView`. They only reflect state and change none of it.
- Local-storage I/O is left out. That covers `saveFavorites`, `loadTheme` and `toggleTheme`, which keep the theme on the document body rather than in a global. `LoadFavorites` takes the parsed stored list as a parameter, without the JSON parsing or the try/catch.
- The network fetch in `loadRecipes` is left out. `LoadRecipes` takes its outcome as a parameter.
- The text-size slider is left out. It writes a floating-point CSS property and holds no state of this model.
- The `DOMContentLoaded` registration and the event loop are left out. Only the handlers' bodies are modelled, and one call runs to completion before the next starts.
- The back button only switches DOM panels, so it is left out.
- `Recipe` keeps just `id`, `category` and `title`. Photo, typed text, notes and steps are rendered by `openRecipeDetail` and hold no state of this model.
- The model assumes every fetched record is a non-null object carrying `typed`, `typed.ingredients` and `typed.steps`. For a `null` entry, `openRecipeDetail` returns at line 176 although the index is in range. For a record missing those fields, it throws at line 180, 187 or 223, before the view reset at line 240. `GoToPrevRecipe` and `GoToNextRecipe` have moved the index by then. `OpenRecipeDetail`, `OpenCard`, `GoToPrevRecipe`, `GoToNextRecipe` and `ToggleFavorite` reset the view for every in-range index, so they do not model either of those paths.
- Recipe ids are modelled as strings. In JSON they could also be numbers, which compare by value the same way.
