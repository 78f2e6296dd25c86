/**
 * The recipe browser's state machine: the five globals of app.js and the
 * handlers that update them, with the DOM work stripped away.
 */
module Browser {
  import opened Recipes
  import opened Navigation
  import opened Favorites

  datatype Option<T> = None | Some(value: T)

  class RecipeBrowser {
    var allRecipes: seq<Recipe>
    /** The category whose list was rendered last; `None` before the first tile is clicked. */
    var currentCategory: Option<string>
    var currentRecipeIndex: int
    var isTypedView: bool
    var favorites: set<RecipeId>

    /** The current index names a recipe, unless there are no recipes at all. */
    ghost predicate Valid()
      reads this
    {
      allRecipes == [] || 0 <= currentRecipeIndex < |allRecipes|
    }

    /** Whether `index` names a recipe, i.e. whether `allRecipes[index]` exists. */
    predicate HasRecipeAt(index: int)
      reads this
    {
      0 <= index < |allRecipes|
    }

    /** The state before anything is loaded. */
    constructor ()
      ensures allRecipes == [] && currentCategory == None
      ensures currentRecipeIndex == 0 && !isTypedView && favorites == {}
      ensures Valid()
    {
      allRecipes := [];
      currentCategory := None;
      currentRecipeIndex := 0;
      isTypedView := false;
      favorites := {};
    }

    /**
     * `loadFavorites`: every id of the stored list joins the favorites set.
     * `None` stands for nothing stored, or storage that could not be read.
     */
    method LoadFavorites(stored: Option<seq<RecipeId>>)
      modifies this`favorites
      ensures stored.None? ==> favorites == old(favorites)
      ensures stored.Some? ==> favorites == old(favorites) + IdsOf(stored.value)
    {
      if stored.Some? {
        var ids := stored.value;
        for i := 0 to |ids|
          invariant favorites == old(favorites) + IdsOf(ids[..i])
        {
          assert ids[..i + 1] == ids[..i] + [ids[i]];
          favorites := favorites + {ids[i]};
        }
        assert ids[..|ids|] == ids;
      }
    }

    /**
     * `loadRecipes`: the fetched list becomes the recipe list; a failed
     * fetch (`None`) leaves it empty.
     */
    method LoadRecipes(fetched: Option<seq<Recipe>>)
      modifies this`allRecipes
      ensures allRecipes == if fetched.Some? then fetched.value else []
      ensures currentRecipeIndex == 0 ==> Valid()
    {
      allRecipes := if fetched.Some? then fetched.value else [];
    }

    /** `renderRecipeList`: remembers the category and yields the list it shows. */
    method RenderRecipeList(category: string) returns (recipes: seq<Recipe>)
      modifies this`currentCategory
      ensures currentCategory == Some(category)
      ensures recipes == RecipesForCategory(allRecipes, favorites, category)
    {
      currentCategory := Some(category);
      recipes := RecipesForCategory(allRecipes, favorites, category);
    }

    /**
     * `openRecipeDetail`'s effect on the state: opening a recipe always
     * starts in photo view; an index with no recipe changes nothing.
     */
    method OpenRecipeDetail(index: int)
      modifies this`isTypedView
      ensures isTypedView == if HasRecipeAt(index) then false else old(isTypedView)
    {
      if !HasRecipeAt(index) {
        return;
      }
      isTypedView := false;
    }

    /** A click on a card of a recipe list: jump to the first recipe with the card's id. */
    method OpenCard(card: Recipe)
      modifies this`currentRecipeIndex, this`isTypedView
      ensures currentRecipeIndex == FindIndex(allRecipes, card.id)
      ensures isTypedView == if currentRecipeIndex >= 0 then false else old(isTypedView)
      ensures card in allRecipes ==> Valid()
    {
      currentRecipeIndex := FindIndex(allRecipes, card.id);
      OpenRecipeDetail(currentRecipeIndex);
    }

    /** `goToPrevRecipe`: one step back, wrapping around; nothing happens without recipes. */
    method GoToPrevRecipe()
      modifies this`currentRecipeIndex, this`isTypedView
      ensures allRecipes == [] ==> currentRecipeIndex == old(currentRecipeIndex) && isTypedView == old(isTypedView)
      ensures allRecipes != [] ==> currentRecipeIndex == PrevIndex(old(currentRecipeIndex), |allRecipes|)
      ensures allRecipes != [] ==> isTypedView == if HasRecipeAt(currentRecipeIndex) then false else old(isTypedView)
      ensures old(Valid()) ==> Valid() && (allRecipes != [] ==> !isTypedView)
    {
      if allRecipes == [] {
        return;
      }
      currentRecipeIndex := PrevIndex(currentRecipeIndex, |allRecipes|);
      OpenRecipeDetail(currentRecipeIndex);
    }

    /** `goToNextRecipe`: one step forward, wrapping around; nothing happens without recipes. */
    method GoToNextRecipe()
      modifies this`currentRecipeIndex, this`isTypedView
      ensures allRecipes == [] ==> currentRecipeIndex == old(currentRecipeIndex) && isTypedView == old(isTypedView)
      ensures allRecipes != [] ==> currentRecipeIndex == NextIndex(old(currentRecipeIndex), |allRecipes|)
      ensures allRecipes != [] ==> isTypedView == if HasRecipeAt(currentRecipeIndex) then false else old(isTypedView)
      ensures old(Valid()) ==> Valid() && (allRecipes != [] ==> !isTypedView)
    {
      if allRecipes == [] {
        return;
      }
      currentRecipeIndex := NextIndex(currentRecipeIndex, |allRecipes|);
      OpenRecipeDetail(currentRecipeIndex);
    }

    /** The typed/photo button: flips the view mode. */
    method ToggleTypedView()
      modifies this`isTypedView
      ensures isTypedView == !old(isTypedView)
    {
      isTypedView := !isTypedView;
    }

    /**
     * The favorite button: flips the current recipe's id in the favorites
     * set and re-opens the recipe (back in photo view); without a current
     * recipe it changes nothing.
     */
    method ToggleFavorite()
      modifies this`favorites, this`isTypedView
      ensures !HasRecipeAt(currentRecipeIndex) ==> favorites == old(favorites) && isTypedView == old(isTypedView)
      ensures HasRecipeAt(currentRecipeIndex) ==>
        favorites == Toggled(old(favorites), allRecipes[currentRecipeIndex].id) && !isTypedView
    {
      if !HasRecipeAt(currentRecipeIndex) {
        return;
      }
      var recipe := allRecipes[currentRecipeIndex];
      if recipe.id in favorites {
        favorites := favorites - {recipe.id};
      } else {
        favorites := favorites + {recipe.id};
      }
      OpenRecipeDetail(currentRecipeIndex);
    }
  }
}
