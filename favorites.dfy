/**
 * The favorites set: the flip the favorite button applies to it, and the
 * ids a stored favorites list contributes to it at start-up.
 */
module Favorites {
  import opened Recipes

  /** The favorites set after the favorite button is pressed on recipe `id`. */
  function Toggled(favorites: set<RecipeId>, id: RecipeId): (r: set<RecipeId>)
    ensures id in r <==> id !in favorites
    ensures forall other :: other != id ==> (other in r <==> other in favorites)
  {
    if id in favorites then favorites - {id} else favorites + {id}
  }

  /** Pressing the favorite button twice on the same recipe restores the set. */
  lemma ToggledTwice(favorites: set<RecipeId>, id: RecipeId)
    ensures Toggled(Toggled(favorites, id), id) == favorites
  {
  }

  /** The ids of a stored favorites list, as a set. */
  function IdsOf(stored: seq<RecipeId>): (ids: set<RecipeId>)
    ensures forall j :: 0 <= j < |stored| ==> stored[j] in ids
    ensures forall x :: x in ids ==> x in stored
  {
    set j | 0 <= j < |stored| :: stored[j]
  }
}
