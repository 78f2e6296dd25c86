/**
 * The recipe records of the browser and the two pure queries over them:
 * the category filter behind the recipe list, and the `findIndex` lookup
 * that maps a card of that list back to a position in the full list.
 */
module Recipes {

  /** Recipe ids as they appear in the recipe data and in the favorites set. */
  type RecipeId = string

  /** A recipe record; only the fields the browser's state logic looks at. */
  datatype Recipe = Recipe(id: RecipeId, category: string, title: string)

  /** The name of the pseudo-category that lists the favorited recipes. */
  const FAVORITES: string := "Favorites"

  /** What a recipe list selects on: favorite membership, or the category field. */
  datatype Selector = FavoritesOnly(favorites: set<RecipeId>) | InCategory(category: string)

  predicate Selects(sel: Selector, r: Recipe)
  {
    match sel
    case FavoritesOnly(favs) => r.id in favs
    case InCategory(c) => r.category == c
  }

  /**
   * The selector a category tile stands for: "Favorites" accepts the
   * recipes whose id is a favorite, any other category the recipes whose
   * category field equals it.
   */
  function SelectorFor(category: string, favorites: set<RecipeId>): (sel: Selector)
    ensures forall r :: Selects(sel, r) <==> (if category == FAVORITES then r.id in favorites else r.category == category)
  {
    if category == FAVORITES then FavoritesOnly(favorites) else InCategory(category)
  }

  /** `Array.filter` with the predicate `Selects(sel, _)`. */
  function Filter(s: seq<Recipe>, sel: Selector): (r: seq<Recipe>)
    ensures |r| <= |s|
    ensures forall x :: x in r ==> x in s && Selects(sel, x)
    ensures forall x :: x in s && Selects(sel, x) ==> x in r
  {
    if s == [] then []
    else
      var last := s[|s| - 1];
      Filter(s[..|s| - 1], sel) + (if Selects(sel, last) then [last] else [])
  }

  /**
   * Reference definition: the positions of `s` whose element the selector
   * accepts, all of them, in increasing order.
   */
  function Positions(s: seq<Recipe>, sel: Selector): (p: seq<nat>)
    ensures forall k :: 0 <= k < |p| ==> p[k] < |s| && Selects(sel, s[p[k]])
    ensures forall k, l :: 0 <= k < l < |p| ==> p[k] < p[l]
    ensures forall i :: 0 <= i < |s| && Selects(sel, s[i]) ==> i in p
  {
    if s == [] then []
    else
      Positions(s[..|s| - 1], sel) + (if Selects(sel, s[|s| - 1]) then [|s| - 1] else [])
  }

  /** The filter keeps the accepted elements at their positions, in order. */
  lemma {:induction false} FilterIsSelection(s: seq<Recipe>, sel: Selector)
    ensures |Filter(s, sel)| == |Positions(s, sel)|
    ensures forall k :: 0 <= k < |Positions(s, sel)| ==> Filter(s, sel)[k] == s[Positions(s, sel)[k]]
  {
    if s != [] {
      var init, last := s[..|s| - 1], s[|s| - 1];
      FilterIsSelection(init, sel);
      assert s == init + [last];
      SelectionExtends(init, last, Selects(sel, last), Filter(init, sel), Positions(init, sel));
    }
  }

  /**
   * One step of FilterIsSelection: if `f` picks the elements of `init` at
   * the positions `p`, then appending `last` to both (or to neither) keeps
   * `f` picking the elements of `init + [last]` at the positions given.
   */
  lemma SelectionExtends(init: seq<Recipe>, last: Recipe, keep: bool, f: seq<Recipe>, p: seq<nat>)
    requires |f| == |p|
    requires forall k :: 0 <= k < |p| ==> p[k] < |init| && f[k] == init[p[k]]
    ensures var f', p' := f + (if keep then [last] else []), p + (if keep then [|init|] else []);
            |f'| == |p'| && forall k :: 0 <= k < |p'| ==> p'[k] < |init| + 1 && f'[k] == (init + [last])[p'[k]]
  {
  }

  /** `getRecipesForCategory`: the recipe list a category tile shows. */
  function RecipesForCategory(all: seq<Recipe>, favorites: set<RecipeId>, category: string): (r: seq<Recipe>)
    ensures forall x :: x in r ==> x in all
    ensures category == FAVORITES ==> forall x :: x in r ==> x.id in favorites
    ensures category != FAVORITES ==> forall x :: x in r ==> x.category == category
  {
    Filter(all, SelectorFor(category, favorites))
  }

  /**
   * The "Favorites" list holds exactly the recipes whose id is a favorite,
   * each at its place in the full list, in the full list's order.
   */
  lemma FavoritesListExact(all: seq<Recipe>, favorites: set<RecipeId>)
    ensures var r := RecipesForCategory(all, favorites, FAVORITES);
            var p := Positions(all, FavoritesOnly(favorites));
            && |r| == |p|
            && (forall k :: 0 <= k < |p| ==> r[k] == all[p[k]])
            && (forall k, l :: 0 <= k < l < |p| ==> p[k] < p[l])
            && (forall i :: 0 <= i < |all| ==> (i in p <==> all[i].id in favorites))
  {
    FilterIsSelection(all, FavoritesOnly(favorites));
  }

  /**
   * Any other category lists exactly the recipes whose category field is
   * that category, each at its place in the full list, in order.
   */
  lemma CategoryListExact(all: seq<Recipe>, favorites: set<RecipeId>, category: string)
    requires category != FAVORITES
    ensures var r := RecipesForCategory(all, favorites, category);
            var p := Positions(all, InCategory(category));
            && |r| == |p|
            && (forall k :: 0 <= k < |p| ==> r[k] == all[p[k]])
            && (forall k, l :: 0 <= k < l < |p| ==> p[k] < p[l])
            && (forall i :: 0 <= i < |all| ==> (i in p <==> all[i].category == category))
  {
    FilterIsSelection(all, InCategory(category));
  }

  /** `Array.findIndex` on the id: the first position holding that id, or -1. */
  function FindIndex(s: seq<Recipe>, id: RecipeId): (r: int)
    ensures -1 <= r < |s|
    ensures r == -1 <==> forall j :: 0 <= j < |s| ==> s[j].id != id
    ensures r >= 0 ==> s[r].id == id && forall j :: 0 <= j < r ==> s[j].id != id
  {
    if s == [] then -1
    else if s[0].id == id then 0
    else
      var k := FindIndex(s[1..], id);
      if k == -1 then -1 else k + 1
  }

  /**
   * A card of any recipe list maps back to a valid position of the full
   * list, the first one holding the card's id.
   */
  lemma CardIndexInRange(all: seq<Recipe>, favorites: set<RecipeId>, category: string, card: Recipe)
    requires card in RecipesForCategory(all, favorites, category)
    ensures 0 <= FindIndex(all, card.id) < |all|
    ensures all[FindIndex(all, card.id)].id == card.id
  {
    var j :| 0 <= j < |all| && all[j] == card;
    assert all[j].id == card.id;
  }
}
