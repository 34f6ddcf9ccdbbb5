/**
 * The favorites store of the recipe provider: the in-memory `favorites` list,
 * the storage slot under the key 'favorites' that each toggle overwrites, and
 * the load that adopts the slot's contents at start-up.
 *
 * The slot holds the list it was last written with, and the JSON encoding is
 * left abstract: `LoadFromSlot` reads the store's own slot, and `LoadFavorites`
 * takes any `ReadOutcome`, including those of texts this store never wrote.
 */
module RecipeStore {
  import opened Wrappers
  import opened Favorites

  /** What reading and parsing the 'favorites' slot yields. */
  datatype ReadOutcome =
    | Missing                       // the slot holds nothing (the read gives null)
    | EmptyText                     // the slot holds the empty string
    | ReadError                     // the storage read throws
    | ParseError                    // the stored text is not JSON
    | Parsed(list: seq<Recipe>)     // the stored text parses to this list

  /** The list after a load: a parsed stored value replaces it; anything else leaves it. */
  function Loaded(current: seq<Recipe>, outcome: ReadOutcome): (next: seq<Recipe>)
    ensures outcome.Parsed? ==> next == outcome.list
    ensures !outcome.Parsed? ==> next == current
  {
    match outcome
    case Parsed(list) => list
    case _ => current
  }

  /** What a read of the slot yields when this store is the only writer of the slot. */
  function ReadSlot(stored: Option<seq<Recipe>>): (outcome: ReadOutcome)
    ensures outcome.Parsed? <==> stored.Some?
    ensures stored.Some? ==> outcome.list == stored.value
    ensures stored.None? ==> outcome == Missing
  {
    match stored
    case None => Missing
    case Some(list) => Parsed(list)
  }

  /** Every outcome but a parsed value leaves the list as it was, and none of them fails. */
  lemma LoadFailureKeepsList(current: seq<Recipe>, outcome: ReadOutcome)
    requires !outcome.Parsed?
    ensures Loaded(current, outcome) == current
  {
  }

  /** Load does not check ids: a stored list with a duplicate id is adopted as it is. */
  lemma LoadAdmitsDuplicates()
    ensures var a := Recipe("52772", map[]);
      && !UniqueIds(Loaded([], Parsed([a, a])))
      && Loaded([], Parsed([a, a])) == [a, a]
  {
    var a := Recipe("52772", map[]);
    assert [a, a][0].idMeal == [a, a][1].idMeal;
  }

  /** A store that starts with nothing stored and loads it favors no recipe. */
  lemma StartupWithEmptyStorage(id: string)
    ensures !IsFav(Loaded([], ReadSlot(None)), id)
  {
  }

  /** A malformed stored text leaves the start-up list empty. */
  lemma StartupWithMalformedStorage(id: string)
    ensures Loaded([], ParseError) == [] && !IsFav(Loaded([], ParseError), id)
  {
  }

  class FavoritesStore {
    /** The favorites list, in the order the user added them. */
    var favorites: seq<Recipe>
    /** The storage slot under the key 'favorites'. */
    var stored: Option<seq<Recipe>>

    /** The provider starts with an empty list; the slot keeps whatever an earlier run stored. */
    constructor (slot: Option<seq<Recipe>>)
      ensures favorites == [] && stored == slot
    {
      favorites := [];
      stored := slot;
    }

    /** `isFavorite(id)`: some favorite has this id. Changes nothing. */
    method IsFavorite(id: string) returns (b: bool)
      ensures b <==> exists i :: 0 <= i < |favorites| && favorites[i].idMeal == id
    {
      b := IsFav(favorites, id);
    }

    /**
     * `saveFavorites(list)`: overwrites the slot with the whole list. A failed
     * write (`written` false) is caught and logged, and the slot keeps its value.
     */
    method SaveFavorites(list: seq<Recipe>, written: bool)
      modifies this`stored
      ensures stored == if written then Some(list) else old(stored)
    {
      if written {
        stored := Some(list);
      }
    }

    /**
     * `toggleFavorite(recipe)`: removes every favorite with the recipe's id if
     * there is one, appends the recipe otherwise, and writes the new list to
     * the slot. The in-memory list changes whether or not the write succeeds.
     */
    method ToggleFavorite(recipe: Recipe, written: bool)
      modifies this
      ensures favorites == Toggle(old(favorites), recipe)
      ensures stored == if written then Some(favorites) else old(stored)
      ensures IsFav(favorites, recipe.idMeal) == !IsFav(old(favorites), recipe.idMeal)
      ensures forall id :: id != recipe.idMeal ==> IsFav(favorites, id) == IsFav(old(favorites), id)
      ensures UniqueIds(old(favorites)) ==> UniqueIds(favorites)
    {
      var current := favorites;
      var isFavorited := IsFav(current, recipe.idMeal);
      var newFavorites := if isFavorited then RemoveId(current, recipe.idMeal) else current + [recipe];
      forall id ensures IsFav(newFavorites, id) == if id == recipe.idMeal then !IsFav(current, id) else IsFav(current, id) {
        ToggleFlipsMembership(current, recipe, id);
      }
      if UniqueIds(current) {
        ToggleKeepsUnique(current, recipe);
      }
      SaveFavorites(newFavorites, written);
      favorites := newFavorites;
    }

    /**
     * `loadFavorites()`: adopts the stored list when the slot holds a non-empty
     * text that parses; on a missing or empty value and on any read or parse
     * error the list is left as it is and no error escapes.
     */
    method LoadFavorites(outcome: ReadOutcome)
      modifies this`favorites
      ensures favorites == Loaded(old(favorites), outcome)
      ensures outcome.Parsed? ==> favorites == outcome.list
      ensures !outcome.Parsed? ==> favorites == old(favorites)
    {
      match outcome
      case Parsed(list) =>
        favorites := list;
      case _ =>
    }

    /**
     * `loadFavorites()` reading this store's own slot: a read that throws
     * (`readFails`) leaves the list; otherwise the slot's list, if any, replaces it.
     */
    method LoadFromSlot(readFails: bool)
      modifies this`favorites
      ensures favorites == if readFails then old(favorites) else Loaded(old(favorites), ReadSlot(stored))
      ensures !readFails && stored.Some? ==> favorites == stored.value
      ensures stored.None? ==> favorites == old(favorites)
    {
      LoadFavorites(if readFails then ReadError else ReadSlot(stored));
    }
  }

  /**
   * A toggle whose write succeeds survives a restart: a new provider over the
   * same slot, once loaded, holds the toggled list.
   */
  method ToggleThenRestart(store: FavoritesStore, recipe: Recipe) returns (restarted: FavoritesStore)
    modifies store
    ensures store.favorites == Toggle(old(store.favorites), recipe)
    ensures restarted.stored == store.stored == Some(store.favorites)
    ensures restarted.favorites == store.favorites
  {
    store.ToggleFavorite(recipe, true);
    restarted := new FavoritesStore(store.stored);
    restarted.LoadFromSlot(false);
  }
}
