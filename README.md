# Favorites store of the recipe finder app

The recipe finder app keeps the user's favorite recipes in a small store held by
its recipe provider (`context/RecipeContext.tsx`). The store is an ordered list
of recipe snapshots, used as a set keyed by the string field `idMeal`:

- `isFavorite(id)` asks whether some snapshot has that id;
- `toggleFavorite(recipe)` removes every snapshot with the recipe's id when one
  is present and appends the recipe at the end otherwise, then writes the whole
  new list to the storage slot under the key `'favorites'`;
- `loadFavorites()` runs once when the provider mounts and replaces the (initially
  empty) list with the stored one when the slot holds a non-empty text that
  parses; a missing or empty value is skipped silently, and a read or parse
  error is caught and logged, leaving the list alone in both cases.

The project has three files:

- `wrappers.dfy` — the `Option` type used for the storage slot.
- `favorites.dfy` (module `Favorites`) — the list computations as functions:
  `IsFav` (the `some` scan), `RemoveId` (the `filter`), `Toggle`, and
  `ToggleAll` (a run of toggles), with the lemmas about them.
- `store.dfy` (module `RecipeStore`) — the store as a class `FavoritesStore`
  with a `favorites` field and a `stored` field for the slot, whose methods
  update both; the read outcomes of the slot (`ReadOutcome`) and the load rule
  `Loaded`.

Four consequences of the code that the model states:

- Toggling the same recipe twice restores the list only when the recipe's id
  starts absent. When it starts present, the second toggle appends the given
  snapshot at the end, so the ids come back but the order does not
  (`ToggleTwiceRotatesFirst`).
- A malformed stored value does not reset the list: the load leaves the current
  list unchanged, which is empty at start-up only because the provider starts
  with `[]`.
- Toggles keep ids unique, but the load adopts whatever parses, duplicates
  included (`LoadAdmitsDuplicates`), so uniqueness holds only when the stored
  list already has it.
- A stored text `"[]"` is non-empty and parses, so it replaces the list with
  the empty list; only the empty string and a missing value are skipped.

## Model

| member | source | states |
|---|---|---|
| Favorites.IsFav | context/RecipeContext.tsx:46-48 | the membership query is true exactly when some element's `idMeal` equals the id |
| Favorites.RemoveId | context/RecipeContext.tsx:38 | the filter never grows the list and strictly shrinks it when the id is present |
| Favorites.RemoveIdMembers | context/RecipeContext.tsx:38 | the filter keeps exactly the elements of the list whose id differs |
| Favorites.RemoveIdSelects | context/RecipeContext.tsx:38 | the filter's result is the subsequence of the list picked in increasing order by exactly the positions whose id differs: an order-preserving filter |
| Favorites.RemoveIdAbsent | context/RecipeContext.tsx:38 | filtering out an id no element has returns the list unchanged |
| Favorites.RemoveIdAppend | context/RecipeContext.tsx:38 | the filter distributes over concatenation |
| Favorites.RemoveIdKeepsUnique | context/RecipeContext.tsx:38 | filtering a list with unique ids leaves unique ids |
| Favorites.RemoveIdOtherIds | context/RecipeContext.tsx:38 | filtering out one id leaves the membership of every other id unchanged |
| Favorites.Toggle | context/RecipeContext.tsx:34-39 | the list update of a toggle flips the membership of the recipe's id |
| Favorites.ToggleAll | context/RecipeContext.tsx:32-44 | a run of toggles leaves the membership of every id that no tapped recipe carries unchanged |
| Favorites.ToggleAppendsWhenAbsent | context/RecipeContext.tsx:34-39 | toggling an absent id appends the recipe as the last element, keeps all earlier elements in order, and grows the length by one |
| Favorites.ToggleRemovesAllWhenPresent | context/RecipeContext.tsx:34-38 | toggling a present id removes every element with that id (the id is no longer a member, the list shrinks) and keeps the rest in their original relative order |
| Favorites.ToggleFlipsMembership | context/RecipeContext.tsx:32-44 | after a toggle the membership of the recipe's id is flipped and that of every other id is unchanged |
| Favorites.ToggleKeepsUnique | context/RecipeContext.tsx:37-39 | a toggle of a list with no duplicate ids leaves no duplicate ids |
| Favorites.ToggleAllKeepsUnique | context/RecipeContext.tsx:32-44 | any run of toggles keeps unique ids unique |
| Favorites.TogglesFromEmptyAreUnique | context/RecipeContext.tsx:7 | from the initial empty list, no run of toggles produces a duplicate id |
| Favorites.ToggleTwiceFromAbsent | context/RecipeContext.tsx:37-39 | toggling an absent recipe twice restores the original list exactly |
| Favorites.ToggleTwiceFromPresent | context/RecipeContext.tsx:37-39 | toggling a present recipe twice gives the filtered list with the recipe appended last, and restores the membership of every id |
| Favorites.ToggleTwiceRotatesFirst | context/RecipeContext.tsx:37-39 | in any list of two or more snapshots with unique ids, toggling the first one twice moves it to the end, so the pair of toggles is not the identity there |
| Favorites.ToggleTwiceReorders | context/RecipeContext.tsx:37-39 | for the list `[a, b]` with ids "52772" and "52977", toggling `a` twice gives `[b, a]` |
| Favorites.ScenarioFavoriteOne | context/RecipeContext.tsx:32-48 | favoriting recipe "52772" from the empty list makes it a member of a one-element list |
| Favorites.ScenarioUnfavoriteFirst | context/RecipeContext.tsx:32-44 | favoriting "52772" and "52977" and then toggling "52772" again leaves only "52977" |
| RecipeStore.Loaded | context/RecipeContext.tsx:16-17 | the load adopts a parsed stored list and keeps the current list on every other outcome |
| RecipeStore.ReadSlot | context/RecipeContext.tsx:15-17 | a slot this store wrote reads back as the parsed list it holds, and an empty slot reads as missing |
| RecipeStore.LoadFailureKeepsList | context/RecipeContext.tsx:13-21 | a missing or empty value, a read error or a parse error leaves the list unchanged |
| RecipeStore.LoadAdmitsDuplicates | context/RecipeContext.tsx:16-17 | load adopts a parsed list with a duplicate id as it is |
| RecipeStore.StartupWithEmptyStorage | context/RecipeContext.tsx:7-18 | with nothing stored, after start-up and load no recipe is a favorite |
| RecipeStore.StartupWithMalformedStorage | context/RecipeContext.tsx:7-21 | with a malformed stored text, after start-up and load the list is empty and no recipe is a favorite |
| RecipeStore.FavoritesStore.constructor | context/RecipeContext.tsx:7 | the provider starts with the empty list and the slot as an earlier run left it |
| RecipeStore.FavoritesStore.IsFavorite | context/RecipeContext.tsx:46-48 | returns true exactly when some favorite has the id, and changes no state |
| RecipeStore.FavoritesStore.SaveFavorites | context/RecipeContext.tsx:24-30 | a successful write overwrites the slot with the whole list; a failed write leaves the slot as it was |
| RecipeStore.FavoritesStore.ToggleFavorite | context/RecipeContext.tsx:32-44 | the new list is the toggle of the old one, the value written to the slot is exactly the new list, the recipe's membership flips, other ids keep theirs, and unique ids stay unique |
| RecipeStore.FavoritesStore.LoadFromSlot | context/RecipeContext.tsx:13-22 | loading from the store's own slot adopts the list the slot holds, and keeps the list when the slot is empty or the read throws |
| RecipeStore.ToggleThenRestart | context/RecipeContext.tsx:7-43 | after a toggle whose write succeeds, a new provider over the same slot holds the toggled list once it has loaded |
| RecipeStore.FavoritesStore.LoadFavorites | context/RecipeContext.tsx:13-22 | a parsed stored list replaces the list; every other read outcome leaves it unchanged, and no error escapes |

## Left out

- JSON encoding and decoding: the slot holds the list itself, and a read of it is given as a `ReadOutcome`. A stored text that parses to something other than a list (such as `null`) is not modelled; only texts this store writes, empty texts and unparseable texts are.
- The storage API's asynchrony: reads and writes happen at once, and a failed write is a `written` flag given to the toggle. The toggle racing the initial load, overlapping unawaited writes, and the state updater running more than once are concurrency concerns outside a sequential model.
- Error logging to the console.
- React wiring: creating the context, the provider's rendering, the effect that triggers the load, and the `useRecipes` guard that throws outside a provider.
- The screens under `app/`, which only render the list, call the membership query, and call the toggle.
- Recipe fields other than `idMeal`, kept as an opaque map of strings because the store never reads them. The recipe API also returns `null` for some fields, such as the unused ingredient and measure slots; a map of strings cannot hold those, so a snapshot with `null` fields is represented only up to those fields.
