/**
 * The list logic of the favorites store: an ordered list of recipe snapshots
 * used as a set keyed by `idMeal`, with the membership query and the toggle
 * that the store's operations compute.
 */
module Favorites {

  /**
   * A recipe snapshot as the recipe API returns it. Only `idMeal` takes part in
   * the store's logic; the other fields of the record (name, category, area,
   * thumbnail, instructions, ingredients and measures) are carried along as an
   * opaque field map.
   */
  datatype Recipe = Recipe(idMeal: string, fields: map<string, string>)

  /** No two snapshots in the list share an `idMeal`. */
  predicate UniqueIds(favs: seq<Recipe>)
  {
    forall i, j :: 0 <= i < j < |favs| ==> favs[i].idMeal != favs[j].idMeal
  }

  /** `favs.some(item => item.idMeal === id)`, scanned from the front. */
  function IsFav(favs: seq<Recipe>, id: string): (b: bool)
    ensures b <==> exists i :: 0 <= i < |favs| && favs[i].idMeal == id
  {
    if favs == [] then false
    else if favs[0].idMeal == id then true
    else
      var rest := IsFav(favs[1..], id);
      assert forall i :: 0 <= i < |favs| - 1 ==> favs[1..][i] == favs[i + 1];
      rest
  }

  /** `favs.filter(item => item.idMeal !== id)`. */
  function RemoveId(favs: seq<Recipe>, id: string): (out: seq<Recipe>)
    ensures |out| <= |favs|
    ensures IsFav(favs, id) ==> |out| < |favs|
  {
    if favs == [] then []
    else if favs[0].idMeal == id then RemoveId(favs[1..], id)
    else [favs[0]] + RemoveId(favs[1..], id)
  }

  /**
   * `out` is the subsequence of `favs` picked, in increasing order, by the
   * positions `idx`, and those positions are exactly the ones whose `idMeal`
   * differs from `id`.
   */
  ghost predicate SelectedBy(out: seq<Recipe>, favs: seq<Recipe>, id: string, idx: seq<nat>)
  {
    && |idx| == |out|
    && (forall k :: 0 <= k < |idx| ==> idx[k] < |favs| && out[k] == favs[idx[k]])
    && (forall k, l :: 0 <= k < l < |idx| ==> idx[k] < idx[l])
    && (forall j :: 0 <= j < |favs| ==> (j in idx <==> favs[j].idMeal != id))
  }

  /**
   * The toggle of `toggleFavorite`: drop every snapshot with the recipe's id,
   * or append the recipe. Either way the recipe's id changes membership.
   */
  function Toggle(favs: seq<Recipe>, recipe: Recipe): (t: seq<Recipe>)
    ensures IsFav(t, recipe.idMeal) == !IsFav(favs, recipe.idMeal)
  {
    if IsFav(favs, recipe.idMeal) then
      RemoveIdMembers(favs, recipe.idMeal);
      RemoveId(favs, recipe.idMeal)
    else
      assert (favs + [recipe])[|favs|] == recipe;
      favs + [recipe]
  }

  /**
   * Toggles the recipes one after the other, as successive taps do. An id
   * that none of the tapped recipes carries keeps its membership.
   */
  function ToggleAll(favs: seq<Recipe>, recipes: seq<Recipe>): (r: seq<Recipe>)
    ensures forall id :: (forall k :: 0 <= k < |recipes| ==> recipes[k].idMeal != id) ==>
      IsFav(r, id) == IsFav(favs, id)
    decreases |recipes|
  {
    if recipes == [] then favs
    else
      ToggleKeepsOtherIds(favs, recipes[0]);
      assert forall k :: 0 <= k < |recipes| - 1 ==> recipes[1..][k] == recipes[k + 1];
      ToggleAll(Toggle(favs, recipes[0]), recipes[1..])
  }

  /** Every position moved one place to the right. */
  function Shift(idx: seq<nat>): (r: seq<nat>)
    ensures |r| == |idx|
    ensures forall k :: 0 <= k < |idx| ==> r[k] == idx[k] + 1
  {
    seq(|idx|, k requires 0 <= k < |idx| => idx[k] + 1)
  }

  /** A position is in the shifted positions exactly when its predecessor was in the original ones. */
  lemma ShiftIn(idx: seq<nat>, j: nat)
    ensures j in Shift(idx) <==> j >= 1 && j - 1 in idx
  {
    var r := Shift(idx);
    if j in r {
      var k :| 0 <= k < |r| && r[k] == j;
      assert idx[k] == j - 1;
    }
    if j >= 1 && j - 1 in idx {
      var k :| 0 <= k < |idx| && idx[k] == j - 1;
      assert r[k] == j;
    }
  }

  /** Skipping a head with the filtered id: the tail's positions, shifted, select the whole list. */
  lemma SelectedBySkip(favs: seq<Recipe>, id: string, out: seq<Recipe>, rest: seq<nat>)
    requires favs != [] && favs[0].idMeal == id && SelectedBy(out, favs[1..], id, rest)
    ensures SelectedBy(out, favs, id, Shift(rest))
  {
    var idx := Shift(rest);
    forall k | 0 <= k < |idx|
      ensures idx[k] < |favs| && out[k] == favs[idx[k]]
    {
      assert out[k] == favs[1..][rest[k]];
    }
    forall j | 0 <= j < |favs|
      ensures j in idx <==> favs[j].idMeal != id
    {
      ShiftIn(rest, j);
      if j > 0 {
        assert favs[1..][j - 1] == favs[j];
      }
    }
  }

  /** Keeping a head with another id: position 0 followed by the tail's positions, shifted. */
  lemma SelectedByKeep(favs: seq<Recipe>, id: string, out: seq<Recipe>, rest: seq<nat>)
    requires favs != [] && favs[0].idMeal != id && SelectedBy(out, favs[1..], id, rest)
    ensures SelectedBy([favs[0]] + out, favs, id, [0] + Shift(rest))
  {
    var shifted := Shift(rest);
    var idx := [0] + shifted;
    var out' := [favs[0]] + out;
    forall k | 0 <= k < |idx|
      ensures idx[k] < |favs| && out'[k] == favs[idx[k]]
    {
      if k > 0 {
        assert idx[k] == rest[k - 1] + 1;
        assert out'[k] == out[k - 1] == favs[1..][rest[k - 1]];
      }
    }
    forall k, l | 0 <= k < l < |idx|
      ensures idx[k] < idx[l]
    {
      assert idx[l] == rest[l - 1] + 1;
      if k > 0 {
        assert idx[k] == rest[k - 1] + 1;
      }
    }
    forall j | 0 <= j < |favs|
      ensures j in idx <==> favs[j].idMeal != id
    {
      ShiftIn(rest, j);
      if j > 0 {
        assert favs[1..][j - 1] == favs[j];
        assert j in idx <==> j in shifted;
      }
    }
  }

  /** The filter keeps exactly the snapshots with another id, in their original order. */
  lemma {:induction false} RemoveIdSelects(favs: seq<Recipe>, id: string) returns (idx: seq<nat>)
    ensures SelectedBy(RemoveId(favs, id), favs, id, idx)
  {
    if favs == [] {
      idx := [];
    } else {
      var rest := RemoveIdSelects(favs[1..], id);
      if favs[0].idMeal == id {
        SelectedBySkip(favs, id, RemoveId(favs[1..], id), rest);
        idx := Shift(rest);
      } else {
        SelectedByKeep(favs, id, RemoveId(favs[1..], id), rest);
        idx := [0] + Shift(rest);
      }
    }
  }

  /** Filtering out an id that no snapshot has leaves the list as it is. */
  lemma {:induction false} RemoveIdAbsent(favs: seq<Recipe>, id: string)
    requires !IsFav(favs, id)
    ensures RemoveId(favs, id) == favs
  {
    if favs != [] {
      RemoveIdAbsent(favs[1..], id);
    }
  }

  /** The filter distributes over concatenation. */
  lemma {:induction false} RemoveIdAppend(a: seq<Recipe>, b: seq<Recipe>, id: string)
    ensures RemoveId(a + b, id) == RemoveId(a, id) + RemoveId(b, id)
  {
    if a != [] {
      assert (a + b)[1..] == a[1..] + b;
      RemoveIdAppend(a[1..], b, id);
    } else {
      assert a + b == b;
    }
  }

  /** Filtering keeps the ids unique. */
  lemma RemoveIdKeepsUnique(favs: seq<Recipe>, id: string)
    requires UniqueIds(favs)
    ensures UniqueIds(RemoveId(favs, id))
  {
    var idx := RemoveIdSelects(favs, id);
  }

  /** The filter keeps exactly the snapshots of the list whose id differs. */
  lemma RemoveIdMembers(favs: seq<Recipe>, id: string)
    ensures forall x :: x in RemoveId(favs, id) <==> x in favs && x.idMeal != id
  {
    var out := RemoveId(favs, id);
    var idx := RemoveIdSelects(favs, id);
    forall x ensures x in out <==> x in favs && x.idMeal != id {
      if x in out {
        var k :| 0 <= k < |out| && out[k] == x;
        assert favs[idx[k]] == x;
      }
      if x in favs && x.idMeal != id {
        var j :| 0 <= j < |favs| && favs[j] == x;
        assert j in idx;
        var k :| 0 <= k < |idx| && idx[k] == j;
        assert out[k] == x;
      }
    }
  }

  /** Filtering out one id changes the membership of no other id. */
  lemma RemoveIdOtherIds(favs: seq<Recipe>, id: string, other: string)
    requires other != id
    ensures IsFav(RemoveId(favs, id), other) == IsFav(favs, other)
  {
    var out := RemoveId(favs, id);
    RemoveIdMembers(favs, id);
    if IsFav(favs, other) {
      var i :| 0 <= i < |favs| && favs[i].idMeal == other;
      assert favs[i] in out;
    }
    if IsFav(out, other) {
      var i :| 0 <= i < |out| && out[i].idMeal == other;
      assert out[i] in favs;
    }
  }

  /** Toggling an absent id appends the recipe as the last element and keeps the others in order. */
  lemma ToggleAppendsWhenAbsent(favs: seq<Recipe>, recipe: Recipe)
    requires !IsFav(favs, recipe.idMeal)
    ensures var t := Toggle(favs, recipe);
      |t| == |favs| + 1 && t[..|favs|] == favs && t[|favs|] == recipe
  {
  }

  /**
   * Toggling a present id removes every snapshot with that id, not just one,
   * and keeps the remaining ones in their original relative order.
   */
  lemma ToggleRemovesAllWhenPresent(favs: seq<Recipe>, recipe: Recipe) returns (idx: seq<nat>)
    requires IsFav(favs, recipe.idMeal)
    ensures var t := Toggle(favs, recipe);
      && |t| < |favs|
      && !IsFav(t, recipe.idMeal)
      && SelectedBy(t, favs, recipe.idMeal, idx)
  {
    idx := RemoveIdSelects(favs, recipe.idMeal);
  }

  /** A toggle flips the membership of the recipe's id and of no other id. */
  lemma ToggleFlipsMembership(favs: seq<Recipe>, recipe: Recipe, id: string)
    ensures IsFav(Toggle(favs, recipe), id)
         == if id == recipe.idMeal then !IsFav(favs, id) else IsFav(favs, id)
  {
    var t := Toggle(favs, recipe);
    if IsFav(favs, recipe.idMeal) {
      if id != recipe.idMeal {
        RemoveIdOtherIds(favs, recipe.idMeal, id);
      } else {
        RemoveIdMembers(favs, id);
      }
    } else {
      assert t[|favs|] == recipe;
      if IsFav(t, id) && id != recipe.idMeal {
        var i :| 0 <= i < |t| && t[i].idMeal == id;
        assert favs[i] == t[i];
      }
      if IsFav(favs, id) {
        var i :| 0 <= i < |favs| && favs[i].idMeal == id;
        assert t[i] == favs[i];
      }
    }
  }

  /** A toggle leaves the membership of every id but the recipe's as it was. */
  lemma ToggleKeepsOtherIds(favs: seq<Recipe>, recipe: Recipe)
    ensures forall id :: id != recipe.idMeal ==> IsFav(Toggle(favs, recipe), id) == IsFav(favs, id)
  {
    forall id | id != recipe.idMeal
      ensures IsFav(Toggle(favs, recipe), id) == IsFav(favs, id)
    {
      ToggleFlipsMembership(favs, recipe, id);
    }
  }

  /** A toggle keeps the ids unique. */
  lemma ToggleKeepsUnique(favs: seq<Recipe>, recipe: Recipe)
    requires UniqueIds(favs)
    ensures UniqueIds(Toggle(favs, recipe))
  {
    if IsFav(favs, recipe.idMeal) {
      RemoveIdKeepsUnique(favs, recipe.idMeal);
    }
  }

  /** Any run of toggles keeps the ids unique. */
  lemma {:induction false} ToggleAllKeepsUnique(favs: seq<Recipe>, recipes: seq<Recipe>)
    requires UniqueIds(favs)
    ensures UniqueIds(ToggleAll(favs, recipes))
    decreases |recipes|
  {
    if recipes != [] {
      ToggleKeepsUnique(favs, recipes[0]);
      ToggleAllKeepsUnique(Toggle(favs, recipes[0]), recipes[1..]);
    }
  }

  /** Starting from the empty list, no run of toggles ever produces a duplicate id. */
  lemma TogglesFromEmptyAreUnique(recipes: seq<Recipe>)
    ensures UniqueIds(ToggleAll([], recipes))
  {
    ToggleAllKeepsUnique([], recipes);
  }

  /** Toggling an absent recipe twice restores the original list exactly. */
  lemma ToggleTwiceFromAbsent(favs: seq<Recipe>, recipe: Recipe)
    requires !IsFav(favs, recipe.idMeal)
    ensures Toggle(Toggle(favs, recipe), recipe) == favs
  {
    var id := recipe.idMeal;
    assert (favs + [recipe])[|favs|] == recipe;
    RemoveIdAppend(favs, [recipe], id);
    RemoveIdAbsent(favs, id);
    assert [recipe][1..] == [];
  }

  /**
   * Toggling a present recipe twice restores only membership: the snapshots
   * with its id are gone and the given recipe now sits last.
   */
  lemma ToggleTwiceFromPresent(favs: seq<Recipe>, recipe: Recipe)
    requires IsFav(favs, recipe.idMeal)
    ensures var t2 := Toggle(Toggle(favs, recipe), recipe);
      && t2 == RemoveId(favs, recipe.idMeal) + [recipe]
      && t2[|t2| - 1] == recipe
      && forall id :: IsFav(t2, id) == IsFav(favs, id)
  {
    var t := Toggle(favs, recipe);
    ToggleFlipsMembership(favs, recipe, recipe.idMeal);
    forall id ensures IsFav(Toggle(t, recipe), id) == IsFav(favs, id) {
      ToggleFlipsMembership(favs, recipe, id);
      ToggleFlipsMembership(t, recipe, id);
    }
  }

  /**
   * In a list of two or more snapshots with unique ids, toggling the first
   * one twice moves it to the end, so the list does not come back.
   */
  lemma ToggleTwiceRotatesFirst(favs: seq<Recipe>)
    requires |favs| >= 2 && UniqueIds(favs)
    ensures Toggle(Toggle(favs, favs[0]), favs[0]) == favs[1..] + [favs[0]]
    ensures Toggle(Toggle(favs, favs[0]), favs[0]) != favs
  {
    var id := favs[0].idMeal;
    RemoveIdAbsent(favs[1..], id);
    assert RemoveId(favs, id) == favs[1..];
    assert !IsFav(favs[1..], id);
    assert (favs[1..] + [favs[0]])[0] == favs[1];
  }

  /**
   * Even with unique ids, toggling a present recipe twice need not give back
   * the same list: it moves the recipe to the end.
   */
  lemma ToggleTwiceReorders()
    ensures var a := Recipe("52772", map["strMeal" := "Teriyaki Chicken"]);
      var b := Recipe("52977", map["strMeal" := "Corba"]);
      && UniqueIds([a, b])
      && Toggle(Toggle([a, b], a), a) == [b, a]
      && [b, a] != [a, b]
  {
    var a := Recipe("52772", map["strMeal" := "Teriyaki Chicken"]);
    var b := Recipe("52977", map["strMeal" := "Corba"]);
    assert IsFav([a, b], a.idMeal);
    assert [a, b][1..] == [b];
    assert RemoveId([a, b], a.idMeal) == [b];
    assert !IsFav([b], a.idMeal);
  }

  /** Favoriting one recipe from the empty list: it is then the only favorite. */
  lemma ScenarioFavoriteOne()
    ensures var a := Recipe("52772", map["strMeal" := "Teriyaki Chicken"]);
      && !IsFav([], "52772")
      && IsFav(Toggle([], a), "52772")
      && |Toggle([], a)| == 1
  {
  }

  /** Favoriting two recipes and toggling the first again leaves only the second. */
  lemma ScenarioUnfavoriteFirst()
    ensures var a := Recipe("52772", map["strMeal" := "Teriyaki Chicken"]);
      var b := Recipe("52977", map["strMeal" := "Corba"]);
      ToggleAll([], [a, b, a]) == [b]
  {
    var a := Recipe("52772", map["strMeal" := "Teriyaki Chicken"]);
    var b := Recipe("52977", map["strMeal" := "Corba"]);
    assert Toggle([], a) == [a];
    assert !IsFav([a], b.idMeal);
    assert Toggle([a], b) == [a, b];
    assert [a, b][1..] == [b];
    assert RemoveId([a, b], a.idMeal) == [b];
    assert [a, b, a][1..] == [b, a];
    assert [b, a][1..] == [a];
    assert ToggleAll([b], []) == [b];
    assert ToggleAll([a, b], [a]) == [b];
    assert ToggleAll([a], [b, a]) == [b];
  }
}
