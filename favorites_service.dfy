/** The favorite service: adding and removing a favorite, listing a user's
    favorites, and the flag lookups the other services use. */
module FavoritesService {
  import opened Common
  import opened Store
  import RecipesService

  /** The recipe columns the favorites listing selects. */
  datatype RecipeSummary = RecipeSummary(
    id: Id,
    title: string,
    description: Option<string>,
    imagePath: Option<string>,
    isPublic: Option<bool>,
    ownerId: Option<Id>,
    ownerName: Option<string>)

  function Summary(r: Recipe): RecipeSummary {
    RecipeSummary(r.id, r.title, r.description, r.imagePath, r.isPublic, r.ownerId, r.ownerName)
  }

  /** The favorite table after `upsert` with an empty update: the row is
      created when it is missing and left as it is otherwise. */
  function Upsert(favs: seq<Favorite>, userId: Id, recipeId: Id, now: int): seq<Favorite> {
    if exists f :: f in favs && f.userId == userId && f.recipeId == recipeId then favs
    else favs + [Favorite(userId, recipeId, now)]
  }

  /** The favorite table after deleting the row of a pair, if there is one. */
  function Delete(favs: seq<Favorite>, userId: Id, recipeId: Id): seq<Favorite> {
    Filter(favs, (f: Favorite) => f.userId != userId || f.recipeId != recipeId)
  }

  /** After an upsert the pair is a favorite, every other pair is as it was,
      and the table still holds one row per pair. */
  lemma UpsertAdds(favs: seq<Favorite>, userId: Id, recipeId: Id, now: int)
    requires UniquePairs(favs)
    ensures HasFavorite(Upsert(favs, userId, recipeId, now), userId, recipeId)
    ensures forall u, r :: (u != userId || r != recipeId) ==>
      (HasFavorite(Upsert(favs, userId, recipeId, now), u, r) <==> HasFavorite(favs, u, r))
    ensures UniquePairs(Upsert(favs, userId, recipeId, now))
  {
    var t := Upsert(favs, userId, recipeId, now);
    if !exists f :: f in favs && f.userId == userId && f.recipeId == recipeId {
      assert t[|favs|] == Favorite(userId, recipeId, now);
      forall u, r | u != userId || r != recipeId
        ensures HasFavorite(t, u, r) <==> HasFavorite(favs, u, r)
      {
        if HasFavorite(t, u, r) {
          var i :| 0 <= i < |t| && t[i].userId == u && t[i].recipeId == r;
          assert i < |favs| && favs[i] == t[i];
        }
        if HasFavorite(favs, u, r) {
          var i :| 0 <= i < |favs| && favs[i].userId == u && favs[i].recipeId == r;
          assert t[i] == favs[i];
        }
      }
      forall i, j | 0 <= i < j < |t|
        ensures t[i].userId != t[j].userId || t[i].recipeId != t[j].recipeId
      {
        if j == |favs| {
          assert t[i] == favs[i] && favs[i] in favs;
        }
      }
    } else {
      var f :| f in favs && f.userId == userId && f.recipeId == recipeId;
      var i :| 0 <= i < |favs| && favs[i] == f;
    }
  }

  /** Adding a favorite twice is adding it once. */
  lemma UpsertIdempotent(favs: seq<Favorite>, userId: Id, recipeId: Id, t1: int, t2: int)
    ensures Upsert(Upsert(favs, userId, recipeId, t1), userId, recipeId, t2) == Upsert(favs, userId, recipeId, t1)
  {
    var t := Upsert(favs, userId, recipeId, t1);
    if !exists f :: f in favs && f.userId == userId && f.recipeId == recipeId {
      assert t[|favs|] in t;
    }
  }

  /** After a delete the pair is no favorite and every other pair is as it
      was; deleting again changes nothing. */
  lemma DeleteRemoves(favs: seq<Favorite>, userId: Id, recipeId: Id)
    ensures !HasFavorite(Delete(favs, userId, recipeId), userId, recipeId)
    ensures forall u, r :: (u != userId || r != recipeId) ==>
      (HasFavorite(Delete(favs, userId, recipeId), u, r) <==> HasFavorite(favs, u, r))
    ensures Delete(Delete(favs, userId, recipeId), userId, recipeId) == Delete(favs, userId, recipeId)
  {
    var t := Delete(favs, userId, recipeId);
    forall u, r | u != userId || r != recipeId
      ensures HasFavorite(t, u, r) <==> HasFavorite(favs, u, r)
    {
      if HasFavorite(t, u, r) {
        var i :| 0 <= i < |t| && t[i].userId == u && t[i].recipeId == r;
        assert t[i] in t;
      }
      if HasFavorite(favs, u, r) {
        var i :| 0 <= i < |favs| && favs[i].userId == u && favs[i].recipeId == r;
        assert favs[i] in t;
      }
    }
    FilterAgain(favs, (f: Favorite) => f.userId != userId || f.recipeId != recipeId);
  }

  lemma {:induction false} FilterAgain<T(!new)>(s: seq<T>, keep: T -> bool)
    ensures Filter(Filter(s, keep), keep) == Filter(s, keep)
  {
    if s != [] {
      FilterAgain(s[1..], keep);
      if keep(s[0]) {
        assert ([s[0]] + Filter(s[1..], keep))[1..] == Filter(s[1..], keep);
      }
    }
  }

  lemma {:induction false} DeleteKeepsPairs(favs: seq<Favorite>, userId: Id, recipeId: Id)
    requires UniquePairs(favs)
    ensures UniquePairs(Delete(favs, userId, recipeId))
  {
    if favs != [] {
      DeleteKeepsPairs(favs[1..], userId, recipeId);
      var t := Delete(favs[1..], userId, recipeId);
      if favs[0].userId != userId || favs[0].recipeId != recipeId {
        assert Delete(favs, userId, recipeId) == [favs[0]] + t;
        forall k | 0 <= k < |t| ensures t[k].userId != favs[0].userId || t[k].recipeId != favs[0].recipeId {
          var j :| 0 <= j < |favs[1..]| && favs[1..][j] == t[k];
          assert favs[j + 1] == t[k];
        }
      } else {
        assert Delete(favs, userId, recipeId) == t;
      }
    }
  }

  /** A favorite together with its recipe. */
  datatype Joined = Joined(fav: Favorite, recipe: Recipe)

  /** The user's favorites whose recipe exists and is visible to the user
      now (`recipe: { OR: [{ isPublic: true }, { ownerId: userId }] }`). */
  function Joins(favs: seq<Favorite>, recipes: seq<Recipe>, userId: Id): (js: seq<Joined>)
    ensures forall j :: j in js <==>
      j.fav in favs && j.fav.userId == userId && FindRecipe(recipes, j.fav.recipeId) == Some(j.recipe)
      && VisibleTo(j.recipe, Some(userId))
    ensures forall j :: multiset(js)[j] ==
              if j.fav.userId == userId && FindRecipe(recipes, j.fav.recipeId) == Some(j.recipe)
                 && VisibleTo(j.recipe, Some(userId))
              then multiset(favs)[j.fav] else 0
  {
    if favs == [] then []
    else
      assert favs == [favs[0]] + favs[1..];
      var f := favs[0];
      var rest := Joins(favs[1..], recipes, userId);
      var found := FindRecipe(recipes, f.recipeId);
      if f.userId == userId && found.Some? && VisibleTo(found.value, Some(userId)) then
        [Joined(f, found.value)] + rest
      else
        rest
  }

  /** The listing's rows: those joins, newest favorite first. */
  function ListedFavorites(favs: seq<Favorite>, recipes: seq<Recipe>, userId: Id): (js: seq<Joined>)
    ensures forall j :: j in js <==>
      j.fav in favs && j.fav.userId == userId && FindRecipe(recipes, j.fav.recipeId) == Some(j.recipe)
      && VisibleTo(j.recipe, Some(userId))
    ensures multiset(js) == multiset(Joins(favs, recipes, userId))
    ensures NewestFirst(js, (j: Joined) => j.fav.createdAt)
  {
    var js := SortNewestFirst(Joins(favs, recipes, userId), (j: Joined) => j.fav.createdAt);
    forall j ensures j in js <==> j in Joins(favs, recipes, userId) {
      SortedMembers(Joins(favs, recipes, userId), (j: Joined) => j.fav.createdAt, j);
    }
    js
  }

  class FavoritesService {
    const db: Db

    constructor(db: Db)
      ensures this.db == db
    {
      this.db := db;
    }

    /** `add(userId, recipeId)`: a missing recipe is not found, a private
        recipe of someone else is forbidden, and in both cases no row is
        written; otherwise the favorite is upserted. */
    method Add(userId: Id, recipeId: Id, now: int) returns (r: Result<bool>)
      requires db.Valid()
      modifies db
      ensures FindRecipe(db.recipes, recipeId).None? ==>
        r == Err(NotFound("Recipe not found")) && db.favorites == old(db.favorites)
      ensures FindRecipe(db.recipes, recipeId).Some? && !VisibleTo(FindRecipe(db.recipes, recipeId).value, Some(userId)) ==>
        && r == Err(Forbidden("Cannot favorite a private recipe you do not own"))
        && db.favorites == old(db.favorites)
      ensures FindRecipe(db.recipes, recipeId).Some? && VisibleTo(FindRecipe(db.recipes, recipeId).value, Some(userId)) ==>
        r == Ok(true) && db.favorites == Upsert(old(db.favorites), userId, recipeId, now)
      ensures db.recipes == old(db.recipes) && db.users == old(db.users)
      ensures db.Valid()
    {
      var recipe := FindRecipe(db.recipes, recipeId);
      if recipe.None? {
        return Err(NotFound("Recipe not found"));
      }
      if recipe.value.isPublic != Some(true) && recipe.value.ownerId != Some(userId) {
        return Err(Forbidden("Cannot favorite a private recipe you do not own"));
      }
      UpsertAdds(db.favorites, userId, recipeId, now);
      db.favorites := Upsert(db.favorites, userId, recipeId, now);
      r := Ok(true);
    }

    /** `remove(userId, recipeId)`: deletes the row if there is one; a
        missing row is no error. */
    method Remove(userId: Id, recipeId: Id) returns (ok: bool)
      requires db.Valid()
      modifies db
      ensures ok
      ensures db.favorites == Delete(old(db.favorites), userId, recipeId)
      ensures db.recipes == old(db.recipes) && db.users == old(db.users)
      ensures db.Valid()
    {
      DeleteKeepsPairs(db.favorites, userId, recipeId);
      db.favorites := Delete(db.favorites, userId, recipeId);
      ok := true;
    }

    /** `listForUser(userId)`. */
    function ListForUser(userId: Id): (items: seq<RecipeSummary>)
      reads db
      ensures |items| == |ListedFavorites(db.favorites, db.recipes, userId)|
      ensures forall i :: 0 <= i < |items| ==>
        items[i] == Summary(ListedFavorites(db.favorites, db.recipes, userId)[i].recipe)
    {
      Map(ListedFavorites(db.favorites, db.recipes, userId), (j: Joined) => Summary(j.recipe))
    }

    /** `setFlags(userId, recipes)`: of the given ids, those the user has
        favorited; nothing for an absent user or an empty list. */
    function SetFlags(userId: Option<Id>, ids: seq<Id>): (s: set<Id>)
      reads db
      ensures forall id :: id in s <==> Truthy(userId) && id in ids && HasFavorite(db.favorites, userId.value, id)
    {
      if !Truthy(userId) || |ids| == 0 then {} else FavoritedAmong(db.favorites, userId.value, ids)
    }

    /** `isFavorited(userId, recipeId)`. */
    function IsFavorited(userId: Option<Id>, recipeId: Id): (b: bool)
      reads db
      ensures b <==> Truthy(userId) && HasFavorite(db.favorites, userId.value, recipeId)
    {
      Truthy(userId) && exists f :: f in db.favorites && f.userId == userId.value && f.recipeId == recipeId
    }
  }

  /** The batch lookup agrees with the single lookup on every id it is asked
      about. */
  lemma FlagsAgree(s: FavoritesService, userId: Option<Id>, ids: seq<Id>, id: Id)
    requires id in ids
    ensures id in s.SetFlags(userId, ids) <==> s.IsFavorited(userId, id)
  {
  }

  /** The flags of the catalogue listing are those `isFavorited` reports for
      the same viewer and recipe. */
  lemma ListFlagsAgree(rs: RecipesService.RecipesService, fs: FavoritesService, viewerId: Option<Id>,
                       q: Option<string>, i: nat)
    requires rs.db == fs.db && i < |rs.List(viewerId, q)|
    ensures rs.List(viewerId, q)[i].isFavorited == fs.IsFavorited(viewerId, rs.List(viewerId, q)[i].id)
  {
  }
}
