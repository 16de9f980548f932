/** The recipe service: the shape a recipe is returned in, the catalogue
    listing with its text filter and favorite flags, reading one recipe,
    and creating, updating and deleting recipes under the ownership rules. */
module RecipesService {
  import opened Common
  import opened Text
  import opened Dto
  import opened Store

  /** A recipe as the API returns it. */
  datatype RecipeView = RecipeView(
    id: Id,
    title: string,
    description: Option<string>,
    ingredients: seq<string>,
    steps: seq<string>,
    tags: seq<string>,
    imagePath: Option<string>,
    sourceUrl: Option<string>,
    servings: Option<int>,
    prepMinutes: Option<int>,
    cookMinutes: Option<int>,
    isPublic: bool,
    ownerId: Option<Id>,
    ownerName: Option<string>,
    version: int,
    createdAt: int,
    updatedAt: int,
    isFavorited: bool,
    canEdit: bool)

  /** `canEdit`: a viewer may edit exactly the recipes they own; an absent
      or empty viewer id edits nothing. */
  predicate CanEdit(r: Recipe, viewerId: Option<Id>) {
    Truthy(viewerId) && r.ownerId == viewerId
  }

  /** `sanitize`: missing lists become empty, a missing visibility becomes
      public, the two flags are added, and every other column is passed on,
      a missing one as `null`. */
  function Sanitize(r: Recipe, viewerId: Option<Id>, isFavorited: bool): (v: RecipeView)
    ensures v.canEdit <==> CanEdit(r, viewerId)
    ensures v.isFavorited == isFavorited
    ensures v.isPublic <==> r.isPublic != Some(false)
    ensures v.id == r.id && v.ownerId == r.ownerId
    ensures v.ingredients == r.ingredients.GetOr([]) && v.steps == r.steps.GetOr([]) && v.tags == r.tags.GetOr([])
    ensures v.title == r.title && v.description == r.description && v.imagePath == r.imagePath
    ensures v.sourceUrl == r.sourceUrl && v.servings == r.servings
    ensures v.prepMinutes == r.prepMinutes && v.cookMinutes == r.cookMinutes && v.ownerName == r.ownerName
    ensures v.version == r.version && v.createdAt == r.createdAt && v.updatedAt == r.updatedAt
  {
    RecipeView(
      r.id, r.title, r.description,
      r.ingredients.GetOr([]), r.steps.GetOr([]), r.tags.GetOr([]),
      r.imagePath, r.sourceUrl, r.servings, r.prepMinutes, r.cookMinutes,
      r.isPublic.GetOr(true), r.ownerId, r.ownerName,
      r.version, r.createdAt, r.updatedAt,
      isFavorited, viewerId.Some? && viewerId.value != "" && viewerId == r.ownerId)
  }

  /** Whether `q && q.trim()` switches the text filter on. */
  predicate Searching(q: Option<string>) {
    q.Some? && Trim(q.value) != ""
  }

  /** The text filter: the untrimmed query occurs, case-sensitively, in the
      title or in a description that is set. */
  predicate Matches(r: Recipe, q: Option<string>) {
    !Searching(q) || Contains(r.title, q.value) || (r.description.Some? && Contains(r.description.value, q.value))
  }

  /** The recipes the listing shows: those matching the filter, newest
      update first, of which those visible to the viewer. */
  function Listed(recipes: seq<Recipe>, viewerId: Option<Id>, q: Option<string>): (rows: seq<Recipe>)
    ensures forall r :: r in rows <==> r in recipes && Matches(r, q) && VisibleTo(r, viewerId)
    ensures forall r :: multiset(rows)[r] == if Matches(r, q) && VisibleTo(r, viewerId) then multiset(recipes)[r] else 0
    ensures NewestFirst(rows, (r: Recipe) => r.updatedAt)
  {
    var all := SortNewestFirst(Filter(recipes, (r: Recipe) => Matches(r, q)), (r: Recipe) => r.updatedAt);
    FilterCounts(recipes, (r: Recipe) => Matches(r, q));
    FilterCounts(all, (r: Recipe) => VisibleTo(r, viewerId));
    FilterKeepsOrder(all, (r: Recipe) => VisibleTo(r, viewerId), (r: Recipe) => r.updatedAt);
    forall r ensures r in all <==> r in recipes && Matches(r, q) {
      SortedMembers(Filter(recipes, (r: Recipe) => Matches(r, q)), (r: Recipe) => r.updatedAt, r);
    }
    Filter(all, (r: Recipe) => VisibleTo(r, viewerId))
  }

  /** The ids among `rows` that the viewer has favorited, from one batch
      lookup, which is skipped for an anonymous viewer or no rows. */
  function FavoriteFlags(favorites: seq<Favorite>, viewerId: Option<Id>, rows: seq<Recipe>): (s: set<Id>)
    ensures forall i :: 0 <= i < |rows| ==>
      (rows[i].id in s <==> Truthy(viewerId) && HasFavorite(favorites, viewerId.value, rows[i].id))
  {
    if Truthy(viewerId) && |rows| > 0 then
      assert forall i :: 0 <= i < |rows| ==> rows[i].id in Ids(rows);
      FavoritedAmong(favorites, viewerId.value, Ids(rows))
    else
      {}
  }

  function Ids(rows: seq<Recipe>): (ids: seq<Id>)
    ensures |ids| == |rows|
    ensures forall i :: 0 <= i < |rows| ==> ids[i] == rows[i].id
  {
    Map(rows, (r: Recipe) => r.id)
  }

  class RecipesService {
    const db: Db

    constructor(db: Db)
      ensures this.db == db
    {
      this.db := db;
    }

    /** `list(viewer, q)`: the listed recipes in order, each flagged as a
        favorite exactly when the viewer has a favorite row for it. */
    function List(viewerId: Option<Id>, q: Option<string>): (items: seq<RecipeView>)
      reads db
      ensures |items| == |Listed(db.recipes, viewerId, q)|
      ensures forall i :: 0 <= i < |items| ==>
        items[i] == Sanitize(Listed(db.recipes, viewerId, q)[i], viewerId,
                             Truthy(viewerId) && HasFavorite(db.favorites, viewerId.value, items[i].id))
    {
      var visible := Listed(db.recipes, viewerId, q);
      var favSet := FavoriteFlags(db.favorites, viewerId, visible);
      Map(visible, (r: Recipe) => Sanitize(r, viewerId, r.id in favSet))
    }

    /** `byId(id, viewer)`. */
    function ById(id: Id, viewerId: Option<Id>): (r: Result<RecipeView>)
      reads db
      ensures r == Err(NotFound("Recipe not found")) <==> FindRecipe(db.recipes, id).None?
      ensures r == Err(Forbidden("You cannot view this recipe")) <==>
        FindRecipe(db.recipes, id).Some? && !VisibleTo(FindRecipe(db.recipes, id).value, viewerId)
      ensures r.Ok? ==> r.value == Sanitize(FindRecipe(db.recipes, id).value, viewerId,
                                            Truthy(viewerId) && HasFavorite(db.favorites, viewerId.value, id))
    {
      match FindRecipe(db.recipes, id)
      case None => Err(NotFound("Recipe not found"))
      case Some(row) =>
        if row.isPublic != Some(true) && !(viewerId.Some? && row.ownerId == viewerId) then
          Err(Forbidden("You cannot view this recipe"))
        else
          var isFav := Truthy(viewerId) && exists f :: f in db.favorites && f.userId == viewerId.value && f.recipeId == id;
          Ok(Sanitize(row, viewerId, isFav))
    }

    /** `create(ownerId, ownerName, dto)`: a new row owned by the caller, with
        the defaults applied; `id` and `now` are the values the database
        assigns. */
    method Create(ownerId: Id, ownerName: string, dto: RecipeInput, id: Id, now: int) returns (v: RecipeView)
      requires db.Valid() && dto.title.Some?
      requires forall i :: 0 <= i < |db.recipes| ==> db.recipes[i].id != id
      modifies db
      ensures db.recipes == old(db.recipes) + [NewRow(ownerId, ownerName, dto, id, now)]
      ensures db.favorites == old(db.favorites) && db.users == old(db.users)
      ensures v == Sanitize(NewRow(ownerId, ownerName, dto, id, now), Some(ownerId), false)
      ensures db.Valid()
    {
      var row := NewRow(ownerId, ownerName, dto, id, now);
      db.recipes := db.recipes + [row];
      v := Sanitize(row, Some(ownerId), false);
    }

    /** `update(id, userId, dto)`: a missing recipe is not found, another
        user's recipe is forbidden, and in both cases nothing changes;
        otherwise the row is patched and its version bumped. */
    method Update(id: Id, userId: Id, dto: RecipeInput, now: int) returns (r: Result<RecipeView>)
      requires db.Valid()
      modifies db
      ensures FindRecipe(old(db.recipes), id).None? ==>
        r == Err(NotFound("Recipe not found")) && db.recipes == old(db.recipes)
      ensures FindRecipe(old(db.recipes), id).Some? && FindRecipe(old(db.recipes), id).value.ownerId != Some(userId) ==>
        r == Err(Forbidden("Not your recipe")) && db.recipes == old(db.recipes)
      ensures FindRecipe(old(db.recipes), id).Some? && FindRecipe(old(db.recipes), id).value.ownerId == Some(userId) ==>
        && db.recipes == Replace(old(db.recipes), id, Patched(FindRecipe(old(db.recipes), id).value, dto, now))
        && r == Ok(Sanitize(Patched(FindRecipe(old(db.recipes), id).value, dto, now), Some(userId),
                            HasFavorite(db.favorites, userId, id)))
      ensures db.favorites == old(db.favorites) && db.users == old(db.users)
      ensures db.Valid()
    {
      var existing := FindRecipe(db.recipes, id);
      if existing.None? {
        return Err(NotFound("Recipe not found"));
      }
      if existing.value.ownerId != Some(userId) {
        return Err(Forbidden("Not your recipe"));
      }
      var updated := Patched(existing.value, dto, now);
      ReplaceKeepsIds(db.recipes, id, updated);
      db.recipes := Replace(db.recipes, id, updated);
      var fav := exists f :: f in db.favorites && f.userId == userId && f.recipeId == id;
      r := Ok(Sanitize(updated, Some(userId), fav));
    }

    /** `remove(id, userId)`: the same checks as `update`; then that one row
        is deleted. */
    method Remove(id: Id, userId: Id) returns (r: Result<bool>)
      requires db.Valid()
      modifies db
      ensures FindRecipe(old(db.recipes), id).None? ==>
        r == Err(NotFound("Recipe not found")) && db.recipes == old(db.recipes)
      ensures FindRecipe(old(db.recipes), id).Some? && FindRecipe(old(db.recipes), id).value.ownerId != Some(userId) ==>
        r == Err(Forbidden("Not your recipe")) && db.recipes == old(db.recipes)
      ensures FindRecipe(old(db.recipes), id).Some? && FindRecipe(old(db.recipes), id).value.ownerId == Some(userId) ==>
        r == Ok(true) && db.recipes == Without(old(db.recipes), id)
      ensures db.favorites == old(db.favorites) && db.users == old(db.users)
      ensures db.Valid()
    {
      var existing := FindRecipe(db.recipes, id);
      if existing.None? {
        return Err(NotFound("Recipe not found"));
      }
      if existing.value.ownerId != Some(userId) {
        return Err(Forbidden("Not your recipe"));
      }
      WithoutKeepsIds(db.recipes, id);
      db.recipes := Without(db.recipes, id);
      r := Ok(true);
    }
  }

  /** The row `create` writes: its owner can see it, its visibility is set,
      and its lists are never `NULL`. */
  function NewRow(ownerId: Id, ownerName: string, dto: RecipeInput, id: Id, now: int): (row: Recipe)
    requires dto.title.Some?
    ensures VisibleTo(row, Some(ownerId))
    ensures row.isPublic.Some? && row.ingredients.Some? && row.steps.Some? && row.tags.Some?
  {
    Recipe(id, dto.title.value, dto.description,
           Some(dto.ingredients.GetOr([])), Some(dto.steps.GetOr([])), Some(dto.tags.GetOr([])),
           dto.imagePath, dto.sourceUrl, dto.servings, dto.prepMinutes, dto.cookMinutes,
           Some(dto.isPublic.GetOr(true)), Some(ownerId), Some(ownerName),
           1, now, now)
  }

  /** What `create` returns: the caller's own recipe, editable by them when
      their id is not empty, not yet a favorite, public unless the body says
      otherwise, and holding every value the body sent. */
  lemma CreatedView(ownerId: Id, ownerName: string, dto: RecipeInput, id: Id, now: int)
    requires dto.title.Some?
    ensures Sanitize(NewRow(ownerId, ownerName, dto, id, now), Some(ownerId), false).canEdit <==> ownerId != ""
    ensures !Sanitize(NewRow(ownerId, ownerName, dto, id, now), Some(ownerId), false).isFavorited
    ensures Sanitize(NewRow(ownerId, ownerName, dto, id, now), Some(ownerId), false).isPublic
            == dto.isPublic.GetOr(true)
    ensures Sanitize(NewRow(ownerId, ownerName, dto, id, now), Some(ownerId), false).ingredients
            == dto.ingredients.GetOr([])
    ensures Sanitize(NewRow(ownerId, ownerName, dto, id, now), Some(ownerId), false).title == dto.title.value
    ensures VisibleTo(NewRow(ownerId, ownerName, dto, id, now), Some(ownerId))
  {
  }

  /** A field of the body that is missing or `null` keeps the stored value
      (`?? undefined`); any other value replaces it. */
  function Keep<T>(sent: Option<T>, stored: T): T {
    if sent.Some? then sent.value else stored
  }

  function KeepOpt<T>(sent: Option<T>, stored: Option<T>): Option<T> {
    if sent.Some? then sent else stored
  }

  /** The row after `update`: every field the body sends replaces the stored
      one, the others stay, the version goes up by one and the update time
      is `now`. */
  function Patched(r: Recipe, dto: RecipeInput, now: int): (p: Recipe)
    ensures p.id == r.id && p.ownerId == r.ownerId && p.ownerName == r.ownerName && p.createdAt == r.createdAt
    ensures p.version == r.version + 1
  {
    r.(title := Keep(dto.title, r.title),
       description := KeepOpt(dto.description, r.description),
       ingredients := KeepOpt(dto.ingredients, r.ingredients),
       steps := KeepOpt(dto.steps, r.steps),
       tags := KeepOpt(dto.tags, r.tags),
       imagePath := KeepOpt(dto.imagePath, r.imagePath),
       sourceUrl := KeepOpt(dto.sourceUrl, r.sourceUrl),
       servings := KeepOpt(dto.servings, r.servings),
       prepMinutes := KeepOpt(dto.prepMinutes, r.prepMinutes),
       cookMinutes := KeepOpt(dto.cookMinutes, r.cookMinutes),
       isPublic := KeepOpt(dto.isPublic, r.isPublic),
       version := r.version + 1,
       updatedAt := now)
  }

  /** A body that sends nothing changes nothing but the version and the
      update time. */
  lemma EmptyPatch(r: Recipe, now: int)
    ensures Patched(r, RecipeInput(None, None, None, None, None, None, None, None, None, None, None), now)
            == r.(version := r.version + 1, updatedAt := now)
  {
  }

  /** A body that sends only a title changes the title, the version and the
      update time, and nothing else. */
  lemma TitleOnly(r: Recipe, title: string, now: int)
    ensures Patched(r, RecipeInput(Some(title), None, None, None, None, None, None, None, None, None, None), now)
            == r.(title := title, version := r.version + 1, updatedAt := now)
  {
  }

  /** Sending the same body twice gives the fields of sending it once; only
      the version counts both. */
  lemma PatchTwice(r: Recipe, dto: RecipeInput, t1: int, t2: int)
    ensures Patched(Patched(r, dto, t1), dto, t2) == Patched(r, dto, t2).(version := r.version + 2)
  {
  }

  /** Over HTTP, where the whitelist strips the body, an update never changes
      a recipe's visibility or source URL. */
  lemma PatchKeepsVisibility(r: Recipe, body: Body, now: int)
    ensures Patched(r, InputOf(Whitelist(body, UpdateKeys)), now).isPublic == r.isPublic
    ensures Patched(r, InputOf(Whitelist(body, UpdateKeys)), now).sourceUrl == r.sourceUrl
  {
    UpdateDropsVisibility(body);
  }

  /** The table after `delete({ where: { id } })`. */
  function Without(rows: seq<Recipe>, id: Id): (r: seq<Recipe>)
    ensures forall x :: x in r <==> x in rows && x.id != id
  {
    Filter(rows, (x: Recipe) => x.id != id)
  }

  lemma ReplaceKeepsIds(rows: seq<Recipe>, id: Id, row: Recipe)
    requires UniqueRecipeIds(rows) && row.id == id
    ensures UniqueRecipeIds(Replace(rows, id, row))
  {
  }

  lemma {:induction false} WithoutKeepsIds(rows: seq<Recipe>, id: Id)
    requires UniqueRecipeIds(rows)
    ensures UniqueRecipeIds(Without(rows, id))
  {
    if rows != [] {
      WithoutKeepsIds(rows[1..], id);
      var t := Without(rows[1..], id);
      WithoutCons(rows, id);
      if rows[0].id != id {
        forall k | 0 <= k < |t| ensures t[k].id != rows[0].id {
          assert t[k] in rows[1..];
          var j :| 0 <= j < |rows[1..]| && rows[1..][j] == t[k];
          assert rows[j + 1] == t[k];
        }
      }
    }
  }

  /** Deleting from a table of at least one row, row by row. */
  lemma WithoutCons(rows: seq<Recipe>, id: Id)
    requires rows != []
    ensures Without(rows, id) == if rows[0].id != id then [rows[0]] + Without(rows[1..], id) else Without(rows[1..], id)
  {
  }

  /** An anonymous visitor is listed the public recipes only. */
  lemma AnonymousSeesPublic(recipes: seq<Recipe>, q: Option<string>, r: Recipe)
    requires r in Listed(recipes, None, q)
    ensures r.isPublic == Some(true)
  {
  }

  /** A private recipe is listed to its owner and to no one else. */
  lemma PrivateListedToOwner(recipes: seq<Recipe>, viewerId: Option<Id>, q: Option<string>, r: Recipe)
    requires r in recipes && Matches(r, q) && r.isPublic != Some(true)
    ensures r in Listed(recipes, viewerId, q) <==> viewerId.Some? && r.ownerId == viewerId
  {
  }

  /** A blank query filters nothing: every visible recipe is listed. */
  lemma BlankQueryListsAll(recipes: seq<Recipe>, viewerId: Option<Id>, q: string, r: Recipe)
    requires Trim(q) == "" && r in recipes && VisibleTo(r, viewerId)
    ensures r in Listed(recipes, viewerId, Some(q))
  {
  }
}
