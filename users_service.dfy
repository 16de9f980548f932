/** The user service: a user's public profile with the recipes the viewer
    may see. */
module UsersService {
  import opened Common
  import opened Store

  /** The user columns the profile selects: no email, no password hash. */
  datatype ProfileUser = ProfileUser(id: Id, displayName: string, createdAt: int)

  /** The recipe columns the profile selects. */
  datatype ProfileRecipe = ProfileRecipe(
    id: Id,
    title: string,
    description: Option<string>,
    imagePath: Option<string>,
    isPublic: Option<bool>,
    ownerId: Option<Id>,
    ownerName: Option<string>,
    updatedAt: int)

  datatype Profile = Profile(user: ProfileUser, recipes: seq<ProfileRecipe>)

  function ProfileRow(r: Recipe): ProfileRecipe {
    ProfileRecipe(r.id, r.title, r.description, r.imagePath, r.isPublic, r.ownerId, r.ownerName, r.updatedAt)
  }

  /** The query's condition: the target's recipes, and only the public ones
      unless the viewer is the target. */
  predicate Shown(r: Recipe, targetId: Id, viewerId: Option<Id>) {
    if viewerId == Some(targetId) then r.ownerId == Some(targetId)
    else r.ownerId == Some(targetId) && r.isPublic == Some(true)
  }

  /** The recipes the profile lists, newest update first. */
  function ProfileRecipes(recipes: seq<Recipe>, targetId: Id, viewerId: Option<Id>): (rows: seq<Recipe>)
    ensures forall r :: r in rows <==> r in recipes && Shown(r, targetId, viewerId)
    ensures forall r :: multiset(rows)[r] == if Shown(r, targetId, viewerId) then multiset(recipes)[r] else 0
    ensures NewestFirst(rows, (r: Recipe) => r.updatedAt)
  {
    var rows := SortNewestFirst(Filter(recipes, (r: Recipe) => Shown(r, targetId, viewerId)), (r: Recipe) => r.updatedAt);
    FilterCounts(recipes, (r: Recipe) => Shown(r, targetId, viewerId));
    forall r ensures r in rows <==> r in recipes && Shown(r, targetId, viewerId) {
      SortedMembers(Filter(recipes, (r: Recipe) => Shown(r, targetId, viewerId)), (r: Recipe) => r.updatedAt, r);
    }
    rows
  }

  class UsersService {
    const db: Db

    constructor(db: Db)
      ensures this.db == db
    {
      this.db := db;
    }

    /** `getProfile(targetId, viewerId)`: not found for an unknown user;
        otherwise the user's id, name and creation time with the listed
        recipes. */
    function GetProfile(targetId: Id, viewerId: Option<Id>): (r: Result<Profile>)
      reads db
      ensures r.Err? <==> FindUser(db.users, targetId).None?
      ensures r.Err? ==> r.error == NotFound("User not found")
      ensures r.Ok? ==>
        && r.value.user.id == targetId
        && r.value.user.displayName == FindUser(db.users, targetId).value.displayName
        && r.value.user.createdAt == FindUser(db.users, targetId).value.createdAt
        && |r.value.recipes| == |ProfileRecipes(db.recipes, targetId, viewerId)|
        && forall i :: 0 <= i < |r.value.recipes| ==>
             r.value.recipes[i] == ProfileRow(ProfileRecipes(db.recipes, targetId, viewerId)[i])
    {
      match FindUser(db.users, targetId)
      case None => Err(NotFound("User not found"))
      case Some(u) =>
        Ok(Profile(ProfileUser(u.id, u.displayName, u.createdAt),
                   Map(ProfileRecipes(db.recipes, targetId, viewerId), ProfileRow)))
    }
  }

  /** Viewing one's own profile lists every recipe one owns, private or not. */
  lemma OwnProfileListsAll(recipes: seq<Recipe>, targetId: Id, r: Recipe)
    requires r in recipes && r.ownerId == Some(targetId)
    ensures r in ProfileRecipes(recipes, targetId, Some(targetId))
  {
  }

  /** Anyone else, signed in or not, is listed the public ones only. */
  lemma OthersSeePublic(recipes: seq<Recipe>, targetId: Id, viewerId: Option<Id>, r: Recipe)
    requires viewerId != Some(targetId)
    ensures r in ProfileRecipes(recipes, targetId, viewerId) <==>
      r in recipes && r.ownerId == Some(targetId) && r.isPublic == Some(true)
  {
  }

  /** Every listed recipe belongs to the target, whoever views. */
  lemma ProfileOwnedByTarget(recipes: seq<Recipe>, targetId: Id, viewerId: Option<Id>, r: Recipe)
    requires r in ProfileRecipes(recipes, targetId, viewerId)
    ensures r.ownerId == Some(targetId) && VisibleTo(r, viewerId)
  {
  }
}
