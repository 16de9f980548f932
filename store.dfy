/** The database behind the API: the recipe, favorite and user tables as
    the services read and write them, with the queries they use (look a row
    up by key, keep the rows a condition holds for, order by a timestamp). */
module Store {
  import opened Common

  /** A row of the recipe table. Columns the services may leave unset are
      optional; `None` is SQL `NULL`. */
  datatype Recipe = Recipe(
    id: Id,
    title: string,
    description: Option<string>,
    ingredients: Option<seq<string>>,
    steps: Option<seq<string>>,
    tags: Option<seq<string>>,
    imagePath: Option<string>,
    sourceUrl: Option<string>,
    servings: Option<int>,
    prepMinutes: Option<int>,
    cookMinutes: Option<int>,
    isPublic: Option<bool>,
    ownerId: Option<Id>,
    ownerName: Option<string>,
    version: int,
    createdAt: int,
    updatedAt: int)

  /** A row of the user table. */
  datatype User = User(id: Id, email: string, passwordHash: string, displayName: string, createdAt: int)

  /** A row of the favorite table, keyed by the pair of its user and recipe. */
  datatype Favorite = Favorite(userId: Id, recipeId: Id, createdAt: int)

  /** The visibility rule shared by the services: a recipe is visible to a
      viewer when it is public or the viewer owns it. An anonymous viewer
      owns nothing, and a `NULL` visibility counts as private. */
  predicate VisibleTo(r: Recipe, viewerId: Option<Id>) {
    r.isPublic == Some(true) || (viewerId.Some? && r.ownerId == viewerId)
  }

  predicate UniqueRecipeIds(rows: seq<Recipe>) {
    forall i, j :: 0 <= i < j < |rows| ==> rows[i].id != rows[j].id
  }

  predicate UniquePairs(rows: seq<Favorite>) {
    forall i, j :: 0 <= i < j < |rows| ==>
      rows[i].userId != rows[j].userId || rows[i].recipeId != rows[j].recipeId
  }

  predicate UniqueUsers(rows: seq<User>) {
    forall i, j :: 0 <= i < j < |rows| ==> rows[i].id != rows[j].id && rows[i].email != rows[j].email
  }

  /** `findUnique` on one column of a table: the first row whose `key` is
      `k`, if there is one. */
  function FindBy<T, K(==)>(rows: seq<T>, key: T -> K, k: K): (r: Option<T>)
    ensures r.Some? ==> r.value in rows && key(r.value) == k
    ensures r.None? ==> forall i :: 0 <= i < |rows| ==> key(rows[i]) != k
  {
    if rows == [] then None else if key(rows[0]) == k then Some(rows[0]) else FindBy(rows[1..], key, k)
  }

  /** `findUnique({ where: { id } })` on the recipe table. */
  function FindRecipe(rows: seq<Recipe>, id: Id): (r: Option<Recipe>)
    ensures r.Some? ==> r.value in rows && r.value.id == id
    ensures r.None? ==> forall i :: 0 <= i < |rows| ==> rows[i].id != id
  {
    FindBy(rows, (x: Recipe) => x.id, id)
  }

  /** With unique ids, the row found is the one row with that id. */
  lemma FindRecipeUnique(rows: seq<Recipe>, i: nat)
    requires UniqueRecipeIds(rows) && i < |rows|
    ensures FindRecipe(rows, rows[i].id) == Some(rows[i])
  {
    if i > 0 {
      assert rows[0].id != rows[i].id;
      FindRecipeUnique(rows[1..], i - 1);
    }
  }

  /** `findUnique({ where: { id } })` on the user table. */
  function FindUser(rows: seq<User>, id: Id): (r: Option<User>)
    ensures r.Some? ==> r.value in rows && r.value.id == id
    ensures r.None? ==> forall i :: 0 <= i < |rows| ==> rows[i].id != id
  {
    FindBy(rows, (x: User) => x.id, id)
  }

  /** `findUnique({ where: { email } })` on the user table. */
  function FindEmail(rows: seq<User>, email: string): (r: Option<User>)
    ensures r.Some? ==> r.value in rows && r.value.email == email
    ensures r.None? ==> forall i :: 0 <= i < |rows| ==> rows[i].email != email
  {
    FindBy(rows, (x: User) => x.email, email)
  }

  /** Whether the favorite table holds the row for this pair. */
  predicate HasFavorite(rows: seq<Favorite>, userId: Id, recipeId: Id) {
    exists i :: 0 <= i < |rows| && rows[i].userId == userId && rows[i].recipeId == recipeId
  }

  /** The batch favorite lookup (`findMany` with `recipeId: { in: ids }`,
      collected into a `Set`): of `ids`, those the user has favorited. */
  function FavoritedAmong(favorites: seq<Favorite>, userId: Id, ids: seq<Id>): (s: set<Id>)
    ensures forall id :: id in s <==> id in ids && HasFavorite(favorites, userId, id)
  {
    set f | f in favorites && f.userId == userId && f.recipeId in ids :: f.recipeId
  }

  /** The rows a condition holds for, in table order, and no other row. */
  function Filter<T(!new)>(s: seq<T>, keep: T -> bool): (r: seq<T>)
    ensures |r| <= |s|
    ensures forall x :: x in r <==> x in s && keep(x)
    ensures forall i :: 0 <= i < |r| ==> keep(r[i])
  {
    if s == [] then []
    else if keep(s[0]) then [s[0]] + Filter(s[1..], keep) else Filter(s[1..], keep)
  }

  /** `Filter` keeps each row the condition holds for as many times as the
      table has it, and drops every other row. */
  lemma {:induction false} FilterCounts<T(!new)>(s: seq<T>, keep: T -> bool)
    ensures forall x :: multiset(Filter(s, keep))[x] == if keep(x) then multiset(s)[x] else 0
  {
    if s != [] {
      FilterCounts(s[1..], keep);
      assert s == [s[0]] + s[1..];
    }
  }

  /** Ordered by `key`, largest first (`orderBy: { key: 'desc' }`). */
  predicate NewestFirst<T>(s: seq<T>, key: T -> int) {
    forall i, j :: 0 <= i < j < |s| ==> key(s[j]) <= key(s[i])
  }

  /** `x` placed into an ordered sequence ahead of the first element it is
      not older than. */
  function Insert<T>(x: T, s: seq<T>, key: T -> int): (r: seq<T>)
    requires NewestFirst(s, key)
    ensures NewestFirst(r, key)
    ensures multiset(r) == multiset(s) + multiset{x}
    ensures forall k :: 0 <= k < |r| ==> r[k] == x || r[k] in s
    decreases |s|, 1
  {
    if s == [] || key(s[0]) <= key(x) then
      [x] + s
    else
      InsertBehind(x, s, key);
      [s[0]] + Insert(x, s[1..], key)
  }

  /** An element older than the head goes behind it. */
  lemma InsertBehind<T>(x: T, s: seq<T>, key: T -> int)
    requires NewestFirst(s, key) && s != [] && key(x) < key(s[0])
    ensures NewestFirst([s[0]] + Insert(x, s[1..], key), key)
    ensures multiset([s[0]] + Insert(x, s[1..], key)) == multiset(s) + multiset{x}
    decreases |s|, 0
  {
    var t := Insert(x, s[1..], key);
    assert multiset(s) == multiset{s[0]} + multiset(s[1..]) by {
      assert s == [s[0]] + s[1..];
    }
    forall k | 0 <= k < |t| ensures key(t[k]) <= key(s[0]) {
      if t[k] != x {
        HeadIsNewest(s, key, t[k]);
      }
    }
  }

  lemma HeadIsNewest<T>(s: seq<T>, key: T -> int, y: T)
    requires NewestFirst(s, key) && y in s
    ensures key(y) <= key(s[0])
  {
    var j :| 0 <= j < |s| && s[j] == y;
  }

  /** A row of a newest-first list is in its first `k` rows, or is no newer
      than any of them. */
  lemma PrefixOfSorted<T>(s: seq<T>, key: T -> int, k: nat, y: T)
    requires NewestFirst(s, key) && y in s && k <= |s|
    ensures y in s[..k] || forall i :: 0 <= i < k ==> key(y) <= key(s[i])
  {
    var j :| 0 <= j < |s| && s[j] == y;
    if j < k {
      assert s[..k][j] == y;
    }
  }

  /** The rows ordered by `key`, largest first. Rows with equal keys may come
      in any order; the model fixes one. */
  function SortNewestFirst<T>(s: seq<T>, key: T -> int): (r: seq<T>)
    ensures NewestFirst(r, key)
    ensures multiset(r) == multiset(s)
    ensures |r| == |s|
  {
    if s == [] then []
    else
      assert s == [s[0]] + s[1..];
      Insert(s[0], SortNewestFirst(s[1..], key), key)
  }

  /** The elements of a sorted sequence are those of its input. */
  lemma SortedMembers<T>(s: seq<T>, key: T -> int, x: T)
    ensures x in SortNewestFirst(s, key) <==> x in s
  {
    var r := SortNewestFirst(s, key);
    assert x in r <==> x in multiset(r);
    assert x in s <==> x in multiset(s);
  }

  /** Keeping the rows a condition holds for keeps their order. */
  lemma {:induction false} FilterKeepsOrder<T(!new)>(s: seq<T>, keep: T -> bool, key: T -> int)
    requires NewestFirst(s, key)
    ensures NewestFirst(Filter(s, keep), key)
  {
    if s != [] {
      FilterKeepsOrder(s[1..], keep, key);
      var t := Filter(s[1..], keep);
      forall k | 0 <= k < |t| ensures key(t[k]) <= key(s[0]) {
        assert t[k] in s[1..];
      }
    }
  }

  /** Every row of the table is replaced by `f` of it (`Array.map`). */
  function Map<T, U>(s: seq<T>, f: T -> U): (r: seq<U>)
    ensures |r| == |s|
    ensures forall i :: 0 <= i < |s| ==> r[i] == f(s[i])
  {
    seq(|s|, i requires 0 <= i < |s| => f(s[i]))
  }

  /** The table after `update({ where: { id } })`: the row with that id
      becomes `row`, and every other row stays as it was. */
  function Replace(rows: seq<Recipe>, id: Id, row: Recipe): (r: seq<Recipe>)
    ensures |r| == |rows|
    ensures forall i :: 0 <= i < |rows| ==> r[i] == (if rows[i].id == id then row else rows[i])
  {
    Map(rows, (x: Recipe) => if x.id == id then row else x)
  }

  /** The database the services share. */
  class Db {
    var recipes: seq<Recipe>
    var favorites: seq<Favorite>
    var users: seq<User>

    /** The keys of each table are unique. */
    predicate Valid()
      reads this
    {
      UniqueRecipeIds(recipes) && UniquePairs(favorites) && UniqueUsers(users)
    }

    constructor()
      ensures recipes == [] && favorites == [] && users == []
      ensures Valid()
    {
      recipes := [];
      favorites := [];
      users := [];
    }
  }
}
