/** The diagnostic endpoints of the API over the recipe table: a count with
    a small sample of the newest rows, and a seed that puts one recipe into
    an empty table. */
module DbController {
  import opened Common
  import opened Store

  const SeedTitle: string := "Hello, Recipe!"

  /** `take: 5`. */
  const SampleSize: nat := 5

  /** What `list` returns. */
  datatype Listing = Listing(count: nat, sample: seq<Recipe>)

  /** What `seed` returns. */
  datatype SeedReport = SeedReport(ok: bool, countBefore: nat, countAfter: nat)

  function Min(a: nat, b: nat): nat {
    if a <= b then a else b
  }

  /** `findMany({ orderBy: { createdAt: 'desc' }, take: 5 })`. */
  function Sample(recipes: seq<Recipe>): (r: seq<Recipe>)
    ensures |r| == Min(SampleSize, |recipes|)
    ensures NewestFirst(r, (x: Recipe) => x.createdAt)
    ensures multiset(r) <= multiset(recipes)
  {
    var sorted := SortNewestFirst(recipes, (x: Recipe) => x.createdAt);
    var k := Min(SampleSize, |recipes|);
    assert sorted == sorted[..k] + sorted[k..];
    sorted[..k]
  }

  /** The sample is drawn from the table. */
  lemma SampleFromTable(recipes: seq<Recipe>)
    ensures forall i :: 0 <= i < |Sample(recipes)| ==> Sample(recipes)[i] in recipes
  {
    var key := (y: Recipe) => y.createdAt;
    var r := Sample(recipes);
    forall i | 0 <= i < |r| ensures r[i] in recipes {
      assert r[i] == SortNewestFirst(recipes, key)[i];
      SortedMembers(recipes, key, r[i]);
    }
  }

  /** No row left out of the sample is newer than any row in it. */
  lemma SampleIsNewest(recipes: seq<Recipe>, x: Recipe)
    requires x in recipes
    ensures x in Sample(recipes) || forall i :: 0 <= i < |Sample(recipes)| ==> x.createdAt <= Sample(recipes)[i].createdAt
  {
    var key := (y: Recipe) => y.createdAt;
    var sorted := SortNewestFirst(recipes, key);
    SortedMembers(recipes, key, x);
    PrefixOfSorted(sorted, key, Min(SampleSize, |recipes|), x);
  }


  /** The one row `seed` creates: only the title is given, so it has no
      owner, and its visibility is whatever the table's column default,
      `isPublicDefault`, gives. Any viewer's listing shows it exactly when
      that default is public. */
  function SeedRow(id: Id, now: int, isPublicDefault: Option<bool>): (r: Recipe)
    ensures r.id == id && r.title == SeedTitle && r.ownerId.None?
    ensures r.isPublic == isPublicDefault
    ensures forall v :: VisibleTo(r, v) <==> isPublicDefault == Some(true)
  {
    Recipe(id, SeedTitle, None, None, None, None, None, None, None, None, None, isPublicDefault, None, None, 1, now, now)
  }

  /** The table after `seed`: the seed row alone when it was empty, else as
      it was. */
  function Seeded(recipes: seq<Recipe>, id: Id, now: int, isPublicDefault: Option<bool>): seq<Recipe> {
    if |recipes| == 0 then [SeedRow(id, now, isPublicDefault)] else recipes
  }

  class DbController {
    const db: Db

    constructor(db: Db)
      ensures this.db == db
    {
      this.db := db;
    }

    /** `list`: the number of recipes and the newest few. */
    function List(): (r: Listing)
      reads db
      ensures r.count == |db.recipes|
      ensures r.sample == Sample(db.recipes)
    {
      Listing(|db.recipes|, Sample(db.recipes))
    }

    /** `seed`: count, insert the greeting recipe when there is none, count
        again. */
    method Seed(id: Id, now: int, isPublicDefault: Option<bool>) returns (report: SeedReport)
      requires db.Valid()
      modifies db
      ensures db.Valid()
      ensures db.recipes == Seeded(old(db.recipes), id, now, isPublicDefault)
      ensures db.favorites == old(db.favorites) && db.users == old(db.users)
      ensures report == SeedReport(true, |old(db.recipes)|, |db.recipes|)
    {
      var count := |db.recipes|;
      if count == 0 {
        db.recipes := db.recipes + [SeedRow(id, now, isPublicDefault)];
      }
      var newCount := |db.recipes|;
      report := SeedReport(true, count, newCount);
    }
  }

  /** Seeding inserts exactly one recipe, titled "Hello, Recipe!", exactly
      when the table is empty, and otherwise changes nothing. */
  lemma SeedOnlyWhenEmpty(recipes: seq<Recipe>, id: Id, now: int, isPublicDefault: Option<bool>)
    ensures |Seeded(recipes, id, now, isPublicDefault)| == |recipes| + (if |recipes| == 0 then 1 else 0)
    ensures |recipes| == 0 ==> Seeded(recipes, id, now, isPublicDefault)[0].title == SeedTitle
    ensures |recipes| > 0 ==> Seeded(recipes, id, now, isPublicDefault) == recipes
  {
  }

  /** After a seed the table is never empty, and a second seed is a no-op. */
  lemma SeedIdempotent(recipes: seq<Recipe>, id: Id, now: int, id2: Id, later: int,
                       isPublicDefault: Option<bool>, isPublicDefault2: Option<bool>)
    ensures |Seeded(recipes, id, now, isPublicDefault)| >= 1
    ensures Seeded(Seeded(recipes, id, now, isPublicDefault), id2, later, isPublicDefault2) == Seeded(recipes, id, now, isPublicDefault)
  {
  }
}
