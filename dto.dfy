/** The request bodies of `POST /api/recipes` and `PATCH /api/recipes/:id`
    as the validation pipe sees them: a JSON object is first stripped of
    every property the DTO class does not declare (`whitelist: true`), then
    each declared property is checked by its decorators. */
module Dto {
  import opened Common

  /** A JSON value as parsed from a request body. */
  datatype Json =
    | JNull
    | JBool(b: bool)
    | JNum(n: real)
    | JStr(s: string)
    | JArr(items: seq<Json>)
    | JObj(fields: map<string, Json>)

  /** A request body: a JSON object. */
  type Body = map<string, Json>

  /** The properties `CreateRecipeDto` declares. */
  const CreateKeys: set<string> := {"title", "description", "ingredients", "steps", "tags", "servings",
                                    "prepMinutes", "cookMinutes", "imagePath", "sourceUrl", "isPublic"}

  /** The properties `UpdateRecipeDto` declares: no `isPublic`, no `sourceUrl`. */
  const UpdateKeys: set<string> := {"title", "description", "ingredients", "steps", "tags", "servings",
                                    "prepMinutes", "cookMinutes", "imagePath"}

  /** The whitelist step: the properties of `body` that the class declares. */
  function Whitelist(body: Body, keys: set<string>): (r: Body)
    ensures r.Keys == body.Keys * keys
    ensures forall k :: k in r ==> r[k] == body[k]
  {
    map k | k in body && k in keys :: body[k]
  }

  /** `@IsOptional()`: a property that is missing or `null` skips its other checks. */
  predicate Skipped(body: Body, k: string) {
    k !in body || body[k].JNull?
  }

  /** `@IsArray()` with `@IsString({ each: true })`. */
  predicate IsStringArray(j: Json) {
    j.JArr? && forall i :: 0 <= i < |j.items| ==> j.items[i].JStr?
  }

  /** `@IsInt()` with `@Min(least)`. */
  predicate IsIntAtLeast(j: Json, least: int) {
    j.JNum? && j.n.Floor as real == j.n && j.n >= least as real
  }

  /** `@IsString() @MinLength(1)`: a string of at least one character (white
      space counts). */
  predicate IsNonEmptyString(j: Json) {
    j.JStr? && |j.s| >= 1
  }

  /** The checks both DTO classes make on the properties they share. */
  predicate SharedValid(body: Body) {
    && (Skipped(body, "description") || body["description"].JStr?)
    && (Skipped(body, "ingredients") || IsStringArray(body["ingredients"]))
    && (Skipped(body, "steps") || IsStringArray(body["steps"]))
    && (Skipped(body, "tags") || IsStringArray(body["tags"]))
    && (Skipped(body, "servings") || IsIntAtLeast(body["servings"], 1))
    && (Skipped(body, "prepMinutes") || IsIntAtLeast(body["prepMinutes"], 0))
    && (Skipped(body, "cookMinutes") || IsIntAtLeast(body["cookMinutes"], 0))
    && (Skipped(body, "imagePath") || body["imagePath"].JStr?)
  }

  /** `CreateRecipeDto`: a required title, the shared checks, a URL with a
      protocol for `sourceUrl` (`isUrl` is the validator library's check)
      and a boolean for `isPublic`. */
  predicate CreateValid(body: Body, isUrl: string -> bool) {
    && "title" in body && IsNonEmptyString(body["title"])
    && SharedValid(body)
    && (Skipped(body, "sourceUrl") || (body["sourceUrl"].JStr? && isUrl(body["sourceUrl"].s)))
    && (Skipped(body, "isPublic") || body["isPublic"].JBool?)
  }

  /** `UpdateRecipeDto`: every property optional, a present title non-empty. */
  predicate UpdateValid(body: Body) {
    && (Skipped(body, "title") || IsNonEmptyString(body["title"]))
    && SharedValid(body)
  }

  /** A validated body as the service reads it: `None` for a property that is
      missing or `null`, since the service treats both alike (`??`). */
  datatype RecipeInput = RecipeInput(
    title: Option<string>,
    description: Option<string>,
    ingredients: Option<seq<string>>,
    steps: Option<seq<string>>,
    tags: Option<seq<string>>,
    imagePath: Option<string>,
    sourceUrl: Option<string>,
    servings: Option<int>,
    prepMinutes: Option<int>,
    cookMinutes: Option<int>,
    isPublic: Option<bool>)

  function StringOf(body: Body, k: string): Option<string> {
    if k in body && body[k].JStr? then Some(body[k].s) else None
  }

  function Strings(items: seq<Json>): (r: seq<string>)
    ensures |r| == |items|
    ensures forall i :: 0 <= i < |items| && items[i].JStr? ==> r[i] == items[i].s
  {
    if items == [] then [] else [if items[0].JStr? then items[0].s else ""] + Strings(items[1..])
  }

  function StringsOf(body: Body, k: string): Option<seq<string>> {
    if k in body && body[k].JArr? then Some(Strings(body[k].items)) else None
  }

  function IntOf(body: Body, k: string): Option<int> {
    if k in body && body[k].JNum? then Some(body[k].n.Floor) else None
  }

  function BoolOf(body: Body, k: string): Option<bool> {
    if k in body && body[k].JBool? then Some(body[k].b) else None
  }

  /** The DTO instance the pipe hands to the controller. */
  function InputOf(body: Body): RecipeInput {
    RecipeInput(
      StringOf(body, "title"), StringOf(body, "description"),
      StringsOf(body, "ingredients"), StringsOf(body, "steps"), StringsOf(body, "tags"),
      StringOf(body, "imagePath"), StringOf(body, "sourceUrl"),
      IntOf(body, "servings"), IntOf(body, "prepMinutes"), IntOf(body, "cookMinutes"),
      BoolOf(body, "isPublic"))
  }

  /** What a validated create body guarantees the service: a non-empty
      title, servings of at least 1, non-negative minutes, and every
      property that was sent and not `null` arrives. */
  lemma CreateInput(body: Body, isUrl: string -> bool)
    requires CreateValid(Whitelist(body, CreateKeys), isUrl)
    ensures InputOf(Whitelist(body, CreateKeys)).title.Some?
    ensures |InputOf(Whitelist(body, CreateKeys)).title.value| >= 1
    ensures InputOf(Whitelist(body, CreateKeys)).servings.Some? ==>
              InputOf(Whitelist(body, CreateKeys)).servings.value >= 1
    ensures InputOf(Whitelist(body, CreateKeys)).prepMinutes.Some? ==>
              InputOf(Whitelist(body, CreateKeys)).prepMinutes.value >= 0
    ensures InputOf(Whitelist(body, CreateKeys)).cookMinutes.Some? ==>
              InputOf(Whitelist(body, CreateKeys)).cookMinutes.value >= 0
    ensures InputOf(Whitelist(body, CreateKeys)).isPublic.None? <==> Skipped(body, "isPublic")
    ensures InputOf(Whitelist(body, CreateKeys)).sourceUrl.Some? ==>
              isUrl(InputOf(Whitelist(body, CreateKeys)).sourceUrl.value)
  {
    var w := Whitelist(body, CreateKeys);
    assert "isPublic" in w <==> "isPublic" in body;
  }

  /** A `PATCH` body can never carry `isPublic` or `sourceUrl` to the
      service: the whitelist drops them whatever the client sends. */
  lemma UpdateDropsVisibility(body: Body)
    ensures InputOf(Whitelist(body, UpdateKeys)).isPublic.None?
    ensures InputOf(Whitelist(body, UpdateKeys)).sourceUrl.None?
  {
    assert "isPublic" !in Whitelist(body, UpdateKeys);
    assert "sourceUrl" !in Whitelist(body, UpdateKeys);
  }

  /** What a validated update body guarantees the service: a title that is
      sent is non-empty, and the numeric bounds are those of create. */
  lemma UpdateInput(body: Body)
    requires UpdateValid(Whitelist(body, UpdateKeys))
    ensures InputOf(Whitelist(body, UpdateKeys)).title.Some? ==>
              |InputOf(Whitelist(body, UpdateKeys)).title.value| >= 1
    ensures InputOf(Whitelist(body, UpdateKeys)).servings.Some? ==>
              InputOf(Whitelist(body, UpdateKeys)).servings.value >= 1
    ensures InputOf(Whitelist(body, UpdateKeys)).prepMinutes.Some? ==>
              InputOf(Whitelist(body, UpdateKeys)).prepMinutes.value >= 0
    ensures InputOf(Whitelist(body, UpdateKeys)).cookMinutes.Some? ==>
              InputOf(Whitelist(body, UpdateKeys)).cookMinutes.value >= 0
  {
  }

  /** Validation looks only at declared properties, so stripping first
      changes no verdict. */
  lemma WhitelistKeepsVerdict(body: Body, isUrl: string -> bool)
    ensures CreateValid(Whitelist(body, CreateKeys), isUrl) <==> CreateValid(body, isUrl)
    ensures UpdateValid(Whitelist(body, UpdateKeys)) <==> UpdateValid(body)
  {
  }
}
