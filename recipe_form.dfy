/** The recipe form of the web client: the text areas for lines and tags,
    the loading of an existing recipe into the form, the body it submits,
    the size check on a picked image and the state of the submit button. */
module RecipeForm {
  import opened Common
  import opened Text
  import opened Dto

  /** The non-empty pieces, in order (`filter(Boolean)`). */
  function DropEmpty(xs: seq<string>): (r: seq<string>)
    ensures |r| <= |xs|
    ensures forall i :: 0 <= i < |r| ==> r[i] != "" && r[i] in xs
    ensures (forall i :: 0 <= i < |xs| ==> xs[i] != "") ==> r == xs
  {
    if xs == [] then [] else if xs[0] == "" then DropEmpty(xs[1..]) else [xs[0]] + DropEmpty(xs[1..])
  }

  /** Splitting on `c`, trimming, dropping the empty pieces. */
  function Pieces(text: string, c: char): (r: seq<string>)
    ensures forall i :: 0 <= i < |r| ==> r[i] != "" && IsTrimmed(r[i]) && c !in r[i]
  {
    var parts := Split(text, c);
    var trimmed := TrimEach(parts);
    forall i | 0 <= i < |trimmed| ensures c !in trimmed[i] {
      TrimmedWithin(parts[i], c);
    }
    DropEmpty(trimmed)
  }

  /** A trimmed string is a piece of the original, so it holds no character
      the original does not. */
  lemma TrimmedWithin(s: string, c: char)
    requires c !in s
    ensures c !in Trim(s)
  {
    TrimStartSplits(s);
    var t := TrimStart(s);
    assert Trim(s) == t[..|TrimEnd(t)|];
  }

  /** `parseLines`. */
  function ParseLines(text: string): (r: seq<string>)
    ensures forall i :: 0 <= i < |r| ==> r[i] != "" && IsTrimmed(r[i]) && '\n' !in r[i]
  {
    Pieces(text, '\n')
  }

  /** `joinLines`: a missing list is the empty text, and splitting the text
      at newlines gives back lines that hold none. */
  function JoinLines(arr: Option<seq<string>>): (s: string)
    ensures arr.None? ==> s == ""
    ensures arr.Some? && arr.value != [] && (forall i :: 0 <= i < |arr.value| ==> '\n' !in arr.value[i]) ==>
              Split(s, '\n') == arr.value
  {
    var xs := arr.GetOr([]);
    if xs != [] && forall i :: 0 <= i < |xs| ==> '\n' !in xs[i] then
      SplitJoinWith(xs, '\n', "", "\n");
      PrefixNothing(xs[1..]);
      assert [xs[0]] + xs[1..] == xs;
      Join(xs, "\n")
    else
      Join(xs, "\n")
  }

  /** Splitting joined pieces at the first character of the separator. */
  lemma SplitJoinWith(xs: seq<string>, c: char, pad: string, sep: string)
    requires xs != [] && sep == [c] + pad && c !in pad
    requires forall i :: 0 <= i < |xs| ==> c !in xs[i]
    ensures Split(Join(xs, sep), c) == [xs[0]] + PrefixEach(pad, xs[1..])
  {
    SplitJoin("", xs, c, pad);
    assert "" + Join(xs, sep) == Join(xs, sep);
    assert "" + xs[0] == xs[0];
  }

  /** Prefixing nothing leaves every piece as it is. */
  lemma PrefixNothing(xs: seq<string>)
    ensures PrefixEach("", xs) == xs
  {
    forall i | 0 <= i < |xs| ensures PrefixEach("", xs)[i] == xs[i] {
      assert "" + xs[i] == xs[i];
    }
  }

  /** `parseTags`. */
  function ParseTags(text: string): (r: seq<string>)
    ensures forall i :: 0 <= i < |r| ==> r[i] != "" && IsTrimmed(r[i]) && ',' !in r[i]
  {
    Pieces(text, ',')
  }

  /** `joinTags`: a missing list is the empty text, and splitting the text
      at commas gives back tags that hold none, each after the first behind
      one space. */
  function JoinTags(arr: Option<seq<string>>): (s: string)
    ensures arr.None? ==> s == ""
    ensures arr.Some? && arr.value != [] && (forall i :: 0 <= i < |arr.value| ==> ',' !in arr.value[i]) ==>
              Split(s, ',') == [arr.value[0]] + PrefixEach(" ", arr.value[1..])
  {
    var xs := arr.GetOr([]);
    if xs != [] && forall i :: 0 <= i < |xs| ==> ',' !in xs[i] then
      SplitJoinWith(xs, ',', " ", ", ");
      Join(xs, ", ")
    else
      Join(xs, ", ")
  }

  /** Pieces that `Pieces` gives back unchanged: non-empty, trimmed, free of
      the separator. */
  predicate Clean(xs: seq<string>, c: char) {
    forall i :: 0 <= i < |xs| ==> xs[i] != "" && IsTrimmed(xs[i]) && c !in xs[i]
  }

  /** Nothing given, nothing written: both joins give the empty text. */
  lemma JoinNothing()
    ensures JoinLines(None) == "" && JoinTags(None) == ""
  {
  }

  /** Splitting a join with separator `c` and padding `pad` and trimming the
      pieces gives the joined strings back. */
  lemma PiecesOfJoin(xs: seq<string>, c: char, pad: string)
    requires Clean(xs, c) && c !in pad && AllSpaces(pad)
    ensures Pieces(Join(xs, [c] + pad), c) == xs
  {
    if xs == [] {
      assert Split("", c) == [""];
      assert TrimEach([""]) == [""];
    } else {
      var parts := [xs[0]] + PrefixEach(pad, xs[1..]);
      SplitOfJoin(xs, c, pad);
      TrimmedParts(xs, pad);
      assert TrimEach(Split(Join(xs, [c] + pad), c)) == xs;
    }
  }

  lemma SplitOfJoin(xs: seq<string>, c: char, pad: string)
    requires |xs| >= 1 && Clean(xs, c) && c !in pad
    ensures Split(Join(xs, [c] + pad), c) == [xs[0]] + PrefixEach(pad, xs[1..])
  {
    var s := Join(xs, [c] + pad);
    SplitJoin("", xs, c, pad);
    assert "" + s == s;
    assert "" + xs[0] == xs[0];
  }

  lemma TrimmedParts(xs: seq<string>, pad: string)
    requires |xs| >= 1 && AllSpaces(pad)
    requires forall i :: 0 <= i < |xs| ==> IsTrimmed(xs[i])
    ensures TrimEach([xs[0]] + PrefixEach(pad, xs[1..])) == xs
  {
    var parts := [xs[0]] + PrefixEach(pad, xs[1..]);
    forall i | 0 <= i < |parts| ensures Trim(parts[i]) == xs[i] {
      if i > 0 {
        TrimAfterSpaces(pad, xs[i]);
      }
    }
  }

  /** The edit form loads lines with `joinLines` and saves them with
      `parseLines`; clean lines survive the trip unchanged. */
  lemma LinesRoundTrip(xs: seq<string>)
    requires Clean(xs, '\n')
    ensures ParseLines(JoinLines(Some(xs))) == xs
  {
    assert ['\n'] + "" == "\n";
    PiecesOfJoin(xs, '\n', "");
  }

  /** The same trip for tags, joined with `", "` and split on `','`. */
  lemma TagsRoundTrip(ts: seq<string>)
    requires Clean(ts, ',')
    ensures ParseTags(JoinTags(Some(ts))) == ts
  {
    assert [','] + " " == ", ";
    PiecesOfJoin(ts, ',', " ");
  }

  /** Parsing is a normal form: parsing the join of a parse changes nothing. */
  lemma ParseLinesStable(text: string)
    ensures ParseLines(JoinLines(Some(ParseLines(text)))) == ParseLines(text)
  {
    LinesRoundTrip(ParseLines(text));
  }

  lemma ParseTagsStable(text: string)
    ensures ParseTags(JoinTags(Some(ParseTags(text)))) == ParseTags(text)
  {
    TagsRoundTrip(ParseTags(text));
  }

  /** The recipe as the form loads it from `GET /api/recipes/:id`. */
  datatype Loaded = Loaded(
    title: string,
    description: Option<string>,
    ingredients: Option<seq<string>>,
    steps: Option<seq<string>>,
    tags: Option<seq<string>>,
    servings: Option<int>,
    prepMinutes: Option<int>,
    cookMinutes: Option<int>,
    imagePath: Option<string>)

  /** The form's state. A number box holds a number or nothing (`''`). */
  datatype Fields = Fields(
    title: string,
    description: string,
    ingredients: string,
    steps: string,
    tags: string,
    servings: Option<real>,
    prepMinutes: Option<real>,
    cookMinutes: Option<real>,
    imagePath: Option<string>)

  function NumberBox(n: Option<int>): Option<real> {
    match n
    case Some(v) => Some(v as real)
    case None => None
  }

  /** Loading a recipe for editing. */
  function Load(r: Loaded): Fields {
    Fields(r.title, r.description.GetOr(""), JoinLines(r.ingredients), JoinLines(r.steps), JoinTags(r.tags),
           NumberBox(r.servings), NumberBox(r.prepMinutes), NumberBox(r.cookMinutes), r.imagePath)
  }

  /** The body `submit` sends. */
  datatype Payload = Payload(
    title: string,
    description: Option<string>,
    ingredients: seq<string>,
    steps: seq<string>,
    tags: seq<string>,
    servings: Option<real>,
    prepMinutes: Option<real>,
    cookMinutes: Option<real>,
    imagePath: Option<string>)

  /** The payload built in `submit`: the title trimmed, a blank description
      sent as `null`, the text areas parsed, an empty number box sent as
      `null`. */
  function BuildPayload(f: Fields): (p: Payload)
    ensures IsTrimmed(p.title)
    ensures p.description.None? <==> AllSpaces(f.description)
    ensures p.description.Some? ==> p.description.value != "" && IsTrimmed(p.description.value)
    ensures Clean(p.ingredients, '\n') && Clean(p.steps, '\n') && Clean(p.tags, ',')
    ensures p.title == Trim(f.title) && (p.description.Some? ==> p.description.value == Trim(f.description))
    ensures p.ingredients == ParseLines(f.ingredients) && p.steps == ParseLines(f.steps) && p.tags == ParseTags(f.tags)
    ensures p.servings == f.servings && p.prepMinutes == f.prepMinutes && p.cookMinutes == f.cookMinutes
    ensures p.imagePath == f.imagePath
  {
    var d := Trim(f.description);
    Payload(Trim(f.title), if d == "" then None else Some(d),
            ParseLines(f.ingredients), ParseLines(f.steps), ParseTags(f.tags),
            f.servings, f.prepMinutes, f.cookMinutes, f.imagePath)
  }

  /** Saving an unchanged edit form sends back what was loaded, whenever the
      loaded recipe's title, description, lines and tags are already in the
      form the parsers produce; a number that was unset stays unset. */
  lemma EditUnchanged(r: Loaded)
    requires IsTrimmed(r.title)
    requires r.description.Some? ==> r.description.value != "" && IsTrimmed(r.description.value)
    requires Clean(r.ingredients.GetOr([]), '\n') && Clean(r.steps.GetOr([]), '\n')
    requires Clean(r.tags.GetOr([]), ',')
    ensures BuildPayload(Load(r)).title == r.title
    ensures BuildPayload(Load(r)).description == r.description
    ensures BuildPayload(Load(r)).ingredients == r.ingredients.GetOr([])
    ensures BuildPayload(Load(r)).steps == r.steps.GetOr([])
    ensures BuildPayload(Load(r)).tags == r.tags.GetOr([])
    ensures BuildPayload(Load(r)).imagePath == r.imagePath
    ensures BuildPayload(Load(r)).servings.Some? <==> r.servings.Some?
    ensures r.servings.Some? ==> BuildPayload(Load(r)).servings.value == r.servings.value as real
    ensures BuildPayload(Load(r)).prepMinutes.Some? <==> r.prepMinutes.Some?
    ensures r.prepMinutes.Some? ==> BuildPayload(Load(r)).prepMinutes.value == r.prepMinutes.value as real
    ensures BuildPayload(Load(r)).cookMinutes.Some? <==> r.cookMinutes.Some?
    ensures r.cookMinutes.Some? ==> BuildPayload(Load(r)).cookMinutes.value == r.cookMinutes.value as real
  {
    LinesRoundTrip(r.ingredients.GetOr([]));
    LinesRoundTrip(r.steps.GetOr([]));
    TagsRoundTrip(r.tags.GetOr([]));
    if r.description.None? {
      assert AllSpaces("");
    }
  }

  /** The payload as `JSON.stringify` writes it: `null` for absent values. */
  function Json(p: Payload): Body {
    map[
      "title" := JStr(p.title),
      "description" := StrOrNull(p.description),
      "ingredients" := JArr(StrItems(p.ingredients)),
      "steps" := JArr(StrItems(p.steps)),
      "tags" := JArr(StrItems(p.tags)),
      "servings" := NumOrNull(p.servings),
      "prepMinutes" := NumOrNull(p.prepMinutes),
      "cookMinutes" := NumOrNull(p.cookMinutes),
      "imagePath" := StrOrNull(p.imagePath)]
  }

  function StrOrNull(s: Option<string>): Json {
    if s.Some? then JStr(s.value) else JNull
  }

  function NumOrNull(n: Option<real>): Json {
    if n.Some? then JNum(n.value) else JNull
  }

  function StrItems(xs: seq<string>): (r: seq<Json>)
    ensures |r| == |xs|
    ensures forall i :: 0 <= i < |xs| ==> r[i] == JStr(xs[i])
  {
    if xs == [] then [] else [JStr(xs[0])] + StrItems(xs[1..])
  }

  /** A number box the server accepts: empty, or an integer of at least `least`. */
  predicate BoxValid(n: Option<real>, least: int) {
    n.None? || (n.value.Floor as real == n.value && n.value >= least as real)
  }

  /** A submitted form passes `CreateRecipeDto` exactly when its title is
      not blank and its number boxes hold whole numbers in range. The form
      never sends `sourceUrl` or `isPublic`. */
  lemma PayloadCreateValid(f: Fields, isUrl: string -> bool)
    ensures CreateValid(Json(BuildPayload(f)), isUrl) <==>
      (Trim(f.title) != "" && BoxValid(f.servings, 1) && BoxValid(f.prepMinutes, 0) && BoxValid(f.cookMinutes, 0))
  {
    JsonCreateValid(BuildPayload(f), isUrl);
  }

  /** The same form passes `UpdateRecipeDto` on the same condition. */
  lemma PayloadUpdateValid(f: Fields)
    ensures UpdateValid(Json(BuildPayload(f))) <==>
      (Trim(f.title) != "" && BoxValid(f.servings, 1) && BoxValid(f.prepMinutes, 0) && BoxValid(f.cookMinutes, 0))
  {
    JsonUpdateValid(BuildPayload(f));
  }

  lemma JsonCreateValid(p: Payload, isUrl: string -> bool)
    ensures CreateValid(Json(p), isUrl) <==>
      (p.title != "" && BoxValid(p.servings, 1) && BoxValid(p.prepMinutes, 0) && BoxValid(p.cookMinutes, 0))
  {
    JsonShared(p);
  }

  lemma JsonUpdateValid(p: Payload)
    ensures UpdateValid(Json(p)) <==>
      (p.title != "" && BoxValid(p.servings, 1) && BoxValid(p.prepMinutes, 0) && BoxValid(p.cookMinutes, 0))
  {
    JsonShared(p);
  }

  /** The checks both DTOs share, on a form payload. */
  lemma JsonShared(p: Payload)
    ensures "title" in Json(p) && Json(p)["title"] == JStr(p.title)
    ensures "sourceUrl" !in Json(p) && "isPublic" !in Json(p)
    ensures SharedValid(Json(p)) <==>
      (BoxValid(p.servings, 1) && BoxValid(p.prepMinutes, 0) && BoxValid(p.cookMinutes, 0))
  {
    var j := Json(p);
    assert IsStringArray(j["ingredients"]) && IsStringArray(j["steps"]) && IsStringArray(j["tags"]);
  }

  /** The submit button is disabled while a request is under way and while
      the title is blank. */
  predicate SubmitDisabled(loading: bool, title: string) {
    loading || Trim(title) == ""
  }

  /** A form that can be submitted sends a title the DTO's `MinLength(1)`
      accepts. */
  lemma SubmittedTitle(f: Fields, loading: bool)
    requires !SubmitDisabled(loading, f.title)
    ensures IsNonEmptyString(Json(BuildPayload(f))["title"])
  {
    JsonShared(BuildPayload(f));
  }

  /** The largest image the form uploads: 2 MiB. */
  const MaxImageBytes: int := 2 * 1024 * 1024

  /** `onPickFile`: a file larger than 2 MiB is refused with a message and
      never uploaded; any other file is uploaded. */
  datatype Pick = TooLarge(message: string) | Upload

  function PickFile(size: nat): (r: Pick)
    ensures r.TooLarge? <==> size > MaxImageBytes
  {
    if size > 2 * 1024 * 1024 then TooLarge("Image too large (max 2 MB).") else Upload
  }

  /** The limit is inclusive: exactly 2 MiB uploads, one byte more does not. */
  lemma PickLimit()
    ensures PickFile(2097152).Upload?
    ensures PickFile(2097153).TooLarge?
  {
  }
}
