# RecipeHub core in Dafny

This project models the logic of RecipeHub, a recipe-sharing application with
a NestJS API over Prisma and a React web client, and proves properties of it.

The model covers:

- **Quantity helpers of the recipe page.** Reading a leading quantity or
  range from an ingredient line, writing a scaled number with at most two
  decimals, rescaling every line, and the servings control that picks the
  factor (`apps/web/src/pages/RecipeDetails.tsx`).
- **The recipe form.** Parsing and joining lines and tags, the body it
  submits, the image size check and the submit button
  (`apps/web/src/pages/RecipeForm.tsx`).
- **The two request bodies.** `CreateRecipeDto` and `UpdateRecipeDto` as
  validity predicates, behind the whitelisting validation pipe.
- **The services over the database.**
  - Recipes: the sanitised view, the listing with its visibility rule, text
    filter and favorite flags, reading one recipe, and create, update and
    delete under the ownership rules.
  - Favorites: add, remove, the user's listing and the flag lookups.
  - A user's profile.
  - Accounts: registration, credential checking and the session cookie.
- **The light identity of the web client.** A viewer id and name kept in
  `localStorage`, and the UUID fallback (`apps/web/src/lib/auth.ts`).
- **The diagnostic database endpoints.** Count, sample and seed.

Layout, one module per file:

| module | models |
|---|---|
| `Common` | `Option`, `Result`, the HTTP errors, JavaScript truthiness of an optional id |
| `Text` | `trim`, `trimStart`, `split`, `join`, `indexOf`, `includes`, ASCII `toLowerCase`, decimal digits |
| `Quantity` | `parseLeadingQuantity`, `parseLeadingRange` (as written and corrected), `trimZeros`, `scaleIngredientLine`, `scaleIngredients` |
| `QuantityProofs`, `RangeProofs`, `ScaleLines`, `ScaleProofs` | what the parsers read back from a written numeral or range, and what scaling writes |
| `Servings` | the servings control, a class over the `targetServings` state |
| `Dto` | the whitelist step and the two DTO classes |
| `RecipeForm` | `parseLines`, `joinLines`, `parseTags`, `joinTags`, the submitted payload, `onPickFile` |
| `Store` | the recipe, favorite and user tables (a `Db` class whose fields the services reassign) and the queries the services use |
| `RecipesService`, `FavoritesService`, `UsersService`, `AuthService`, `DbController` | the services and the controller, each a class holding the `Db` |
| `Viewer` | `getViewer`, `setViewerName`, `viewerHeaders`, `uuid` over a `LocalStorage` class |

Values the program gets from outside enter the model as parameters:

- new row ids and the current time, which the database assigns;
- the bcrypt hash of a password (`passwordHash`) and `bcrypt.compare` (`compare`);
- the JWT signer (`sign`) and `NODE_ENV === 'production'` (`isProd`);
- the URL validator (`isUrl`);
- `crypto.randomUUID` when the browser has it (`native`) and the nibbles
  drawn from `Math.random` (`rs`).

A Prisma call that reads is a function with `reads db`. One that writes is a
method with `modifies db`, whose `ensures` gives the new table as a function
of the old one. Every writer keeps `Db.Valid()`: recipe ids, favorite pairs,
and user ids and emails stay unique.

## Model

| member | source | states |
|---|---|---|
| `Quantity.ParseLeadingQuantity` | apps/web/src/pages/RecipeDetails.tsx:22-49 | a quantity found never covers more than the whole text |
| `Quantity.ParseLeadingQuantityShape` | apps/web/src/pages/RecipeDetails.tsx:22-48 | null exactly when the text after its leading white space does not start with a digit; otherwise the length covers the leading white space and at least one digit, is at most the text's length, and stops before the terminator (the next character is not a digit) |
| `Quantity.QuantityAt` | apps/web/src/pages/RecipeDetails.tsx:25-47 | the patterns, tried in order, cover at least one character and never run past the text |
| `Quantity.QuantityAtShape` | apps/web/src/pages/RecipeDetails.tsx:25-47 | some pattern matches exactly when the text starts with a digit, and the match ends where the digits end |
| `Quantity.DecimalTerminates` | apps/web/src/pages/RecipeDetails.tsx:38-47 | after the greedy decimal numeral the terminator group always matches, so the last, whole-text pattern never gives a different result |
| `QuantityProofs.ParseQuantityRoundTrip` | apps/web/src/pages/RecipeDetails.tsx:22-48 | a decimal, fraction or mixed numeral written after white space and before text that separates it is read back as its value, with the length up to its end; a fraction over zero falls through and reads its leading number up to the slash |
| `QuantityProofs.ParseAfterPad` | apps/web/src/pages/RecipeDetails.tsx:23-24 | leading white space only moves where the quantity ends, by its own length |
| `QuantityProofs.QuantityAtMixed` | apps/web/src/pages/RecipeDetails.tsx:25-31 | the mixed pattern takes priority; over a zero denominator it falls through and reads the whole part alone (`1 1/0` gives 1 with length 1) |
| `QuantityProofs.QuantityAtFraction` | apps/web/src/pages/RecipeDetails.tsx:32-37 | the fraction pattern comes before the decimal one; over a zero denominator it falls through to the numerator (`3/0` gives 3 with length 1) |
| `QuantityProofs.QuantityAtDecimal` | apps/web/src/pages/RecipeDetails.tsx:38-42 | a decimal numeral is read as its value, up to its end |
| `QuantityProofs.TokenValueRender` | apps/web/src/pages/RecipeDetails.tsx:55-61 | `tokenToNumber` of a numeral is its value, a fraction over zero counting 0 |
| `Quantity.TokenValue` | apps/web/src/pages/RecipeDetails.tsx:55-61 | `tokenToNumber` of a token starting with a digit is never negative |
| `Quantity.ParseLeadingRangeAsWritten` | apps/web/src/pages/RecipeDetails.tsx:50-67 | a range found starts, after white space, with a digit, and covers more than the white space and at most the text |
| `Quantity.ParseLeadingRange` | apps/web/src/pages/RecipeDetails.tsx:50-67 | the same bounds for the range reader with the second token read whole |
| `RangeProofs.RangeAfterPad` | apps/web/src/pages/RecipeDetails.tsx:51-52 | leading white space only moves where the range ends |
| `RangeProofs.ParseRangeRoundTrip` | apps/web/src/pages/RecipeDetails.tsx:50-67 | a range of two numerals around `-` or `–`, with optional white space, is read back as both values, covering both numerals and the dash |
| `RangeProofs.ParseRangeAsWrittenRoundTrip` | apps/web/src/pages/RecipeDetails.tsx:53-66 | as written, the second numeral is read by the first alternative of its token pattern only: a fraction there is read as its numerator and the range ends before the slash |
| `RangeProofs.HalfCupRange` | apps/web/src/pages/RecipeDetails.tsx:53 | on `1-1/2 cups` the pattern as written reads 1 to 1 over 3 characters; corrected, 1 to 0.5 over 5 |
| `RangeProofs.QuarterHalfRange` | apps/web/src/pages/RecipeDetails.tsx:53 | on `1/4-1/2 tsp` the pattern as written reads 1/4 to 1 over 5 characters, leaving `/2 tsp`; corrected, 1/4 to 1/2 over 7 |
| `ScaleProofs.NoRange` | apps/web/src/pages/RecipeDetails.tsx:53 | a single numeral not followed by a dash is no range, with either pattern |
| `Quantity.Cents` | apps/web/src/pages/RecipeDetails.tsx:19 | `toFixed(2)` rounds to the nearest hundredth, the larger on a tie |
| `Quantity.TrimZeros` | apps/web/src/pages/RecipeDetails.tsx:20 | the replacement only removes characters from the end |
| `Quantity.Fixed2` | apps/web/src/pages/RecipeDetails.tsx:19 | `toFixed(2)` writes a minus sign exactly for a negative number, then digits, a point and exactly two decimal digits |
| `Quantity.Format` | apps/web/src/pages/RecipeDetails.tsx:18-21 | `trimZeros` only cuts the end of `toFixed(2)`'s text, never more than its point and two decimals, and a non-negative number still starts with a digit |
| `ScaleProofs.TrimZerosFixed` | apps/web/src/pages/RecipeDetails.tsx:18-21 | on `w.d1d2`: `.00` is removed, a final `0` after a non-zero first decimal is removed, and nothing else; the whole part is never touched |
| `ScaleProofs.TrimZerosExamples` | apps/web/src/pages/RecipeDetails.tsx:18-21 | `100.00` gives `100`, `1.50` gives `1.5`, `1.05` stays |
| `ScaleProofs.FormatIsToken` | apps/web/src/pages/RecipeDetails.tsx:18-21 | a non-negative number is written as a canonical decimal numeral worth its value in whole hundredths |
| `ScaleProofs.FormatReadsBack` | apps/web/src/pages/RecipeDetails.tsx:18-48 | `parseLeadingQuantity` reads all of what `trimZeros` writes, as a value within half a hundredth of the number |
| `ScaleProofs.FormatWhole` | apps/web/src/pages/RecipeDetails.tsx:18-21 | a whole number is written as its digits alone |
| `ScaleLines.ScaleKeeps` | apps/web/src/pages/RecipeDetails.tsx:68-82 | a blank line, or one whose trimmed text does not start with a digit, is returned unchanged, white space included |
| `Quantity.ScaleIngredientLine` | apps/web/src/pages/RecipeDetails.tsx:68-82 | a line is returned as it was, or its trimmed text starts with a digit and the result is trimmed (corrected range pattern) |
| `Quantity.ScaleIngredientLineAsWritten` | apps/web/src/pages/RecipeDetails.tsx:68-82 | the same, with the range pattern as written |
| `Quantity.ScaleWithRange` | apps/web/src/pages/RecipeDetails.tsx:70-81 | given the range read from the trimmed line, the line comes back untouched or the result is trimmed |
| `ScaleLines.ScaleQuantityLineIs` | apps/web/src/pages/RecipeDetails.tsx:76-80 | a line with a quantity and no range becomes the scaled number, one space and the remainder without its leading white space, trimmed |
| `ScaleLines.ScaleRangeLineIs` | apps/web/src/pages/RecipeDetails.tsx:71-75 | a range is tried first and becomes both scaled ends around an en dash, one space and the remainder, trimmed |
| `ScaleProofs.ScaleQuantityLine` | apps/web/src/pages/RecipeDetails.tsx:68-82 | a line holding one numeral (not over zero) and no dash is rewritten with the numeral's value times the factor, with either range pattern |
| `ScaleProofs.ScaleRangeLine` | apps/web/src/pages/RecipeDetails.tsx:68-82 | a line holding a range of two numerals is rewritten with both values times the factor around an en dash |
| `ScaleProofs.HalfCupScaled` | apps/web/src/pages/RecipeDetails.tsx:71-75 | doubling `1-1/2 cups` gives `2–1 cups` with the corrected pattern and `2–2 /2 cups` as written |
| `ScaleProofs.HalfCupListScaled` | apps/web/src/pages/RecipeDetails.tsx:83-86 | doubling the ingredient list `["1-1/2 cups"]` shows `2–2 /2 cups` as written and `2–1 cups` corrected |
| `Quantity.ScaleEach` | apps/web/src/pages/RecipeDetails.tsx:85 | the same number of lines, line i being line i scaled on its own, with the range pattern as written or corrected as `correctSecond` says |
| `Quantity.ScaleIngredients` | apps/web/src/pages/RecipeDetails.tsx:83-86 | no lines give `[]`; a factor of exactly 1 returns the lines untouched; otherwise line i is line i scaled, with the range pattern as written or corrected as `correctSecond` says |
| `Servings.FactorOf` | apps/web/src/pages/RecipeDetails.tsx:132 | the factor times the base is the current servings when the base is positive, and 1 otherwise |
| `Servings.Decremented` | apps/web/src/pages/RecipeDetails.tsx:135 | one less, but never below 1 |
| `Servings.ServingsControl.constructor` | apps/web/src/pages/RecipeDetails.tsx:105 | the base is the recipe's servings or 1, and the target starts there |
| `Servings.ServingsControl.Dec` | apps/web/src/pages/RecipeDetails.tsx:135 | the target becomes the current servings less one, floored at 1 |
| `Servings.ServingsControl.Inc` | apps/web/src/pages/RecipeDetails.tsx:136 | the target becomes the current servings plus one |
| `Servings.ServingsControl.OnInput` | apps/web/src/pages/RecipeDetails.tsx:137-140 | a finite number of at least 1 becomes the target; anything else leaves it as it was |
| `Servings.ServingsControl.Reset` | apps/web/src/pages/RecipeDetails.tsx:141 | the target returns to the base |
| `Servings.IncThenDec` | apps/web/src/pages/RecipeDetails.tsx:135-136 | a step up followed by a step down returns to the count |
| `Servings.FactorPositive` | apps/web/src/pages/RecipeDetails.tsx:132 | with a real base, the factor is positive |
| `Servings.AtBaseUnscaled` | apps/web/src/pages/RecipeDetails.tsx:130-133 | at the base the factor is exactly 1 and the ingredient lines are shown as stored, with either range pattern |
| `Servings.IncDecAtBase` | apps/web/src/pages/RecipeDetails.tsx:133-136 | stepping up then down from the base shows the stored lines again, with either range pattern |
| `RecipeForm.ParseLines` | apps/web/src/pages/RecipeForm.tsx:17-19 | every line is non-empty, trimmed and holds no newline |
| `RecipeForm.ParseTags` | apps/web/src/pages/RecipeForm.tsx:23-25 | every tag is non-empty, trimmed and holds no comma |
| `RecipeForm.JoinLines` | apps/web/src/pages/RecipeForm.tsx:20-22 | no lines give the empty text; splitting the join of newline-free lines at newlines gives them back |
| `RecipeForm.JoinTags` | apps/web/src/pages/RecipeForm.tsx:26-28 | no tags give the empty text; splitting the join of comma-free tags at commas gives the first tag and each other one behind the space `, ` adds |
| `RecipeForm.JoinNothing` | apps/web/src/pages/RecipeForm.tsx:20-28 | joining nothing gives the empty text, for lines and for tags |
| `RecipeForm.LinesRoundTrip` | apps/web/src/pages/RecipeForm.tsx:17-22 | `parseLines(joinLines(xs)) == xs` for non-empty, trimmed, newline-free lines |
| `RecipeForm.TagsRoundTrip` | apps/web/src/pages/RecipeForm.tsx:23-28 | `parseTags(joinTags(ts)) == ts` for non-empty, trimmed, comma-free tags |
| `RecipeForm.ParseLinesStable` | apps/web/src/pages/RecipeForm.tsx:17-22 | parsing is a normal form: parsing the join of parsed lines gives them back |
| `RecipeForm.ParseTagsStable` | apps/web/src/pages/RecipeForm.tsx:23-28 | the same for tags |
| `RecipeForm.BuildPayload` | apps/web/src/pages/RecipeForm.tsx:80-90 | the title sent is the trimmed title; the description is `null` exactly when blank and the trimmed text otherwise; the lines are `parseLines` and the tags `parseTags` of their text areas, so each is non-empty and trimmed; the number boxes and the image path are passed on as they are |
| `RecipeForm.EditUnchanged` | apps/web/src/pages/RecipeForm.tsx:60-90 | saving an unchanged edit form sends back the loaded title, description, lines, tags and image, and the loaded servings and minutes, an unset number staying unset |
| `RecipeForm.PayloadCreateValid` | apps/web/src/pages/RecipeForm.tsx:80-98 | a submitted form passes `CreateRecipeDto` exactly when its title is not blank and its number boxes are empty or whole numbers in range |
| `RecipeForm.PayloadUpdateValid` | apps/web/src/pages/RecipeForm.tsx:80-98 | the same form passes `UpdateRecipeDto` on the same condition |
| `RecipeForm.SubmittedTitle` | apps/web/src/pages/RecipeForm.tsx:211 | when the submit button is enabled, the title sent passes `MinLength(1)` |
| `RecipeForm.PickFile` | apps/web/src/pages/RecipeForm.tsx:114-118 | a file is refused exactly when it is larger than 2 MiB |
| `RecipeForm.PickLimit` | apps/web/src/pages/RecipeForm.tsx:114 | exactly 2 MiB is uploaded, one byte more is refused |
| `Dto.Whitelist` | apps/api/src/main.ts:16 | the body keeps exactly the declared properties, with their values |
| `Dto.WhitelistKeepsVerdict` | apps/api/src/main.ts:16 | stripping undeclared properties first changes no validation verdict |
| `Dto.CreateInput` | apps/api/src/recipes/dto/create-recipe.dto.ts:3-54 | a valid create body gives a title of at least one character, servings of at least 1, non-negative minutes, a URL-checked `sourceUrl`, and an `isPublic` that is missing only when it was not sent |
| `Dto.UpdateInput` | apps/api/src/recipes/dto/update-recipe.dto.ts:3-41 | a title that is sent is non-empty, and the numeric bounds are those of create |
| `Dto.UpdateDropsVisibility` | apps/api/src/recipes/dto/update-recipe.dto.ts:3-46 | an update body never carries `isPublic` or `sourceUrl`, whatever the client sends |
| `Store.SortNewestFirst` | apps/api/src/recipes/recipes.service.ts:48 | `orderBy: desc` gives the same rows, ordered by the key, largest first |
| `Store.FindRecipe` | apps/api/src/recipes/recipes.service.ts:72 | a row found has the id asked for; none is found exactly when no row has it |
| `Store.FindRecipeUnique` | apps/api/src/recipes/recipes.service.ts:72 | with unique ids, the lookup finds the one row with that id |
| `Store.FindUser` | apps/api/src/users/users.service.ts:9-13 | a user found has the id asked for; none is found exactly when no user has it |
| `Store.FindEmail` | apps/api/src/auth/auth.service.ts:19 | a user found has the email asked for; none is found exactly when no user has it |
| `Store.Filter` | apps/api/src/recipes/recipes.service.ts:53 | the rows kept are exactly the rows the condition holds for, never more than the table |
| `Store.FilterCounts` | apps/api/src/recipes/recipes.service.ts:53 | each row the condition holds for is kept as many times as the table has it; every other row is dropped |
| `Store.FilterKeepsOrder` | apps/api/src/recipes/recipes.service.ts:47-53 | filtering rows ordered newest first keeps them ordered |
| `Store.FavoritedAmong` | apps/api/src/recipes/recipes.service.ts:58-62 | the batch lookup gives exactly the asked ids that have a favorite row for the user |
| `RecipesService.Sanitize` | apps/api/src/recipes/recipes.service.ts:10-31 | `canEdit` exactly when the viewer id is non-empty and is the owner; `isFavorited` is the flag passed in; a missing visibility reads as public; missing ingredient, step and tag lists read as empty and present ones are kept; the title, description, image path, source URL, servings, minutes, owner name, version and both times are passed on, a missing one as `null` |
| `RecipesService.Listed` | apps/api/src/recipes/recipes.service.ts:37-53 | exactly the recipes that match the filter and are public or the viewer's own, each as many times as the table has it, newest update first |
| `RecipesService.FavoriteFlags` | apps/api/src/recipes/recipes.service.ts:56-63 | a listed id is flagged exactly when the viewer is signed in and has a favorite row for it |
| `RecipesService.RecipesService.List` | apps/api/src/recipes/recipes.service.ts:34-68 | the listed recipes in order, each sanitised and flagged as a favorite exactly when a row for the viewer and that recipe exists |
| `RecipesService.RecipesService.ById` | apps/api/src/recipes/recipes.service.ts:70-88 | not found exactly when no row has the id; forbidden exactly when the row is neither public nor the viewer's; otherwise the sanitised row with its favorite flag |
| `RecipesService.RecipesService.Create` | apps/api/src/recipes/recipes.service.ts:90-108 | exactly one row is appended, owned by the caller, with the defaults applied; the other tables stay as they were |
| `RecipesService.CreatedView` | apps/api/src/recipes/recipes.service.ts:90-108 | the created recipe is editable by a caller with a non-empty id, not a favorite, public unless the body says otherwise, holds the sent title and lines, and is visible to its owner |
| `RecipesService.NewRow` | apps/api/src/recipes/recipes.service.ts:91-105 | the row written is visible to its owner, its visibility is set, and its ingredient, step and tag lists are never `NULL` |
| `RecipesService.RecipesService.Update` | apps/api/src/recipes/recipes.service.ts:111-141 | not found, then forbidden for a non-owner, and in both cases nothing changes; otherwise only that row is patched |
| `RecipesService.Patched` | apps/api/src/recipes/recipes.service.ts:116-131 | the version goes up by exactly one, and the id, owner and creation time stay |
| `RecipesService.EmptyPatch` | apps/api/src/recipes/recipes.service.ts:118-131 | a body that sends nothing changes nothing but the version and the update time |
| `RecipesService.TitleOnly` | apps/api/src/recipes/recipes.service.ts:118-131 | a body that sends only a title changes the title, the version (by one) and the update time, and nothing else |
| `RecipesService.PatchTwice` | apps/api/src/recipes/recipes.service.ts:118-131 | sending the same body twice sets the fields as sending it once; only the version counts both |
| `RecipesService.PatchKeepsVisibility` | apps/api/src/recipes/recipes.service.ts:125-129 | through the whitelist, an update never changes visibility or source URL |
| `RecipesService.ReplaceKeepsIds` | apps/api/src/recipes/recipes.service.ts:116-117 | patching a row in place keeps recipe ids unique |
| `RecipesService.RecipesService.Remove` | apps/api/src/recipes/recipes.service.ts:143-149 | not found, then forbidden for a non-owner, with nothing changed; otherwise exactly the rows with that id are deleted |
| `RecipesService.Without` | apps/api/src/recipes/recipes.service.ts:147 | the rows left are exactly those with another id |
| `RecipesService.WithoutKeepsIds` | apps/api/src/recipes/recipes.service.ts:147 | deleting keeps recipe ids unique |
| `RecipesService.AnonymousSeesPublic` | apps/api/src/recipes/recipes.service.ts:53 | an anonymous visitor is listed public recipes only |
| `RecipesService.PrivateListedToOwner` | apps/api/src/recipes/recipes.service.ts:53 | a private recipe is listed to its owner and to no one else |
| `RecipesService.BlankQueryListsAll` | apps/api/src/recipes/recipes.service.ts:37-45 | a blank query filters nothing |
| `FavoritesService.FavoritesService.Add` | apps/api/src/favorites/favorites.service.ts:8-20 | not found for a missing recipe, then forbidden for a private recipe of someone else, and no row is written in either case; otherwise the pair is upserted |
| `FavoritesService.UpsertAdds` | apps/api/src/favorites/favorites.service.ts:14-18 | after the upsert the pair is a favorite, every other pair is as it was, and there is still one row per pair |
| `FavoritesService.UpsertIdempotent` | apps/api/src/favorites/favorites.service.ts:14-18 | adding a favorite twice is adding it once |
| `FavoritesService.FavoritesService.Remove` | apps/api/src/favorites/favorites.service.ts:22-27 | always reports success; the pair's row is deleted if there is one |
| `FavoritesService.DeleteRemoves` | apps/api/src/favorites/favorites.service.ts:22-27 | afterwards the pair is no favorite, every other pair is as it was, and deleting again changes nothing |
| `FavoritesService.DeleteKeepsPairs` | apps/api/src/favorites/favorites.service.ts:23-25 | deleting keeps one row per pair |
| `FavoritesService.Joins` | apps/api/src/favorites/favorites.service.ts:30-36 | exactly the user's favorites whose recipe exists and is public or the user's own now, each joined to that recipe and kept as many times as the table has the favorite row |
| `FavoritesService.ListedFavorites` | apps/api/src/favorites/favorites.service.ts:30-51 | the same joined favorites with the same multiplicities, newest favorite first |
| `FavoritesService.FavoritesService.ListForUser` | apps/api/src/favorites/favorites.service.ts:29-53 | the selected recipe columns of those favorites, in that order |
| `FavoritesService.FavoritesService.SetFlags` | apps/api/src/favorites/favorites.service.ts:55-63 | exactly the given ids the user has favorited, and none for an absent user or an empty list |
| `FavoritesService.FavoritesService.IsFavorited` | apps/api/src/favorites/favorites.service.ts:65-72 | false for an absent or empty user id; otherwise true exactly when the pair's row exists |
| `FavoritesService.FlagsAgree` | apps/api/src/favorites/favorites.service.ts:55-72 | the batch lookup agrees with the single lookup on every id asked about |
| `FavoritesService.ListFlagsAgree` | apps/api/src/recipes/recipes.service.ts:56-66 | the catalogue's favorite flags are what `isFavorited` reports for the same viewer and recipe |
| `UsersService.ProfileRecipes` | apps/api/src/users/users.service.ts:16-34 | exactly the target's recipes, only the public ones unless the viewer is the target, each as many times as the table has it, newest update first |
| `UsersService.UsersService.GetProfile` | apps/api/src/users/users.service.ts:8-44 | not found exactly when the user does not exist; otherwise the user's id, display name and creation time only, with the listed recipes |
| `UsersService.OwnProfileListsAll` | apps/api/src/users/users.service.ts:17-18 | one's own profile lists all one's recipes, private ones included |
| `UsersService.OthersSeePublic` | apps/api/src/users/users.service.ts:19 | any other viewer, signed in or not, sees exactly the target's public recipes |
| `UsersService.ProfileOwnedByTarget` | apps/api/src/users/users.service.ts:16-19 | every listed recipe belongs to the target and is visible to the viewer |
| `AuthService.Refusal` | apps/api/src/auth/auth.service.ts:16-20 | registration is refused exactly when the name is missing or blank ("displayName required", checked first) or the normalised email is taken ("Email already registered") |
| `AuthService.AuthService.Register` | apps/api/src/auth/auth.service.ts:16-28 | on refusal nothing is stored; otherwise one user with the trimmed, lower-cased email and the trimmed name is appended and returned without its hash |
| `AuthService.RegisterKeepsUnique` | apps/api/src/auth/auth.service.ts:19-25 | registering keeps user ids and emails unique |
| `AuthService.DuplicateRefused` | apps/api/src/auth/auth.service.ts:19-20 | a second registration with an email that normalises alike is refused |
| `AuthService.NormalizeIdempotent` | apps/api/src/auth/auth.service.ts:17 | normalising a normalised email changes nothing |
| `AuthService.Normalize` | apps/api/src/auth/auth.service.ts:17 | the normalised email is trimmed and holds no upper-case ASCII letter; it is empty exactly when the email is all white space |
| `AuthService.PublicIgnoresHash` | apps/api/src/auth/auth.service.ts:12-14 | the public user keeps the id, email and display name, and does not depend on the password hash |
| `AuthService.Authenticate` | apps/api/src/auth/auth.service.ts:30-36 | success exactly when the first user with the normalised email has a matching hash; an unknown email and a wrong password both fail with "Invalid credentials" |
| `AuthService.FindEmailFirst` | apps/api/src/auth/auth.service.ts:31 | the row looked up by email is the first row with that email |
| `AuthService.FindEmailAppended` | apps/api/src/auth/auth.service.ts:23-31 | a user appended with an email no other row has is the one looked up by it |
| `AuthService.CookieReadBack` | apps/api/src/auth/auth.service.ts:45 | the cookie text, read the way a browser reads `Set-Cookie`, is named `access_token`, holds the token and has the attributes HttpOnly, Path=/, SameSite=Lax, Max-Age=7200, with Secure only in production |
| `AuthService.SignAccessCookie` | apps/api/src/auth/auth.service.ts:38-47 | the cookie name is `access_token`, the token is signed from the user's id, email and name, and a token without `;` reads back from the cookie text with the attributes of the environment |
| `AuthService.AuthService.Validate` | apps/api/src/auth/auth.service.ts:30-36 | a user returned is stored under the normalised email; every failure is "Invalid credentials" |
| `AuthService.RegisterThenValidate` | apps/api/src/auth/auth.service.ts:16-36 | after registering, signing in with the same password and any spelling of the email that normalises alike yields the new user |
| `AuthService.StoredEmailSignsIn` | apps/api/src/auth/auth.service.ts:24-31 | the stored email signs in as written |
| `AuthService.CookieRoundTrip` | apps/api/src/auth/auth.service.ts:38-46 | the cookie is named `access_token` and carries the token signed from `sub` = the user id; read back it has the attributes HttpOnly, Path=/, SameSite=Lax, Max-Age=7200, and Secure exactly in production |
| `Viewer.HexDigit` | apps/web/src/lib/auth.ts:14 | `toString(16)` of a nibble is a lower-case hexadecimal digit |
| `Viewer.Nibble` | apps/web/src/lib/auth.ts:13 | the value written for a template character is still a nibble |
| `Viewer.VariantNibble` | apps/web/src/lib/auth.ts:13 | `(r & 0x3) \| 0x8` is 8 plus the low two bits of r |
| `Viewer.Fallback` | apps/web/src/lib/auth.ts:12-15 | the fallback id has the template's length, with each character passed through the callback |
| `Viewer.FallbackIsV4` | apps/web/src/lib/auth.ts:12-15 | the fallback id has hyphens at 8, 13, 18 and 23, `4` at 14, one of `89ab` at 19, and lower-case hexadecimal digits elsewhere |
| `Viewer.Uuid` | apps/web/src/lib/auth.ts:9-16 | the browser's own UUID when there is one; else the template filled character by character, which is a version-4 UUID |
| `Viewer.UuidOf` | apps/web/src/lib/auth.ts:9-16 | the browser's UUID when it has one; otherwise a version-4 UUID |
| `Viewer.ViewerOf` | apps/web/src/lib/auth.ts:18-25 | the name is never empty; the id is the stored one when that is non-empty, and non-empty whenever the generated one is |
| `Viewer.AfterGet` | apps/web/src/lib/auth.ts:19-23 | the storage gains at most the id key, every other key keeps its value, and the stored id is the id `getViewer` returns |
| `Viewer.GetViewer` | apps/web/src/lib/auth.ts:18-26 | the stored id, or a generated one that is then stored; the stored name, or "You" |
| `Viewer.StoredIdKept` | apps/web/src/lib/auth.ts:19 | a stored non-empty id is returned unchanged and the storage is left alone |
| `Viewer.ViewerStable` | apps/web/src/lib/auth.ts:20-23 | once an id is stored, every later call returns it, whatever it would generate |
| `Viewer.SetViewerName` | apps/web/src/lib/auth.ts:28-30 | the name is stored, or "You" for an empty one; nothing else changes |
| `Viewer.NameAfterSet` | apps/web/src/lib/auth.ts:24-29 | after setting a name, the viewer reports it (or "You") and the same id as before |
| `Viewer.ViewerHeaders` | apps/web/src/lib/auth.ts:32-38 | exactly the headers `x-viewer-id` and `x-viewer-name`, holding the id and name `getViewer` gives |
| `DbController.Sample` | apps/api/src/db.controller.ts:11-14 | the first five rows, or all when there are fewer, newest creation first, each taken from the table no more often than the table has it |
| `DbController.SampleFromTable` | apps/api/src/db.controller.ts:11-14 | the sample is drawn from the table |
| `DbController.SampleIsNewest` | apps/api/src/db.controller.ts:11-14 | no row left out of the sample is newer than a row in it |
| `DbController.DbController.List` | apps/api/src/db.controller.ts:9-16 | the total count and the sample |
| `DbController.DbController.Seed` | apps/api/src/db.controller.ts:18-28 | the recipe table becomes the seeded table, the other tables stay, and the report gives the counts before and after |
| `DbController.SeedOnlyWhenEmpty` | apps/api/src/db.controller.ts:20-25 | exactly one recipe, titled "Hello, Recipe!", is inserted exactly when the table is empty; otherwise nothing changes |
| `DbController.SeedRow` | apps/api/src/db.controller.ts:21-23 | the seed row has the given id, the title "Hello, Recipe!" and no owner; its visibility is the column default, passed in as `isPublicDefault`, so any viewer's listing shows it exactly when that default is public |
| `DbController.SeedIdempotent` | apps/api/src/db.controller.ts:19-27 | after a seed the table is not empty, and a second seed is a no-op |

## Findings

| source | as written | input that shows it | evidently intended | confidence | as-written member | corrected member |
|---|---|---|---|---|---|---|
| apps/web/src/pages/RecipeDetails.tsx:53 | the second token of a range is `\d+(?:\.\d+)?(?:\s+\d+\/\d+)?\|\d+\/\d+`, and everything after it is optional, so the first alternative always wins and a fraction there is read as its numerator | `1/4-1/2 tsp` reads as 1/4 to 1 over 5 characters, leaving `/2 tsp`; likewise `1-1/2 cups` reads as 1 to 1 over 3 characters, and doubled it is written `2–2 /2 cups` | the second token is read as the fraction 1/2: `1/4-1/2 tsp` is 1/4 to 1/2 over 7 characters, and doubling `1-1/2 cups` gives `2–1 cups` | high; not executed | `RangeProofs.QuarterHalfRange`, `RangeProofs.HalfCupRange`, `RangeProofs.ParseRangeAsWrittenRoundTrip`, `ScaleProofs.HalfCupScaled`, `ScaleProofs.HalfCupListScaled` | `RangeProofs.ParseRangeRoundTrip`, `RangeProofs.QuarterHalfRange`, `ScaleProofs.ScaleRangeLine` |

`Quantity.ParseLeadingRangeAsWritten` is the pattern as written, and
`Quantity.ParseLeadingRange` is the corrected one.
`Quantity.ScaleIngredientLineAsWritten` scales a line with the written
pattern and `Quantity.ScaleIngredientLine` with the corrected one.
`Quantity.ScaleEach`, `Quantity.ScaleIngredients` and the servings lemmas
take a flag, `correctSecond`, that picks between them: `false` is the page
as written, `true` the corrected reading.

## Left out

- Floating point: quantities, the servings factor and scaled values are exact
  reals. `toFixed(2)` is modelled as rounding to the nearest hundredth, the
  larger on a tie, so binary rounding of values such as 1.005 is not captured.
  `toFixed` switches to exponential notation for magnitudes of 1e21 and more;
  `Quantity.Fixed2` always writes fixed notation.
- `parseFloat` and `Number` are modelled only on the digit strings the
  patterns let through. `NaN` and the infinities appear only as "not
  accepted" in `Servings.ServingsControl.OnInput`.
- Regular expressions are written out as scanners for these particular
  patterns. `\s` is the ASCII white space together with the Unicode spaces
  `Text.IsSpace` lists, and `\b` is the word boundary of ASCII word
  characters.
- `Text.ToLower` lowers ASCII letters only; JavaScript's `toLowerCase`
  also lowers other scripts.
- bcrypt hashing and comparison, JWT signing, `crypto.randomUUID`,
  `Math.random`, database-assigned ids and clocks are parameters.
- The column defaults of the database schema are not part of this model. A
  created recipe starts at version 1. `RecipesService.Patched` sets the
  update time to the `now` passed in, where the schema's `@updatedAt`
  attribute does it. The seed row sets only the title and
  has no owner. Its visibility is the schema's default for `isPublic`, which
  `DbController.SeedRow` takes as the parameter `isPublicDefault`. Every
  other optional column of the seed row is left unset.
- Cascading deletes of favorites and images when a recipe is deleted depend on
  that schema and are not modelled. A favorite row may outlive its recipe and
  is then dropped from the user's listing, as the join does.
- Async execution, concurrency between requests, and the number of queries
  each operation issues are not modelled. Each service operation runs
  atomically on the tables.
- Prisma's order among rows with equal timestamps is not specified.
  `Store.SortNewestFirst` fixes one order. The contracts state the rows with
  their multiplicities and the order by the key, but not the order among
  rows with equal keys.
- `AuthService.AuthService.Register`: the hash of the password is computed by
  the caller. The method takes it as `passwordHash` rather than hashing the
  password itself.
- `AuthService.AuthService.Validate`: states membership, the email and the
  error message. Which user is returned (the first one with that email) is
  stated by `AuthService.Authenticate`, which it calls.
- `RecipesService.RecipesService.ById`, `Update` and `Remove`: `Forbidden`
  carries the source's message, but the HTTP status mapping of the framework
  is not modelled.
- The React rendering, the controllers, the upload endpoint, the JWT strategy
  and guards, and the module wiring are not part of this model.
  `auth.controller.ts` calls service methods (`login`, `me`, a
  `register` that returns a token) that `auth.service.ts` does not define;
  only the service is modelled.
