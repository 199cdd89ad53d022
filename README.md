# Foodgram domain layer in Dafny

This project models the domain layer of the Foodgram recipe site's Django
backend. That layer covers:

- the rules on stored rows: bounded cooking times and amounts, the tag
  colour and username patterns, and the uniqueness constraints;
- the recipe payload validation and the create / replace-all update write
  path of the recipe serializer;
- the favourite, shopping-cart and subscription toggles and the serializer
  fields that report them;
- the subscription listing with its `recipes_limit` preview;
- the shopping-list download, which groups the cart's ingredient lines by
  (name, unit), sums them, orders by name and renders a text file.

The database is one object, `Foodgram.Database`. Its fields are the tables:

- users, tags, ingredients and recipes are maps from id to row;
- the recipe–tag links, favourites, carts and subscriptions are sets of
  pairs;
- the `IngredientInRecipe` rows are a sequence kept in insertion order.

`Database.Valid()` collects the model-level constraints: foreign keys,
ranges, patterns and uniqueness. It also includes the serializer's
stronger rule that an ingredient appears at most once per recipe. Every
endpoint method preserves `Valid()`, and its postcondition gives the new
tables as a function of the old ones. The pure transition functions
(`AddRelation`, `RemoveSubscription`, …) and the shopping-list functions
carry the properties, which are proved as lemmas.

Modules:

- `Results`: the result and option types.
- `Text`: code-point string order, decimal rendering and parsing, and
  Python's `join` / `split` / `strip` (with `str.isspace`'s whitespace set).
- `Ordering`: insertion sort under a total preorder.
- `Users`: `backend/users/models.py`.
- `Recipes`: `backend/recipes/models.py`.
- `Serializers`: the pure parts of `backend/api/serializers.py`.
- `ShoppingList`: `download_shopping_cart` and `export_file`.
- `Foodgram`: the stateful endpoints of `backend/api/views.py` and the
  serializer write path.

Some modelling decisions:

- The request's clock becomes a parameter (`now`, the recipe's
  `pub_date`).
- The requesting user is a parameter. An anonymous requester is `None`
  in the `is_*` fields.
- HTTP 404 and 400 responses become `Failure` / `Fail` values.
- The bounds 1 and 32767 come from the validators' messages and the
  literals on `IngredientInRecipe.amount`. The `global_constants` module
  that defines them is not part of this model.
- Field-level validation errors are reported together as a set. This is
  how the serializer framework reports them. `validate()` then stops at
  its first failing check, in the source's order.
- Within one ingredient name, the shopping list orders entries by unit.
  The source's query leaves that order to the database.

## Model

| member | source | states |
|---|---|---|
| Users.ValidUsername | backend/users/models.py:17-20 | the intended full match of `[а-яА-Я ]+`; a username it accepts holds no newline |
| Users.UsernameAsWritten | backend/users/models.py:17-20 | the pattern under `re.search`; on a string without a newline it accepts only what the full match accepts (the gap is stated by `UsernameAsWrittenGap`) |
| Users.UsernameTrailingNewline | backend/users/models.py:13-22 | the username pattern as written accepts "Иван\n", which the intended full match rejects |
| Users.UsernameAsWrittenGap | backend/users/models.py:13-22 | a valid username has no newline; the pattern as written accepts every valid username, and accepts an invalid one only when it ends in a newline |
| Users.SubscribeStr | backend/users/models.py:73-74 | `Subscribe.__str__`: starts with "Пользователь " and ends with the author's username; what it determines is stated by `SubscribeStrAmbiguous` and `SubscribeStrCancels` |
| Users.SubscribeStrAmbiguous | backend/users/models.py:73-74 | "Пользователь {user} подписался на {author}" does not determine the pair: two different pairs of valid usernames ("Иван" following "Петр подписался на Анна", and "Иван подписался на Петр" following "Анна") render alike |
| Users.SubscribeStrCancels | backend/users/models.py:73-74 | of two pairs that render alike, one with the same follower also has the same author, and one with the same author also has the same follower |
| Recipes.ValidHexColor | backend/recipes/models.py:86-91 | the intended full match of `#([A-Fa-f0-9]{6}\|[A-Fa-f0-9]{3})`; a colour it accepts holds no newline |
| Recipes.HexColorAsWritten | backend/recipes/models.py:86-91 | the pattern under `re.search`; on a string without a newline it accepts only what the full match accepts (the gap is stated by `HexColorAsWrittenGap`) |
| Recipes.HexColorTrailingNewline | backend/recipes/models.py:81-92 | the colour pattern as written accepts "#fff\n", which is not '#' plus 3 or 6 hex digits |
| Recipes.HexColorAsWrittenGap | backend/recipes/models.py:81-92 | a valid colour has no newline; the pattern as written accepts only valid colours and valid colours followed by "\n" (lengths 5 or 8) |
| Recipes.IngredientStr | backend/recipes/models.py:127-128 | `Ingredient.__str__`: the name, then ", ", and it ends with the unit; what it determines is stated by `IngredientStrInjective` and `IngredientStrAmbiguous` |
| Recipes.IngredientStrInjective | backend/recipes/models.py:127-128 | "name, unit" identifies the ingredient when names contain no comma |
| Recipes.IngredientStrAmbiguous | backend/recipes/models.py:122-128 | two distinct (name, unit) pairs that the uniqueness constraint allows side by side can render alike |
| Recipes.KeyedLinesDistinctIngredients | backend/recipes/models.py:154-157 | under the serializer-maintained invariant, two lines of one recipe never share an ingredient |
| Recipes.TableConstraintIsWeaker | backend/recipes/models.py:154-157 | the (recipe, ingredient, amount) constraint alone admits the same ingredient twice in a recipe with different amounts |
| Recipes.LinesOf | backend/recipes/models.py:133-137 | `recipe.recipe_ingredients`: exactly the lines whose recipe is r |
| Recipes.LinesNotOf | backend/api/serializers.py:281 | the table after `ingredients.clear()`: exactly the lines of other recipes |
| Recipes.LinesNotOfNoDuplicates | backend/recipes/models.py:154-157 | clearing a recipe's lines keeps the rows pairwise distinct |
| Recipes.ReplaceLines | backend/api/serializers.py:281-282 | after clear-then-append, recipe r has exactly the appended lines and every other recipe keeps its lines |
| Recipes.RecipesOfAuthor | backend/recipes/models.py:20-26 | `author.recipes`: exactly the author's recipes, without repetition |
| Recipes.RecipeOrder | backend/recipes/models.py:68 | ordering by `-pub_date` is a permutation in which publication dates never increase |
| Recipes.IngredientOrder | backend/recipes/models.py:121 | ordering by name is a permutation in which names ascend |
| Serializers.SetSizeDetectsDuplicates | backend/api/serializers.py:220 | `len(xs) != len(set(xs))` holds exactly when some element repeats |
| Serializers.FieldErrors | backend/api/serializers.py:187-216 | the field-level errors, each raised exactly when its check fails: an unknown tag or ingredient id, an amount or a cooking time outside 1..32767, a blank name or text (the model's `name`/`text` fields at backend/recipes/models.py:27-39 have no `blank=True`), a NUL character in the name or text (refused by every serializer character field); empty exactly when all fields pass |
| Serializers.BlankMeansWhitespace | backend/recipes/models.py:27-39 | a name or text is refused as blank exactly when every character of it is whitespace (the empty string included) |
| Serializers.NullSurvivesStrip | backend/recipes/models.py:27-39 | the NUL check on the stripped value sees a NUL exactly when the submitted value holds one, and a blank value holds none, so a field fails at most one of the two checks |
| Serializers.Validate | backend/api/serializers.py:218-239 | accepted exactly when all fields pass and the tags and ingredient ids are non-empty and repeat-free; then it returns the payload with `name` and `text` stripped of surrounding whitespace and everything else unchanged; field errors come first, then duplicate tags, no tags, duplicate ingredients, no ingredients |
| Serializers.LinesFor | backend/api/serializers.py:253-262 | one line per item, in item order, carrying the item's id and amount |
| Serializers.AppendLinesValid | backend/api/serializers.py:253-263 | appending a validated payload's lines to a recipe with none keeps rows distinct, ingredients distinct per recipe, and amounts in range |
| Serializers.ValidateRelation | backend/api/serializers.py:301-329 | the favourite / cart check passes exactly when the (user, recipe) pair is absent, else "already exists" |
| Serializers.ValidateSubscribe | backend/api/serializers.py:45-64 | passes exactly when the pair is absent and user ≠ author; an existing pair is reported before a self-subscription |
| Serializers.IsRelated | backend/api/serializers.py:140-156 | `is_favorited` / `is_in_shopping_cart` hold exactly when the requester is authenticated and the pair exists |
| Serializers.IsSubscribed | backend/api/serializers.py:32-35 | `is_subscribed` holds exactly when the requester is authenticated and follows the author |
| Serializers.GetRecipes | backend/api/serializers.py:82-88 | no limit gives all recipes; a limit n ≥ 0 gives the first min(n, count); a negative n is an error |
| ShoppingList.Aggregate | backend/api/views.py:90-94 | `.values(name, unit).order_by(name).annotate(Sum)`: the grouped list is empty exactly when its input is and never longer; its order, keys and sums are stated by `AggregateSpec` and `AggregateProperties` |
| ShoppingList.AggregateSpec | backend/api/views.py:90-94 | the groups are strictly ordered by (name, unit), one per key of the input, each with its key's summed amount, and the total is conserved |
| ShoppingList.AggregateProperties | backend/api/views.py:88-94 | the grouping is ordered by name and has one entry per distinct (name, unit) of its input; each entry's amount is the sum over that key; the total is conserved |
| ShoppingList.CartRows | backend/api/views.py:88-91 | `filter(recipe__shopping_cart__user=user)` joined with the ingredient's name and unit: at most one row per line, and none when the user's cart holds none of the lines' recipes; its sums are stated by `CartRowsTotal` and `CartRowsPerIngredient` |
| ShoppingList.ShoppingCartRows | backend/api/views.py:88-94 | the whole query: never longer than the line table and empty for a user whose cart holds none of the lines' recipes; its totals are stated by `ShoppingCartConservation` and `ShoppingCartPerIngredient` |
| ShoppingList.CartRowsTotal | backend/api/views.py:88-89 | the cart's joined rows sum to the total amount over the lines of the recipes in that user's cart |
| ShoppingList.CartRowsPerIngredient | backend/api/views.py:88-94 | with (name, unit) unique, the rows under an ingredient's key sum that ingredient's cart lines |
| ShoppingList.CartRowsOwnCartOnly | backend/api/views.py:88-89 | only the requesting user's cart pairs matter; other users' carts do not contribute |
| ShoppingList.ShoppingCartConservation | backend/api/views.py:85-95 | the shopping list's total equals the total amount over the user's cart lines |
| ShoppingList.ShoppingCartPerIngredient | backend/api/views.py:85-95 | each ingredient's entry equals the sum of its amounts over the user's cart lines |
| ShoppingList.EntryLines | backend/api/views.py:66-72 | one "name, amount unit" line per entry, in input order |
| ShoppingList.ExportFile | backend/api/views.py:64-73 | the loop's result is the header "Список покупок:\n\n" followed by the entry lines joined with "\n" |
| ShoppingList.ExportEmpty | backend/api/views.py:73 | an empty list renders as the header alone |
| ShoppingList.ParseEntryLine | backend/api/views.py:68-72 | a rendered line parses back to its entry when the name has no comma |
| ShoppingList.ExportRoundTrip | backend/api/views.py:64-73 | the file parses back to exactly the entries, in order, when names have no comma and no field has a newline |
| Foodgram.AddRelation | backend/api/views.py:38-50 | unknown recipe → not found; existing pair → already exists; otherwise the table gains exactly that pair |
| Foodgram.RemoveRelation | backend/api/views.py:52-62 | unknown recipe or missing pair → not found; otherwise the table loses exactly that pair |
| Foodgram.RelationRoundTrip | backend/api/views.py:38-62 | add then delete restores the table, and so does delete then add |
| Foodgram.RelationTwice | backend/api/serializers.py:301-329 | a second add of the same pair is refused, and so is a second delete |
| Foodgram.RelationFlags | backend/api/serializers.py:140-156 | after an add the flag holds for that requester and recipe; after a delete it does not; every other flag is unchanged |
| Foodgram.AddSubscription | backend/api/views.py:178-189 | unknown author → not found; existing pair → already exists; self → refused; otherwise exactly that pair is added |
| Foodgram.RemoveSubscription | backend/api/views.py:191-199 | unknown author or missing pair → not found; otherwise exactly that pair is removed |
| Foodgram.FollowedBy | backend/api/views.py:164-166 | exactly the authors a with (user, a) a subscription |
| Foodgram.SubscriptionListing | backend/api/views.py:161-199 | subscribing adds the author to the user's listing, and unsubscribing removes it; every other user's listing is unchanged |
| Foodgram.SubscribeKeepsNoSelf | backend/api/serializers.py:57-63 | the endpoints never create a self-subscription, which the table itself would allow |
| Foodgram.Database.Valid | backend/recipes/models.py:18-201 | the model constraints of both models files (foreign keys, ranges, the full-match patterns, uniqueness) plus the serializer's one-line-per-ingredient rule; under it no two lines of one recipe share an ingredient |
| Foodgram.Database.ClearTags | backend/api/serializers.py:279 | the recipe has no tags; other recipes' links are unchanged |
| Foodgram.Database.SetTags | backend/api/serializers.py:271 | the recipe's tag set equals the submitted ids; other recipes' links are unchanged |
| Foodgram.Database.ClearIngredients | backend/api/serializers.py:281 | the table loses exactly the recipe's lines, the rest in order |
| Foodgram.Database.CreateIngredients | backend/api/serializers.py:253-263 | the loop appends one line per item and keeps the table valid |
| Foodgram.Database.AddRecipeRow | backend/api/serializers.py:269 | `Recipe.objects.create`: the row goes under the next id, which was free, the counter advances, and the new recipe has no lines yet; `Valid()` is kept |
| Foodgram.Database.Create | backend/api/serializers.py:265-273 | invalid payload → its errors, nothing changes; otherwise a fresh id, the recipe's fields with name and text stripped, tags = the submitted set, lines = one per item; nothing else changes |
| Foodgram.Database.Update | backend/api/serializers.py:275-283 | unknown id → not found; invalid → errors, nothing changes; otherwise replace-all: tags and lines are exactly the new ones, no old line or tag of that recipe survives, other recipes keep theirs, fields are updated with name and text stripped |
| Foodgram.Database.CreateRelation | backend/api/views.py:38-50 | the chosen table follows `AddRelation`; the other table is unchanged |
| Foodgram.Database.DeleteRelation | backend/api/views.py:52-62 | the chosen table follows `RemoveRelation`; the other table is unchanged |
| Foodgram.Database.Subscribe | backend/api/views.py:178-189 | the subscription table follows `AddSubscription` |
| Foodgram.Database.Unsubscribe | backend/api/views.py:191-199 | the subscription table follows `RemoveSubscription` |
| Foodgram.Database.Subscriptions | backend/api/views.py:161-166 | exactly the users that the requester follows |
| Foodgram.Database.AuthorRecipes | backend/api/serializers.py:85 | exactly the author's recipes, newest first, with no recipe listed twice |
| Foodgram.Database.RecipesPreview | backend/api/serializers.py:82-88 | a prefix of the author's recipes, newest first, at most `recipes_limit` long, and all of them when fewer exist |
| Foodgram.Database.DownloadShoppingCart | backend/api/views.py:85-95 | the file is the rendering of the user's grouped, summed, name-ordered cart lines |

## Left out

- Authentication and permissions (`IsAuthenticated`, `IsAuthorOrAdminOrReadOnly`): the requester is a parameter, and anyone may call every method.
- Pagination of recipe and subscription listings, and the listing's ordering by username: `Subscriptions` returns a set.
- `recipes_count` of the subscription listing: the count of `AuthorRecipes` is not stated separately.
- Base64 image decoding and the `image` field: opaque foreign library behaviour.
- The clock: `pub_date` is the parameter `now`. The download's `datetime.today()` file name and `Content-Disposition` header are HTTP plumbing, so only the text content is modelled.
- The `max_length` limits on names, slugs, colours, usernames and emails: `foodgram/global_constants.py` is not part of this model, and backend/foodgram/settings.py does not define the username and email limits (`MAX_LENGTH_USERNAME`, `MAX_LENGTH_EMAIL`) that backend/users/models.py:14 and :24 read from it.
- PATCH partial updates: `Update` takes a full payload, as the serializer requires `tags` and `ingredients` on update.
- Recipe deletion and `on_delete=CASCADE`: no endpoint in the core deletes recipes or users.
- User registration and djoser's user endpoints: users are given at construction.
- A `recipes_limit` that is not an integer (Python's `int()` raises): `GetRecipes` takes an already-parsed integer.
- Serializer response bodies and HTTP status codes: an outcome is `Pass`/`Success` or an error value.
- Database collation: names are ordered by Unicode code point.
- `Recipe.__str__`, `Tag.__str__`, `User.__str__` and `IngredientInRecipe.__str__`: display-only renderings.
- The admin site, filters, management commands and migrations: configuration and I/O outside the domain layer.
- Transactions: each method is atomic on the model's state.
- Foodgram.Database.CreateIngredients: requires that the recipe has no lines yet and that the items are validated. Both callers guarantee this; called directly on a recipe with lines, the source would insert rows the model's invariant forbids.

## Findings

| source | as written | input that shows it | evidently intended | confidence | as-written member | corrected member |
|---|---|---|---|---|---|---|
| backend/users/models.py:17-20 | `RegexValidator(r'^[а-яА-Я ]+$')` runs `re.search`, and Python's `$` also matches just before a final newline | the username "Иван\n" passes | only Cyrillic letters and spaces, with the newline rejected (pattern ending in `\Z`) | not executed; medium: the serializer framework trims surrounding whitespace from API input by default, so the gap is reachable only through other write paths | Users.UsernameTrailingNewline | Users.UsernameAsWrittenGap |
| backend/recipes/models.py:86-91 | `RegexValidator('^#([A-Fa-f0-9]{6}\|[A-Fa-f0-9]{3})$')` has the same `$` behaviour | the colour "#fff\n" passes | '#' followed by exactly 3 or 6 hex digits | not executed; medium: tags are written by the admin site and management commands, not by the API | Recipes.HexColorTrailingNewline | Recipes.HexColorAsWrittenGap |

The corrected predicates `Users.ValidUsername` and `Recipes.ValidHexColor` are the full-match forms. `Database.Valid()` uses them.
