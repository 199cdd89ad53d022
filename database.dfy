/** The state the API changes (backend/api/views.py and the write path of
    backend/api/serializers.py): recipe creation and replace-all update, the
    favourite and shopping-cart toggles, subscriptions, the subscription
    listing with its recipe preview, and the shopping-list download. The
    tables are fields of one `Database` object; each endpoint is a method
    whose postcondition ties the new tables to the old ones. */
module Foodgram {
  import opened Results
  import opened Text
  import opened Users
  import opened Recipes
  import opened Serializers
  import opened ShoppingList
  import opened Ordering

  /** The two per-user recipe tables that `create_relation` and
      `delete_relation` work on. */
  datatype RelationKind = Favorites | ShoppingCarts

  datatype WriteError = RecipeNotFound | InvalidPayload(errors: set<PayloadError>)

  // ---------------------------------------------------------------------
  // The toggles as transitions of one table

  /** `create_relation`: 404 for an unknown recipe, then the serializer's
      duplicate check, then the new row. */
  function AddRelation(rel: set<(UserId, RecipeId)>, recipes: set<RecipeId>, user: UserId, recipe: RecipeId)
    : (r: Result<set<(UserId, RecipeId)>, RelationError>)
    ensures recipe !in recipes ==> r == Failure(NotFound)
    ensures recipe in recipes && (user, recipe) in rel ==> r == Failure(AlreadyExists)
    ensures r.Success? <==> recipe in recipes && (user, recipe) !in rel
    ensures r.Success? ==> (user, recipe) in r.value && r.value - {(user, recipe)} == rel
  {
    if recipe !in recipes then Failure(NotFound)
    else match ValidateRelation(rel, user, recipe)
      case Fail(e) => Failure(e)
      case Pass => Success(rel + {(user, recipe)})
  }

  /** `delete_relation`: 404 for an unknown recipe or a missing row,
      otherwise that one row goes. */
  function RemoveRelation(rel: set<(UserId, RecipeId)>, recipes: set<RecipeId>, user: UserId, recipe: RecipeId)
    : (r: Result<set<(UserId, RecipeId)>, RelationError>)
    ensures r.Failure? ==> r.error == NotFound
    ensures r.Success? <==> recipe in recipes && (user, recipe) in rel
    ensures r.Success? ==> (user, recipe) !in r.value && r.value + {(user, recipe)} == rel
  {
    if recipe !in recipes || (user, recipe) !in rel then Failure(NotFound)
    else Success(rel - {(user, recipe)})
  }

  /** Adding a row and then deleting it gives back the table, and so does
      deleting a row and adding it again. */
  lemma RelationRoundTrip(rel: set<(UserId, RecipeId)>, recipes: set<RecipeId>, user: UserId, recipe: RecipeId)
    ensures AddRelation(rel, recipes, user, recipe).Success? ==>
      RemoveRelation(AddRelation(rel, recipes, user, recipe).value, recipes, user, recipe) == Success(rel)
    ensures RemoveRelation(rel, recipes, user, recipe).Success? ==>
      AddRelation(RemoveRelation(rel, recipes, user, recipe).value, recipes, user, recipe) == Success(rel)
  {
  }

  /** A second add of the same pair is refused, and so is a second delete. */
  lemma RelationTwice(rel: set<(UserId, RecipeId)>, recipes: set<RecipeId>, user: UserId, recipe: RecipeId)
    ensures AddRelation(rel, recipes, user, recipe).Success? ==>
      AddRelation(AddRelation(rel, recipes, user, recipe).value, recipes, user, recipe) == Failure(AlreadyExists)
    ensures RemoveRelation(rel, recipes, user, recipe).Success? ==>
      RemoveRelation(RemoveRelation(rel, recipes, user, recipe).value, recipes, user, recipe) == Failure(NotFound)
  {
  }

  /** What `is_favorited` / `is_in_shopping_cart` report after a toggle:
      the toggled pair flips, every other (requester, recipe) stays. */
  lemma RelationFlags(rel: set<(UserId, RecipeId)>, recipes: set<RecipeId>, user: UserId, recipe: RecipeId,
                      requester: Option<UserId>, other: RecipeId)
    ensures var a := AddRelation(rel, recipes, user, recipe);
      a.Success? ==>
        && IsRelated(Some(user), a.value, recipe)
        && (requester != Some(user) || other != recipe ==>
              IsRelated(requester, a.value, other) == IsRelated(requester, rel, other))
    ensures var d := RemoveRelation(rel, recipes, user, recipe);
      d.Success? ==>
        && !IsRelated(Some(user), d.value, recipe)
        && (requester != Some(user) || other != recipe ==>
              IsRelated(requester, d.value, other) == IsRelated(requester, rel, other))
  {
  }

  /** `subscribe`: 404 for an unknown author, then the serializer's checks
      (an existing pair first, then a self-subscription), then the new row. */
  function AddSubscription(subs: set<(UserId, UserId)>, users: set<UserId>, user: UserId, author: UserId)
    : (r: Result<set<(UserId, UserId)>, RelationError>)
    ensures author !in users ==> r == Failure(NotFound)
    ensures author in users && (user, author) in subs ==> r == Failure(AlreadyExists)
    ensures author in users && (user, author) !in subs && user == author ==> r == Failure(SelfSubscription)
    ensures r.Success? <==> author in users && (user, author) !in subs && user != author
    ensures r.Success? ==> (user, author) in r.value && r.value - {(user, author)} == subs
  {
    if author !in users then Failure(NotFound)
    else match ValidateSubscribe(subs, user, author)
      case Fail(e) => Failure(e)
      case Pass => Success(subs + {(user, author)})
  }

  /** `unsubscribe`: 404 for an unknown author or a missing pair. */
  function RemoveSubscription(subs: set<(UserId, UserId)>, users: set<UserId>, user: UserId, author: UserId)
    : (r: Result<set<(UserId, UserId)>, RelationError>)
    ensures r.Failure? ==> r.error == NotFound
    ensures r.Success? <==> author in users && (user, author) in subs
    ensures r.Success? ==> (user, author) !in r.value && r.value + {(user, author)} == subs
  {
    if author !in users || (user, author) !in subs then Failure(NotFound)
    else Success(subs - {(user, author)})
  }

  /** `User.objects.filter(author__user=user)`: the authors `user` follows. */
  function FollowedBy(subs: set<(UserId, UserId)>, user: UserId): (authors: set<UserId>)
    ensures forall a :: a in authors <==> IsSubscribed(Some(user), subs, a)
  {
    set p | p in subs && p.0 == user :: p.1
  }

  /** After a subscription `user` follows `author` as well, and every other
      user follows whom they followed before; unsubscribing is the reverse. */
  lemma SubscriptionListing(subs: set<(UserId, UserId)>, users: set<UserId>, user: UserId, author: UserId, other: UserId)
    requires other != user
    ensures var a := AddSubscription(subs, users, user, author);
      a.Success? ==>
        && FollowedBy(a.value, user) == FollowedBy(subs, user) + {author}
        && FollowedBy(a.value, other) == FollowedBy(subs, other)
    ensures var d := RemoveSubscription(subs, users, user, author);
      d.Success? ==>
        && FollowedBy(d.value, user) == FollowedBy(subs, user) - {author}
        && FollowedBy(d.value, other) == FollowedBy(subs, other)
  {
  }

  /** No user follows themself. */
  ghost predicate NoSelfSubscription(subs: set<(UserId, UserId)>)
  {
    forall p :: p in subs ==> p.0 != p.1
  }

  /** The endpoints never create a self-subscription; only a row written
      some other way (the table itself allows one) breaks this. */
  lemma SubscribeKeepsNoSelf(subs: set<(UserId, UserId)>, users: set<UserId>, user: UserId, author: UserId)
    requires NoSelfSubscription(subs)
    ensures AddSubscription(subs, users, user, author).Success? ==>
      NoSelfSubscription(AddSubscription(subs, users, user, author).value)
    ensures RemoveSubscription(subs, users, user, author).Success? ==>
      NoSelfSubscription(RemoveSubscription(subs, users, user, author).value)
  {
  }

  // ---------------------------------------------------------------------
  // The tables

  class Database {
    var users: map<UserId, User>
    var tags: map<TagId, Tag>
    var ingredients: map<IngredientId, Ingredient>
    var recipes: map<RecipeId, Recipe>
    /** The `Recipe.tags` link table. */
    var recipeTags: set<(RecipeId, TagId)>
    /** The `IngredientInRecipe` table, in insertion order. */
    var lines: seq<Line>
    var favorites: set<(UserId, RecipeId)>
    var carts: set<(UserId, RecipeId)>
    var subscriptions: set<(UserId, UserId)>
    /** The id the next created recipe gets. */
    var nextRecipeId: RecipeId

    ghost predicate Valid()
      reads this
      ensures Valid() ==> forall i, j :: 0 <= i < j < |lines| && lines[i].recipe == lines[j].recipe ==>
        lines[i].ingredient != lines[j].ingredient
    {
      && UsersValid(users)
      && TagsValid(tags)
      && IngredientsUnique(ingredients)
      && RecipesValid(recipes, users.Keys, nextRecipeId)
      && RecipeTagsValid(recipeTags, recipes.Keys, tags.Keys)
      && LinesValid(lines, recipes.Keys, ingredients.Keys)
      && PairsValid(favorites, users.Keys, recipes.Keys)
      && PairsValid(carts, users.Keys, recipes.Keys)
      && SubscriptionsValid(subscriptions, users.Keys)
    }

    /** Users, tags and ingredients are given; there are no recipes yet. */
    constructor (users0: map<UserId, User>, tags0: map<TagId, Tag>, ingredients0: map<IngredientId, Ingredient>)
      requires UsersValid(users0) && TagsValid(tags0) && IngredientsUnique(ingredients0)
      ensures Valid()
      ensures users == users0 && tags == tags0 && ingredients == ingredients0
      ensures recipes == map[] && recipeTags == {} && lines == []
      ensures favorites == {} && carts == {} && subscriptions == {} && nextRecipeId == 0
    {
      users, tags, ingredients := users0, tags0, ingredients0;
      recipes, recipeTags, lines := map[], {}, [];
      favorites, carts, subscriptions := {}, {}, {};
      nextRecipeId := 0;
    }

    function Relation(kind: RelationKind): set<(UserId, RecipeId)>
      reads this
    {
      match kind
      case Favorites => favorites
      case ShoppingCarts => carts
    }

    // -------------------------------------------------------------------
    // Recipe writes

    /** `recipe.tags.clear()`: `r` loses its tags, other recipes keep theirs. */
    method ClearTags(r: RecipeId)
      requires Valid()
      modifies this`recipeTags
      ensures Valid()
      ensures TagsOf(recipeTags, r) == {}
      ensures forall p: (RecipeId, TagId) :: p.0 != r ==> (p in recipeTags <==> p in old(recipeTags))
    {
      recipeTags := set p | p in recipeTags && p.0 != r;
    }

    /** `recipe.tags.set(ts)`: the links of `r` not in `ts` go, the missing
        ones are added; other recipes keep theirs. */
    method SetTags(r: RecipeId, ts: seq<TagId>)
      requires Valid() && r in recipes && forall t :: t in ts ==> t in tags
      modifies this`recipeTags
      ensures Valid()
      ensures TagsOf(recipeTags, r) == SetOf(ts)
      ensures forall p: (RecipeId, TagId) :: p.0 != r ==> (p in recipeTags <==> p in old(recipeTags))
    {
      var stale := set p | p in recipeTags && p.0 == r && p.1 !in ts;
      var missing := set t | t in ts && (r, t) !in recipeTags :: (r, t);
      recipeTags := recipeTags - stale + missing;
      forall t ensures t in TagsOf(recipeTags, r) <==> t in ts {
        if t in ts {
          assert (r, t) in recipeTags;
        }
      }
    }

    /** `recipe.ingredients.clear()`: the lines of `r` go, the others stay in order. */
    method ClearIngredients(r: RecipeId)
      requires Valid()
      modifies this`lines
      ensures Valid()
      ensures lines == LinesNotOf(old(lines), r)
    {
      LinesNotOfNoDuplicates(lines, r);
      lines := LinesNotOf(lines, r);
    }

    /** `create_ingredients`: one new line per item, appended in item order.
        Both callers first make sure `r` has no lines and pass validated items. */
    method CreateIngredients(items: seq<IngredientItem>, r: RecipeId)
      requires Valid() && r in recipes
      requires forall l :: l in lines ==> l.recipe != r
      requires forall it :: it in items ==> it.id in ingredients && AmountInRange(it.amount)
      requires NoDuplicates(ItemIds(items))
      modifies this`lines
      ensures Valid()
      ensures lines == old(lines) + LinesFor(r, items)
    {
      var rows: seq<Line> := [];
      for i := 0 to |items|
        invariant |rows| == i
        invariant forall k :: 0 <= k < i ==> rows[k] == Line(r, items[k].id, items[k].amount)
      {
        rows := rows + [Line(r, items[i].id, items[i].amount)];
      }
      AppendLinesValid(lines, r, items, recipes.Keys, ingredients.Keys);
      lines := lines + rows;
    }

    /** `RecipeCreateUpdateSerializer.create`: validate, then a new recipe
        authored by `author` at time `now`, its tags, then its lines. On a
        validation error nothing changes. */
    method Create(author: UserId, p: RecipePayload, now: int) returns (res: Result<RecipeId, set<PayloadError>>)
      requires Valid() && author in users
      modifies this
      ensures Valid()
      ensures var v := Validate(p, old(tags).Keys, old(ingredients).Keys);
        && (v.Failure? ==> res == Failure(v.error) && unchanged(this))
        && (v.Success? ==> res.Success?)
      ensures res.Success? ==>
        && res.value == old(nextRecipeId) && res.value !in old(recipes)
        && nextRecipeId == old(nextRecipeId) + 1
        && recipes == old(recipes)[res.value := Recipe(author, Strip(p.name), Strip(p.text), p.cookingTime, now)]
        && TagsOf(recipeTags, res.value) == SetOf(p.tags)
        && (forall q: (RecipeId, TagId) :: q.0 != res.value ==> (q in recipeTags <==> q in old(recipeTags)))
        && lines == old(lines) + LinesFor(res.value, p.ingredients)
        && LinesOf(lines, res.value) == LinesFor(res.value, p.ingredients)
      ensures unchanged(this`users, this`tags, this`ingredients, this`favorites, this`carts, this`subscriptions)
    {
      var v := Validate(p, tags.Keys, ingredients.Keys);
      if v.Failure? {
        return Failure(v.error);
      }
      Accepted(p, tags.Keys, ingredients.Keys);
      var id := Insert(author, v.value, now);
      res := Success(id);
    }

    /** `Recipe.objects.create`: the row under the next id, with no tag
        links and no lines yet. */
    method AddRecipeRow(row: Recipe) returns (id: RecipeId)
      requires Valid() && row.author in users && CookingTimeInRange(row.cookingTime)
      modifies this`recipes, this`nextRecipeId
      ensures Valid()
      ensures id == old(nextRecipeId) && id !in old(recipes) && nextRecipeId == old(nextRecipeId) + 1
      ensures recipes == old(recipes)[id := row]
      ensures forall l :: l in lines ==> l.recipe != id
    {
      id := nextRecipeId;
      recipes := recipes[id := row];
      nextRecipeId := nextRecipeId + 1;
    }

    /** The writes of a successful `create`: the recipe row under the next
        id, its tag links, then its lines. */
    method Insert(author: UserId, q: RecipePayload, now: int) returns (id: RecipeId)
      requires Valid() && author in users
      requires forall t :: t in q.tags ==> t in tags
      requires forall it :: it in q.ingredients ==> it.id in ingredients && AmountInRange(it.amount)
      requires NoDuplicates(ItemIds(q.ingredients)) && CookingTimeInRange(q.cookingTime)
      modifies this
      ensures Valid()
      ensures id == old(nextRecipeId) && id !in old(recipes) && nextRecipeId == old(nextRecipeId) + 1
      ensures recipes == old(recipes)[id := Recipe(author, q.name, q.text, q.cookingTime, now)]
      ensures TagsOf(recipeTags, id) == SetOf(q.tags)
      ensures forall r: (RecipeId, TagId) :: r.0 != id ==> (r in recipeTags <==> r in old(recipeTags))
      ensures lines == old(lines) + LinesFor(id, q.ingredients)
      ensures LinesOf(lines, id) == LinesFor(id, q.ingredients)
      ensures unchanged(this`users, this`tags, this`ingredients, this`favorites, this`carts, this`subscriptions)
    {
      ghost var before := lines;
      id := AddRecipeRow(Recipe(author, q.name, q.text, q.cookingTime, now));
      SetTags(id, q.tags);
      CreateIngredients(q.ingredients, id);
      LinesOfAppend(before, LinesFor(id, q.ingredients), id);
      LinesOfAllOrNone(LinesFor(id, q.ingredients), id, id);
      LinesOfAbsent(before, id);
    }

    /** `RecipeCreateUpdateSerializer.update` behind the viewset's lookup:
        404 for an unknown recipe, then validation; on success the recipe's
        tags and lines are replaced by the payload's, then its fields. */
    method Update(id: RecipeId, p: RecipePayload) returns (res: Outcome<WriteError>)
      requires Valid()
      modifies this
      ensures Valid()
      ensures id !in old(recipes) ==> res == Fail(RecipeNotFound) && unchanged(this)
      ensures id in old(recipes) ==>
        var v := Validate(p, old(tags).Keys, old(ingredients).Keys);
        && (v.Failure? ==> res == Fail(InvalidPayload(v.error)) && unchanged(this))
        && (v.Success? ==> res == Pass)
      ensures res.Pass? ==>
        && recipes == old(recipes)[id := old(recipes)[id].(name := Strip(p.name), text := Strip(p.text), cookingTime := p.cookingTime)]
        && TagsOf(recipeTags, id) == SetOf(p.tags)
        && (forall q: (RecipeId, TagId) :: q.0 != id ==> (q in recipeTags <==> q in old(recipeTags)))
        && lines == LinesNotOf(old(lines), id) + LinesFor(id, p.ingredients)
        && LinesOf(lines, id) == LinesFor(id, p.ingredients)
        && (forall r :: r != id ==> LinesOf(lines, r) == LinesOf(old(lines), r))
      ensures nextRecipeId == old(nextRecipeId)
      ensures unchanged(this`users, this`tags, this`ingredients, this`favorites, this`carts, this`subscriptions)
    {
      if id !in recipes {
        return Fail(RecipeNotFound);
      }
      var v := Validate(p, tags.Keys, ingredients.Keys);
      if v.Failure? {
        return Fail(InvalidPayload(v.error));
      }
      Accepted(p, tags.Keys, ingredients.Keys);
      Rewrite(id, v.value);
      res := Pass;
    }

    /** The writes of a successful `update`: the recipe's tag links and
        lines are replaced by the payload's, then its fields are set. */
    method Rewrite(id: RecipeId, q: RecipePayload)
      requires Valid() && id in recipes
      requires forall t :: t in q.tags ==> t in tags
      requires forall it :: it in q.ingredients ==> it.id in ingredients && AmountInRange(it.amount)
      requires NoDuplicates(ItemIds(q.ingredients)) && CookingTimeInRange(q.cookingTime)
      modifies this
      ensures Valid()
      ensures recipes == old(recipes)[id := old(recipes)[id].(name := q.name, text := q.text, cookingTime := q.cookingTime)]
      ensures TagsOf(recipeTags, id) == SetOf(q.tags)
      ensures forall r: (RecipeId, TagId) :: r.0 != id ==> (r in recipeTags <==> r in old(recipeTags))
      ensures lines == LinesNotOf(old(lines), id) + LinesFor(id, q.ingredients)
      ensures LinesOf(lines, id) == LinesFor(id, q.ingredients)
      ensures forall r :: r != id ==> LinesOf(lines, r) == LinesOf(old(lines), r)
      ensures nextRecipeId == old(nextRecipeId)
      ensures unchanged(this`users, this`tags, this`ingredients, this`favorites, this`carts, this`subscriptions)
    {
      ClearTags(id);
      SetTags(id, q.tags);
      ClearIngredients(id);
      CreateIngredients(q.ingredients, id);
      recipes := recipes[id := recipes[id].(name := q.name, text := q.text, cookingTime := q.cookingTime)];
      var added := LinesFor(id, q.ingredients);
      forall r ensures LinesOf(lines, r) == if r == id then added else LinesOf(old(lines), r) {
        ReplaceLines(old(lines), id, added, r);
      }
    }

    // -------------------------------------------------------------------
    // Favourites and the shopping cart

    /** `favorite` / `shopping_cart` (POST) for the requesting `user`. */
    method CreateRelation(kind: RelationKind, user: UserId, recipe: RecipeId) returns (res: Outcome<RelationError>)
      requires Valid() && user in users
      modifies this`favorites, this`carts
      ensures Valid()
      ensures var r := AddRelation(old(Relation(kind)), recipes.Keys, user, recipe);
        && (r.Success? ==> res == Pass && Relation(kind) == r.value)
        && (r.Failure? ==> res == Fail(r.error) && Relation(kind) == old(Relation(kind)))
      ensures kind == Favorites ==> carts == old(carts)
      ensures kind == ShoppingCarts ==> favorites == old(favorites)
    {
      if recipe !in recipes {
        return Fail(NotFound);
      }
      var o := ValidateRelation(Relation(kind), user, recipe);
      if o.Fail? {
        return Fail(o.error);
      }
      match kind {
        case Favorites => favorites := favorites + {(user, recipe)};
        case ShoppingCarts => carts := carts + {(user, recipe)};
      }
      res := Pass;
    }

    /** `delete_favorite` / `delete_shopping_cart` for the requesting `user`. */
    method DeleteRelation(kind: RelationKind, user: UserId, recipe: RecipeId) returns (res: Outcome<RelationError>)
      requires Valid()
      modifies this`favorites, this`carts
      ensures Valid()
      ensures var r := RemoveRelation(old(Relation(kind)), recipes.Keys, user, recipe);
        && (r.Success? ==> res == Pass && Relation(kind) == r.value)
        && (r.Failure? ==> res == Fail(r.error) && Relation(kind) == old(Relation(kind)))
      ensures kind == Favorites ==> carts == old(carts)
      ensures kind == ShoppingCarts ==> favorites == old(favorites)
    {
      if recipe !in recipes || (user, recipe) !in Relation(kind) {
        return Fail(NotFound);
      }
      match kind {
        case Favorites => favorites := favorites - {(user, recipe)};
        case ShoppingCarts => carts := carts - {(user, recipe)};
      }
      res := Pass;
    }

    // -------------------------------------------------------------------
    // Subscriptions

    /** `subscribe` for the requesting `user`. */
    method Subscribe(user: UserId, author: UserId) returns (res: Outcome<RelationError>)
      requires Valid() && user in users
      modifies this`subscriptions
      ensures Valid()
      ensures var r := AddSubscription(old(subscriptions), users.Keys, user, author);
        && (r.Success? ==> res == Pass && subscriptions == r.value)
        && (r.Failure? ==> res == Fail(r.error) && subscriptions == old(subscriptions))
    {
      if author !in users {
        return Fail(NotFound);
      }
      var o := ValidateSubscribe(subscriptions, user, author);
      if o.Fail? {
        return Fail(o.error);
      }
      subscriptions := subscriptions + {(user, author)};
      res := Pass;
    }

    /** `unsubscribe` for the requesting `user`. */
    method Unsubscribe(user: UserId, author: UserId) returns (res: Outcome<RelationError>)
      requires Valid()
      modifies this`subscriptions
      ensures Valid()
      ensures var r := RemoveSubscription(old(subscriptions), users.Keys, user, author);
        && (r.Success? ==> res == Pass && subscriptions == r.value)
        && (r.Failure? ==> res == Fail(r.error) && subscriptions == old(subscriptions))
    {
      if author !in users || (user, author) !in subscriptions {
        return Fail(NotFound);
      }
      subscriptions := subscriptions - {(user, author)};
      res := Pass;
    }

    /** `subscriptions`: the users that `user` follows. */
    function Subscriptions(user: UserId): (authors: set<UserId>)
      reads this
      requires Valid()
      ensures forall a :: a in authors <==> a in users && IsSubscribed(Some(user), subscriptions, a)
    {
      FollowedBy(subscriptions, user)
    }

    /** `author.recipes.all()` in the default order: all of `author`'s
        recipes, newest first. */
    function AuthorRecipes(author: UserId): (rs: seq<RecipeId>)
      reads this
      requires Valid()
      ensures forall r :: r in rs <==> r in recipes && recipes[r].author == author
      ensures NoDuplicates(rs)
      ensures forall i, j :: 0 <= i < j < |rs| ==> rs[i] in recipes && recipes[rs[i]].pubDate >= PubDate(recipes, rs[j])
    {
      var ids := RecipesOfAuthor(recipes, nextRecipeId, author);
      RecipeOrder(recipes, ids);
      var rs := Sort(ids, NewestFirst(recipes));
      PermutationNoDuplicates(ids, rs);
      assert forall r :: r in rs <==> r in ids by {
        forall r ensures r in rs <==> r in ids {
          assert r in rs <==> r in multiset(rs);
        }
      }
      rs
    }

    /** `get_recipes` of one followed author: the author's newest recipes,
        at most `recipes_limit` of them when a limit is given. */
    function RecipesPreview(author: UserId, limit: Option<int>): (r: Result<seq<RecipeId>, LimitError>)
      reads this
      requires Valid()
      ensures limit.None? ==> r == Success(AuthorRecipes(author))
      ensures limit.Some? && limit.value < 0 ==> r.Failure?
      ensures limit.Some? && limit.value >= 0 ==>
        && r.Success?
        && |r.value| <= limit.value
        && r.value <= AuthorRecipes(author)
        && (|r.value| < limit.value ==> r.value == AuthorRecipes(author))
      ensures r.Success? ==> forall x :: x in r.value ==> x in recipes && recipes[x].author == author
    {
      GetRecipes(AuthorRecipes(author), limit)
    }

    // -------------------------------------------------------------------
    // Shopping list

    /** `download_shopping_cart`: the file for `user`'s cart. */
    method DownloadShoppingCart(user: UserId) returns (content: string)
      requires Valid()
      ensures content == ShoppingListText(ShoppingCartRows(lines, ingredients, carts, user))
    {
      content := ExportFile(ShoppingCartRows(lines, ingredients, carts, user));
    }
  }
}
