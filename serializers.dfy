/** The serializer rules (backend/api/serializers.py): recipe payload
    validation, the duplicate checks of the favourite, cart and subscription
    serializers, the `is_*` fields and the `recipes_limit` preview. */
module Serializers {
  import opened Results
  import opened Text
  import opened Users
  import opened Recipes

  /** One item of the `ingredients` list of a recipe payload. */
  datatype IngredientItem = IngredientItem(id: IngredientId, amount: int)

  /** A create or update payload; the image is not modelled. */
  datatype RecipePayload = RecipePayload(
    tags: seq<TagId>,
    ingredients: seq<IngredientItem>,
    name: string,
    text: string,
    cookingTime: int)

  datatype PayloadError =
    | UnknownTag              // a tag id with no tag (PrimaryKeyRelatedField)
    | UnknownIngredient       // an ingredient id with no ingredient
    | AmountOutOfRange        // an amount outside 1..32767
    | CookingTimeOutOfRange   // a cooking time outside 1..32767
    | BlankName               // a name that is empty or all whitespace
    | BlankText               // a text that is empty or all whitespace
    | NullInName              // a name holding the NUL character
    | NullInText              // a text holding the NUL character
    | DuplicateTags
    | NoTags
    | DuplicateIngredients
    | NoIngredients

  datatype RelationError = NotFound | AlreadyExists | SelfSubscription

  function ItemIds(items: seq<IngredientItem>): (ids: seq<IngredientId>)
    ensures |ids| == |items| && forall k :: 0 <= k < |items| ==> ids[k] == items[k].id
  {
    seq(|items|, k requires 0 <= k < |items| => items[k].id)
  }

  /** Python's `set(xs)`. */
  function SetOf<T>(s: seq<T>): set<T>
  {
    set x | x in s
  }

  /** The set of a sequence's elements has as many members as the sequence
      has entries exactly when no entry repeats: the source's
      `len(xs) != len(set(xs))` test detects a repetition. */
  lemma {:induction false} SetSizeDetectsDuplicates<T>(s: seq<T>)
    ensures |SetOf(s)| <= |s|
    ensures |SetOf(s)| == |s| <==> NoDuplicates(s)
  {
    if s != [] {
      var t := s[1..];
      SetSizeDetectsDuplicates(t);
      assert SetOf(s) == {s[0]} + SetOf(t) by {
        assert s == [s[0]] + t;
      }
      if s[0] in t {
        var k :| 0 <= k < |t| && t[k] == s[0];
        assert s[k + 1] == s[0];
      } else {
        if NoDuplicates(t) {
          forall i, j | 0 <= i < j < |s| ensures s[i] != s[j] {
            if i > 0 {
              assert s[i] == t[i - 1] && s[j] == t[j - 1];
            } else {
              assert s[j] == t[j - 1];
            }
          }
        } else {
          var i, j :| 0 <= i < j < |t| && t[i] == t[j];
          assert s[i + 1] == s[j + 1];
        }
      }
    }
  }

  /** A character field generated from a model field without `blank=True`
      refuses a value that is empty once stripped. */
  predicate Blank(s: string)
  {
    Strip(s) == ""
  }

  /** Blank means empty or made of whitespace only. */
  lemma BlankMeansWhitespace(s: string)
    ensures Blank(s) <==> forall k :: 0 <= k < |s| ==> IsSpace(s[k])
  {
    StripProperties(s);
  }

  /** Every character field also refuses the NUL character. The check runs on
      the stripped value, which holds a NUL exactly when the submitted one
      does; a blank value holds none, so a field fails at most one of the
      two checks. */
  lemma NullSurvivesStrip(s: string)
    ensures '\0' in Strip(s) <==> '\0' in s
    ensures Blank(s) ==> '\0' !in s
  {
    StripKeeps(s, '\0');
  }

  /** The field-level checks all pass. */
  predicate FieldsValid(p: RecipePayload, knownTags: set<TagId>, knownIngredients: set<IngredientId>)
  {
    && (forall t :: t in p.tags ==> t in knownTags)
    && (forall it :: it in p.ingredients ==> it.id in knownIngredients && AmountInRange(it.amount))
    && CookingTimeInRange(p.cookingTime)
    && !Blank(p.name) && !Blank(p.text)
    && '\0' !in p.name && '\0' !in p.text
  }

  /** The validated data: the character fields come back stripped of
      surrounding whitespace, everything else as submitted. */
  function Cleaned(p: RecipePayload): RecipePayload
  {
    p.(name := Strip(p.name), text := Strip(p.text))
  }

  /** The errors a field-level check can raise. */
  const FieldChecks: set<PayloadError> :=
    {UnknownTag, UnknownIngredient, AmountOutOfRange, CookingTimeOutOfRange, BlankName, BlankText, NullInName, NullInText}

  /** Whether the field-level check behind error `e` fails on `p`. */
  predicate FieldFails(p: RecipePayload, knownTags: set<TagId>, knownIngredients: set<IngredientId>, e: PayloadError)
  {
    match e
    case UnknownTag => exists t :: t in p.tags && t !in knownTags
    case UnknownIngredient => exists it :: it in p.ingredients && it.id !in knownIngredients
    case AmountOutOfRange => exists it :: it in p.ingredients && !AmountInRange(it.amount)
    case CookingTimeOutOfRange => !CookingTimeInRange(p.cookingTime)
    case BlankName => Blank(p.name)
    case BlankText => Blank(p.text)
    case NullInName => '\0' in p.name
    case NullInText => '\0' in p.text
    case _ => false
  }

  /** The errors of the field-level checks, which DRF collects together
      before `validate` runs. */
  function FieldErrors(p: RecipePayload, knownTags: set<TagId>, knownIngredients: set<IngredientId>): (errs: set<PayloadError>)
    ensures errs == {} <==> FieldsValid(p, knownTags, knownIngredients)
    ensures UnknownTag in errs <==> exists t :: t in p.tags && t !in knownTags
    ensures UnknownIngredient in errs <==> exists it :: it in p.ingredients && it.id !in knownIngredients
    ensures AmountOutOfRange in errs <==> exists it :: it in p.ingredients && !AmountInRange(it.amount)
    ensures CookingTimeOutOfRange in errs <==> !CookingTimeInRange(p.cookingTime)
    ensures BlankName in errs <==> Blank(p.name)
    ensures BlankText in errs <==> Blank(p.text)
    ensures NullInName in errs <==> '\0' in p.name
    ensures NullInText in errs <==> '\0' in p.text
    ensures errs <= FieldChecks
  {
    var errs := set e | e in FieldChecks && FieldFails(p, knownTags, knownIngredients, e);
    FieldErrorsKinds(p, knownTags, knownIngredients, errs);
    FieldErrorsText(p, knownTags, knownIngredients, errs);
    FieldErrorsEmpty(p, knownTags, knownIngredients, errs);
    errs
  }

  /** An unknown reference or an out-of-range number is among the checked
      errors exactly when its check fails; nothing else is checked. */
  lemma FieldErrorsKinds(p: RecipePayload, knownTags: set<TagId>, knownIngredients: set<IngredientId>, errs: set<PayloadError>)
    requires forall e :: e in errs <==> e in FieldChecks && FieldFails(p, knownTags, knownIngredients, e)
    ensures UnknownTag in errs <==> exists t :: t in p.tags && t !in knownTags
    ensures UnknownIngredient in errs <==> exists it :: it in p.ingredients && it.id !in knownIngredients
    ensures AmountOutOfRange in errs <==> exists it :: it in p.ingredients && !AmountInRange(it.amount)
    ensures CookingTimeOutOfRange in errs <==> !CookingTimeInRange(p.cookingTime)
    ensures errs <= FieldChecks
  {
  }

  /** A blank value or a NUL character in `name` or `text` is among the
      checked errors exactly when it occurs. */
  lemma FieldErrorsText(p: RecipePayload, knownTags: set<TagId>, knownIngredients: set<IngredientId>, errs: set<PayloadError>)
    requires forall e :: e in errs <==> e in FieldChecks && FieldFails(p, knownTags, knownIngredients, e)
    ensures BlankName in errs <==> Blank(p.name)
    ensures BlankText in errs <==> Blank(p.text)
    ensures NullInName in errs <==> '\0' in p.name
    ensures NullInText in errs <==> '\0' in p.text
  {
  }

  /** The checked errors are none exactly when every field check passes. */
  lemma FieldErrorsEmpty(p: RecipePayload, knownTags: set<TagId>, knownIngredients: set<IngredientId>, errs: set<PayloadError>)
    requires forall e :: e in errs <==> e in FieldChecks && FieldFails(p, knownTags, knownIngredients, e)
    ensures errs == {} <==> FieldsValid(p, knownTags, knownIngredients)
  {
    if errs != {} {
      var e :| e in errs;
      assert FieldFails(p, knownTags, knownIngredients, e);
    } else {
      assert UnknownTag !in errs && UnknownIngredient !in errs && AmountOutOfRange !in errs;
      assert CookingTimeOutOfRange !in errs && BlankName !in errs && BlankText !in errs;
      assert NullInName !in errs && NullInText !in errs;
    }
  }

  /** `RecipeCreateUpdateSerializer.is_valid`: the field checks, then
      `validate`, which stops at its first failing check. */
  function Validate(p: RecipePayload, knownTags: set<TagId>, knownIngredients: set<IngredientId>): (r: Result<RecipePayload, set<PayloadError>>)
    ensures r.Success? <==>
      && FieldsValid(p, knownTags, knownIngredients)
      && |p.tags| > 0 && NoDuplicates(p.tags)
      && |p.ingredients| > 0 && NoDuplicates(ItemIds(p.ingredients))
    ensures r.Success? ==> r.value == Cleaned(p)
    ensures !FieldsValid(p, knownTags, knownIngredients) ==> r == Failure(FieldErrors(p, knownTags, knownIngredients))
    ensures FieldsValid(p, knownTags, knownIngredients) ==>
      if !NoDuplicates(p.tags) then r == Failure({DuplicateTags})
      else if |p.tags| == 0 then r == Failure({NoTags})
      else if !NoDuplicates(ItemIds(p.ingredients)) then r == Failure({DuplicateIngredients})
      else if |p.ingredients| == 0 then r == Failure({NoIngredients})
      else r.Success?
  {
    var errs := FieldErrors(p, knownTags, knownIngredients);
    SetSizeDetectsDuplicates(p.tags);
    SetSizeDetectsDuplicates(ItemIds(p.ingredients));
    if errs != {} then Failure(errs)
    else if |p.tags| != |SetOf(p.tags)| then Failure({DuplicateTags})
    else if |p.tags| == 0 then Failure({NoTags})
    else if |p.ingredients| != |SetOf(ItemIds(p.ingredients))| then Failure({DuplicateIngredients})
    else if |p.ingredients| == 0 then Failure({NoIngredients})
    else Success(Cleaned(p))
  }

  /** What the write path relies on from an accepted payload. */
  lemma Accepted(p: RecipePayload, knownTags: set<TagId>, knownIngredients: set<IngredientId>)
    requires Validate(p, knownTags, knownIngredients).Success?
    ensures Validate(p, knownTags, knownIngredients).value == Cleaned(p)
    ensures forall t :: t in p.tags ==> t in knownTags
    ensures forall it :: it in p.ingredients ==> it.id in knownIngredients && AmountInRange(it.amount)
    ensures NoDuplicates(ItemIds(p.ingredients))
    ensures CookingTimeInRange(p.cookingTime)
  {
  }

  /** `create_ingredients`: one line per item, carrying its id and amount. */
  function LinesFor(r: RecipeId, items: seq<IngredientItem>): (ls: seq<Line>)
    ensures |ls| == |items|
    ensures forall k :: 0 <= k < |items| ==> ls[k] == Line(r, items[k].id, items[k].amount)
  {
    seq(|items|, k requires 0 <= k < |items| => Line(r, items[k].id, items[k].amount))
  }

  /** Appending the lines of a validated payload to a recipe that has none
      keeps the table valid: no duplicate row, and no ingredient twice in
      the recipe. */
  lemma AppendLinesValid(lines: seq<Line>, r: RecipeId, items: seq<IngredientItem>,
                         recipeIds: set<RecipeId>, ingredientIds: set<IngredientId>)
    requires LinesValid(lines, recipeIds, ingredientIds) && r in recipeIds
    requires forall l :: l in lines ==> l.recipe != r
    requires forall it :: it in items ==> it.id in ingredientIds && AmountInRange(it.amount)
    requires NoDuplicates(ItemIds(items))
    ensures LinesValid(lines + LinesFor(r, items), recipeIds, ingredientIds)
  {
    var added := LinesFor(r, items);
    var all := lines + added;
    forall a, b | a in all && b in all && a.recipe == b.recipe && a.ingredient == b.ingredient
      ensures a == b
    {
      if a in added && b in added {
        var i :| 0 <= i < |added| && added[i] == a;
        var j :| 0 <= j < |added| && added[j] == b;
        assert ItemIds(items)[i] == ItemIds(items)[j];
      }
    }
    forall i, j | 0 <= i < j < |all| ensures all[i] != all[j] {
      if j >= |lines| {
        if i >= |lines| {
          assert ItemIds(items)[i - |lines|] == all[i].ingredient;
          assert ItemIds(items)[j - |lines|] == all[j].ingredient;
        } else {
          assert all[i] in lines;
        }
      }
    }
    forall l | l in all ensures l.recipe in recipeIds && l.ingredient in ingredientIds && AmountInRange(l.amount) {
      if l in added {
        var i :| 0 <= i < |added| && added[i] == l;
        assert items[i] in items;
      }
    }
  }

  /** `FavoriteSerializer.validate` / `ShoppingCartSerializer.validate`. */
  function ValidateRelation(rel: set<(UserId, RecipeId)>, user: UserId, recipe: RecipeId): (o: Outcome<RelationError>)
    ensures o.Pass? <==> (user, recipe) !in rel
    ensures o.Fail? ==> o.error == AlreadyExists
  {
    if (user, recipe) in rel then Fail(AlreadyExists) else Pass
  }

  /** `SubscribeSerializer.validate`: an existing pair is reported first,
      then a self-subscription. */
  function ValidateSubscribe(subscriptions: set<(UserId, UserId)>, user: UserId, author: UserId): (o: Outcome<RelationError>)
    ensures o.Pass? <==> (user, author) !in subscriptions && user != author
    ensures (user, author) in subscriptions ==> o == Fail(AlreadyExists)
    ensures (user, author) !in subscriptions && user == author ==> o == Fail(SelfSubscription)
  {
    if (user, author) in subscriptions then Fail(AlreadyExists)
    else if user == author then Fail(SelfSubscription)
    else Pass
  }

  /** `get_is_favorited` / `get_is_in_shopping_cart`: `requester` is None for
      an anonymous request. */
  function IsRelated(requester: Option<UserId>, rel: set<(UserId, RecipeId)>, recipe: RecipeId): (b: bool)
    ensures b <==> exists u :: requester == Some(u) && (u, recipe) in rel
  {
    requester.Some? && (requester.value, recipe) in rel
  }

  /** `get_is_subscribed`: whether the requester follows `author`. */
  function IsSubscribed(requester: Option<UserId>, subscriptions: set<(UserId, UserId)>, author: UserId): (b: bool)
    ensures b <==> exists u :: requester == Some(u) && (u, author) in subscriptions
  {
    requester.Some? && (requester.value, author) in subscriptions
  }

  datatype LimitError = NegativeLimit

  /** `SubscriptionSerializer.get_recipes`: with no (or an empty)
      `recipes_limit` all of `recipes`, else its first `n`; a negative `n`
      is refused by the query-set slice. */
  function GetRecipes(recipes: seq<RecipeId>, limit: Option<int>): (r: Result<seq<RecipeId>, LimitError>)
    ensures limit.None? ==> r == Success(recipes)
    ensures limit.Some? && limit.value < 0 ==> r == Failure(NegativeLimit)
    ensures limit.Some? && limit.value >= 0 ==>
      && r.Success?
      && |r.value| == (if limit.value < |recipes| then limit.value else |recipes|)
      && r.value <= recipes
  {
    match limit
    case None => Success(recipes)
    case Some(n) =>
      if n < 0 then Failure(NegativeLimit)
      else if n < |recipes| then Success(recipes[..n])
      else Success(recipes)
  }
}
