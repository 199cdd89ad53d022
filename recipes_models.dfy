/** The recipe tables (backend/recipes/models.py): rows as datatypes, the
    field validators and uniqueness constraints as predicates, queries on the
    ingredient-line table, `Ingredient.__str__`, and the default orderings. */
module Recipes {
  import opened Text
  import opened Ordering
  import opened Users

  type RecipeId = nat
  type TagId = nat
  type IngredientId = nat

  const MinCookingTime: int := 1
  const MaxCookingTime: int := 32767
  const MinAmount: int := 1
  const MaxAmount: int := 32767

  predicate CookingTimeInRange(t: int)
  {
    MinCookingTime <= t <= MaxCookingTime
  }

  predicate AmountInRange(a: int)
  {
    MinAmount <= a <= MaxAmount
  }

  /** `pubDate` stands for the `auto_now_add` timestamp. */
  datatype Recipe = Recipe(author: UserId, name: string, text: string, cookingTime: int, pubDate: int)

  datatype Tag = Tag(name: string, color: string, slug: string)

  datatype Ingredient = Ingredient(name: string, unit: string)

  /** One `IngredientInRecipe` row. */
  datatype Line = Line(recipe: RecipeId, ingredient: IngredientId, amount: int)

  // ---------------------------------------------------------------------
  // Tag colour

  predicate IsHexDigit(c: char)
  {
    ('0' <= c <= '9') || ('a' <= c <= 'f') || ('A' <= c <= 'F')
  }

  /** A whole-string match of `#([A-Fa-f0-9]{6}|[A-Fa-f0-9]{3})`. */
  predicate ValidHexColor(s: string)
    ensures ValidHexColor(s) ==> '\n' !in s
  {
    && (|s| == 4 || |s| == 7)
    && s[0] == '#'
    && forall i :: 1 <= i < |s| ==> IsHexDigit(s[i])
  }

  /** What `^#([A-Fa-f0-9]{6}|[A-Fa-f0-9]{3})$` accepts under `re.search`:
      Python's `$` also matches just before a final newline. */
  predicate HexColorAsWritten(s: string)
    ensures HexColorAsWritten(s) && '\n' !in s ==> ValidHexColor(s)
  {
    ValidHexColor(s) || (|s| > 0 && s[|s| - 1] == '\n' && ValidHexColor(s[..|s| - 1]))
  }

  /** The pattern as written accepts a colour followed by a newline. */
  lemma HexColorTrailingNewline()
    ensures HexColorAsWritten("#fff\n") && !ValidHexColor("#fff\n")
  {
    var s := "#fff\n";
    assert s[..|s| - 1] == "#fff";
  }

  /** A valid colour is `#` and three or six hexadecimal digits, and the
      pattern as written accepts nothing else except by a trailing newline. */
  lemma {:induction false} HexColorAsWrittenGap(s: string)
    ensures ValidHexColor(s) ==> HexColorAsWritten(s) && '\n' !in s
    ensures HexColorAsWritten(s) && !ValidHexColor(s) ==> |s| == 5 || |s| == 8
    ensures HexColorAsWritten(s) && '\n' !in s ==> ValidHexColor(s)
  {
    if HexColorAsWritten(s) && !ValidHexColor(s) {
      assert s[|s| - 1] in s;
    }
    if ValidHexColor(s) {
      forall i | 0 <= i < |s| ensures s[i] != '\n' {
        if i > 0 {
          assert IsHexDigit(s[i]);
        }
      }
    }
  }

  /** Every colour is valid; name, colour and slug are each unique across tags. */
  ghost predicate TagsValid(tags: map<TagId, Tag>)
  {
    && (forall t :: t in tags ==> ValidHexColor(tags[t].color))
    && (forall t, u :: t in tags && u in tags && t != u ==>
          && tags[t].name != tags[u].name
          && tags[t].color != tags[u].color
          && tags[t].slug != tags[u].slug)
  }

  // ---------------------------------------------------------------------
  // Ingredients

  /** The constraint "unique measurement_unit": (name, unit) pairs are unique. */
  ghost predicate IngredientsUnique(ingredients: map<IngredientId, Ingredient>)
  {
    forall i, j :: i in ingredients && j in ingredients && i != j ==> ingredients[i] != ingredients[j]
  }

  /** `Ingredient.__str__`: "name, unit". */
  function IngredientStr(i: Ingredient): (s: string)
    ensures |i.name| + 2 <= |s| && s[..|i.name|] == i.name && s[|i.name|..|i.name| + 2] == ", "
    ensures |i.unit| <= |s| && s[|s| - |i.unit|..] == i.unit
  {
    i.name + ", " + i.unit
  }

  /** The rendering identifies the ingredient when names hold no comma. */
  lemma IngredientStrInjective(i: Ingredient, j: Ingredient)
    requires ',' !in i.name && ',' !in j.name
    requires IngredientStr(i) == IngredientStr(j)
    ensures i == j
  {
    var s := IngredientStr(i);
    var k := IndexOf(s, ',');
    assert s[|i.name|] == ',' && s[|j.name|] == ',';
    assert k == |i.name| == |j.name|;
    assert i.name == s[..k] == j.name;
    assert i.unit == s[k + 2..] == j.unit;
  }

  /** Without that condition two distinct (name, unit) pairs, which the
      uniqueness constraint admits side by side, render alike. */
  lemma IngredientStrAmbiguous()
    ensures Ingredient("a, b", "c") != Ingredient("a", "b, c")
    ensures IngredientStr(Ingredient("a, b", "c")) == IngredientStr(Ingredient("a", "b, c"))
  {
  }

  // ---------------------------------------------------------------------
  // Recipes

  /** Every recipe has an existing author and a cooking time in range, and
      every id lies below the next id to be handed out. */
  ghost predicate RecipesValid(recipes: map<RecipeId, Recipe>, users: set<UserId>, nextId: RecipeId)
  {
    forall r :: r in recipes ==>
      r < nextId && recipes[r].author in users && CookingTimeInRange(recipes[r].cookingTime)
  }

  /** The `Recipe.tags` link table refers to existing recipes and tags. */
  ghost predicate RecipeTagsValid(links: set<(RecipeId, TagId)>, recipes: set<RecipeId>, tags: set<TagId>)
  {
    forall p :: p in links ==> p.0 in recipes && p.1 in tags
  }

  /** The tags of recipe `r`. */
  function TagsOf(links: set<(RecipeId, TagId)>, r: RecipeId): set<TagId>
  {
    set p | p in links && p.0 == r :: p.1
  }

  /** `Favorite` and `ShoppingCart` rows refer to existing users and recipes;
      (recipe, user) pairs are unique because each table is a set. */
  ghost predicate PairsValid(rel: set<(UserId, RecipeId)>, users: set<UserId>, recipes: set<RecipeId>)
  {
    forall p :: p in rel ==> p.0 in users && p.1 in recipes
  }

  // ---------------------------------------------------------------------
  // Ingredient lines

  /** No two rows are equal: the constraint "unique ingredient and amount"
      on (recipe, ingredient, amount). */
  ghost predicate NoDuplicateRows(lines: seq<Line>)
  {
    forall i, j :: 0 <= i < j < |lines| ==> lines[i] != lines[j]
  }

  /** Within a recipe, an ingredient has at most one line: the rule that the
      recipe serializer enforces on every write, stronger than the table's. */
  ghost predicate KeyedByIngredient(lines: seq<Line>)
  {
    forall a, b :: a in lines && b in lines && a.recipe == b.recipe && a.ingredient == b.ingredient ==> a == b
  }

  ghost predicate LinesValid(lines: seq<Line>, recipes: set<RecipeId>, ingredients: set<IngredientId>)
  {
    && NoDuplicateRows(lines)
    && KeyedByIngredient(lines)
    && forall l :: l in lines ==> l.recipe in recipes && l.ingredient in ingredients && AmountInRange(l.amount)
  }

  /** Under the serializer's rule no two rows of a recipe share an ingredient,
      whatever their amounts; the table's own constraint allows that. */
  lemma KeyedLinesDistinctIngredients(lines: seq<Line>, i: nat, j: nat)
    requires NoDuplicateRows(lines) && KeyedByIngredient(lines)
    requires i < j < |lines| && lines[i].recipe == lines[j].recipe
    ensures lines[i].ingredient != lines[j].ingredient
  {
    assert lines[i] in lines && lines[j] in lines;
  }

  lemma TableConstraintIsWeaker()
    ensures NoDuplicateRows([Line(0, 0, 1), Line(0, 0, 2)])
    ensures !KeyedByIngredient([Line(0, 0, 1), Line(0, 0, 2)])
  {
    var s := [Line(0, 0, 1), Line(0, 0, 2)];
    assert s[0] in s && s[1] in s;
  }

  /** `recipe.recipe_ingredients`: the lines of recipe `r`, in table order. */
  function LinesOf(lines: seq<Line>, r: RecipeId): (res: seq<Line>)
    ensures forall l :: l in res <==> l in lines && l.recipe == r
  {
    if lines == [] then []
    else (if lines[0].recipe == r then [lines[0]] else []) + LinesOf(lines[1..], r)
  }

  /** The table after `recipe.ingredients.clear()` on recipe `r`. */
  function LinesNotOf(lines: seq<Line>, r: RecipeId): (res: seq<Line>)
    ensures forall l :: l in res <==> l in lines && l.recipe != r
  {
    if lines == [] then []
    else (if lines[0].recipe != r then [lines[0]] else []) + LinesNotOf(lines[1..], r)
  }

  lemma {:induction false} LinesOfAppend(a: seq<Line>, b: seq<Line>, r: RecipeId)
    ensures LinesOf(a + b, r) == LinesOf(a, r) + LinesOf(b, r)
  {
    if a != [] {
      LinesOfAppend(a[1..], b, r);
      assert (a + b)[1..] == a[1..] + b;
    } else {
      assert a + b == b;
    }
  }

  lemma {:induction false} LinesOfAllOrNone(s: seq<Line>, r: RecipeId, r': RecipeId)
    requires forall l :: l in s ==> l.recipe == r
    ensures LinesOf(s, r') == if r' == r then s else []
  {
    if s != [] {
      LinesOfAllOrNone(s[1..], r, r');
      assert s == [s[0]] + s[1..];
    }
  }

  lemma {:induction false} LinesOfAbsent(s: seq<Line>, r: RecipeId)
    requires forall l :: l in s ==> l.recipe != r
    ensures LinesOf(s, r) == []
  {
    if s != [] {
      LinesOfAbsent(s[1..], r);
      assert s[0] in s;
    }
  }

  lemma {:induction false} LinesOfNotOf(s: seq<Line>, r: RecipeId, r': RecipeId)
    ensures LinesOf(LinesNotOf(s, r), r') == if r' == r then [] else LinesOf(s, r')
  {
    if s != [] {
      LinesOfNotOf(s[1..], r, r');
      var h := if s[0].recipe != r then [s[0]] else [];
      LinesOfAppend(h, LinesNotOf(s[1..], r), r');
    }
  }

  /** Dropping rows keeps rows pairwise distinct. */
  lemma {:induction false} LinesNotOfNoDuplicates(s: seq<Line>, r: RecipeId)
    requires NoDuplicateRows(s)
    ensures NoDuplicateRows(LinesNotOf(s, r))
  {
    if s != [] {
      LinesNotOfNoDuplicates(s[1..], r);
      var t := LinesNotOf(s[1..], r);
      if s[0].recipe != r {
        forall k | 0 <= k < |s| - 1 ensures s[1..][k] != s[0] {
          assert s[1..][k] == s[k + 1];
        }
        assert s[0] !in t;
        var u := [s[0]] + t;
        forall i, j | 0 <= i < j < |u| ensures u[i] != u[j] {
          if i == 0 {
            assert u[j] == t[j - 1] && u[j] in t;
          } else {
            assert u[i] == t[i - 1] && u[j] == t[j - 1];
          }
        }
      } else {
        assert LinesNotOf(s, r) == [] + t;
      }
    }
  }

  /** Replace-all: after the lines of `r` are cleared and `added` (all of `r`)
      appended, `r` has exactly `added` and every other recipe keeps its lines. */
  lemma ReplaceLines(s: seq<Line>, r: RecipeId, added: seq<Line>, r': RecipeId)
    requires forall l :: l in added ==> l.recipe == r
    ensures LinesOf(LinesNotOf(s, r) + added, r') == if r' == r then added else LinesOf(s, r')
  {
    LinesOfAppend(LinesNotOf(s, r), added, r');
    LinesOfNotOf(s, r, r');
    LinesOfAllOrNone(added, r, r');
  }

  // ---------------------------------------------------------------------
  // Default orderings

  function PubDate(recipes: map<RecipeId, Recipe>, r: RecipeId): int
  {
    if r in recipes then recipes[r].pubDate else 0
  }

  /** `ordering = ('-pub_date',)`: newest first. */
  function NewestFirst(recipes: map<RecipeId, Recipe>): (le: (RecipeId, RecipeId) -> bool)
  {
    (a: RecipeId, b: RecipeId) => PubDate(recipes, a) >= PubDate(recipes, b)
  }

  /** `ordering = ('name',)`. */
  function ByName(ingredients: map<IngredientId, Ingredient>): (le: (IngredientId, IngredientId) -> bool)
  {
    (a, b) => StrLe(if a in ingredients then ingredients[a].name else "",
                    if b in ingredients then ingredients[b].name else "")
  }

  /** `author.recipes.all()`: the ids below `bound` of `author`'s recipes, in id order. */
  function RecipesOfAuthor(recipes: map<RecipeId, Recipe>, bound: nat, author: UserId): (res: seq<RecipeId>)
    ensures forall r :: r in res <==> r < bound && r in recipes && recipes[r].author == author
    ensures NoDuplicates(res)
  {
    if bound == 0 then []
    else
      var prev := RecipesOfAuthor(recipes, bound - 1, author);
      if bound - 1 in recipes && recipes[bound - 1].author == author then prev + [bound - 1] else prev
  }

  ghost predicate NoDuplicates<T>(s: seq<T>)
  {
    forall i, j :: 0 <= i < j < |s| ==> s[i] != s[j]
  }

  /** In a repeat-free sequence every value occurs at most once. */
  lemma {:induction false} NoDuplicatesCount<T>(s: seq<T>, x: T)
    requires NoDuplicates(s)
    ensures multiset(s)[x] <= 1
  {
    if s != [] {
      var t := s[1..];
      forall i, j | 0 <= i < j < |t| ensures t[i] != t[j] {
        assert t[i] == s[i + 1] && t[j] == s[j + 1];
      }
      NoDuplicatesCount(t, x);
      assert s == [s[0]] + t;
      forall k | 0 <= k < |t| ensures t[k] != s[0] {
        assert t[k] == s[k + 1];
      }
      assert s[0] !in multiset(t);
    }
  }

  /** A value at two positions occurs at least twice. */
  lemma RepeatCount<T>(t: seq<T>, i: nat, j: nat)
    requires i < j < |t|
    ensures t[i] == t[j] ==> multiset(t)[t[j]] >= 2
  {
    assert t == t[..j] + t[j..];
    assert t[..j][i] == t[i] && t[j..][0] == t[j];
    assert t[i] in multiset(t[..j]) && t[j] in multiset(t[j..]);
  }

  /** A permutation of a repeat-free sequence is repeat-free. */
  lemma PermutationNoDuplicates<T>(s: seq<T>, t: seq<T>)
    requires NoDuplicates(s) && multiset(s) == multiset(t)
    ensures NoDuplicates(t)
  {
    forall i, j | 0 <= i < j < |t| ensures t[i] != t[j] {
      NoDuplicatesCount(s, t[j]);
      RepeatCount(t, i, j);
    }
  }

  /** A recipe listing in the default order: newest first, same recipes. */
  lemma RecipeOrder(recipes: map<RecipeId, Recipe>, ids: seq<RecipeId>)
    ensures var r := Sort(ids, NewestFirst(recipes));
      && multiset(r) == multiset(ids)
      && forall i, j :: 0 <= i < j < |r| ==> PubDate(recipes, r[i]) >= PubDate(recipes, r[j])
  {
    SortSorted(ids, NewestFirst(recipes));
  }

  /** An ingredient listing in the default order: ascending by name, same ingredients. */
  lemma IngredientOrder(ingredients: map<IngredientId, Ingredient>, ids: seq<IngredientId>)
    requires forall i :: i in ids ==> i in ingredients
    ensures var r := Sort(ids, ByName(ingredients));
      && multiset(r) == multiset(ids)
      && (forall k :: 0 <= k < |r| ==> r[k] in ingredients)
      && forall i, j :: 0 <= i < j < |r| ==> StrLe(ingredients[r[i]].name, ingredients[r[j]].name)
  {
    var le := ByName(ingredients);
    forall a, b ensures le(a, b) || le(b, a) {
      var x := if a in ingredients then ingredients[a].name else "";
      var y := if b in ingredients then ingredients[b].name else "";
      StrLeTotal(x, y);
    }
    forall a, b, c | le(a, b) && le(b, c) ensures le(a, c) {
      var x := if a in ingredients then ingredients[a].name else "";
      var y := if b in ingredients then ingredients[b].name else "";
      var z := if c in ingredients then ingredients[c].name else "";
      StrLeTransitive(x, y, z);
    }
    SortSorted(ids, le);
    var r := Sort(ids, le);
    forall k | 0 <= k < |r| ensures r[k] in ingredients {
      assert r[k] in multiset(ids);
    }
  }
}
