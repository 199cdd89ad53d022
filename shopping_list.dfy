/** The shopping list (backend/api/views.py, `download_shopping_cart` and
    `export_file`): the ingredient lines of the recipes in one user's cart,
    grouped by (name, unit) with their amounts summed and ordered by name,
    then rendered as text under a fixed header. */
module ShoppingList {
  import opened Results
  import opened Text
  import opened Users
  import opened Recipes

  /** One row of the query: `name`, `measurement_unit` and `amount`. */
  datatype Row = Row(name: string, unit: string, amount: nat)

  type Key = (string, string)

  function KeyOf(r: Row): Key
  {
    (r.name, r.unit)
  }

  /** Order by name, then by unit. */
  predicate KeyLt(a: Key, b: Key)
  {
    StrLt(a.0, b.0) || (a.0 == b.0 && StrLt(a.1, b.1))
  }

  lemma KeyLtIrreflexive(a: Key)
    ensures !KeyLt(a, a)
  {
    StrLtIrreflexive(a.0);
    StrLtIrreflexive(a.1);
  }

  lemma KeyLtTransitive(a: Key, b: Key, c: Key)
    requires KeyLt(a, b) && KeyLt(b, c)
    ensures KeyLt(a, c)
  {
    if StrLt(a.0, b.0) && StrLt(b.0, c.0) {
      StrLtTransitive(a.0, b.0, c.0);
    } else if a.0 == b.0 && b.0 == c.0 {
      StrLtTransitive(a.1, b.1, c.1);
    }
  }

  lemma KeyLtTotal(a: Key, b: Key)
    ensures a == b || KeyLt(a, b) || KeyLt(b, a)
  {
    StrLtTotal(a.0, b.0);
    StrLtTotal(a.1, b.1);
  }

  ghost predicate StrictlyOrdered(g: seq<Row>)
  {
    forall i, j :: 0 <= i < j < |g| ==> KeyLt(KeyOf(g[i]), KeyOf(g[j]))
  }

  function Keys(rows: seq<Row>): set<Key>
  {
    set r | r in rows :: KeyOf(r)
  }

  /** The sum of the amounts of the rows with key `k`. */
  function AmountFor(rows: seq<Row>, k: Key): nat
  {
    if rows == [] then 0
    else (if KeyOf(rows[0]) == k then rows[0].amount else 0) + AmountFor(rows[1..], k)
  }

  function Total(rows: seq<Row>): nat
  {
    if rows == [] then 0 else rows[0].amount + Total(rows[1..])
  }

  // ---------------------------------------------------------------------
  // Group by (name, unit) and sum

  /** Adds one row to a grouped list: into the group of its key, or as a new
      group at its place in the order. */
  function AddRow(g: seq<Row>, r: Row): seq<Row>
  {
    if g == [] then [r]
    else if KeyOf(g[0]) == KeyOf(r) then [Row(g[0].name, g[0].unit, g[0].amount + r.amount)] + g[1..]
    else if KeyLt(KeyOf(r), KeyOf(g[0])) then [r] + g
    else [g[0]] + AddRow(g[1..], r)
  }

  /** `.values(name, measurement_unit).order_by(name).annotate(amount=Sum('amount'))`. */
  function Aggregate(rows: seq<Row>): (g: seq<Row>)
    ensures |g| <= |rows|
    ensures g == [] <==> rows == []
  {
    if rows == [] then []
    else
      AddRowLength(Aggregate(rows[1..]), rows[0]);
      AddRow(Aggregate(rows[1..]), rows[0])
  }

  /** Adding a row grows a grouped list by at most that one group. */
  lemma {:induction false} AddRowLength(g: seq<Row>, r: Row)
    ensures |g| <= |AddRow(g, r)| <= |g| + 1
  {
    if g != [] && KeyOf(g[0]) != KeyOf(r) && !KeyLt(KeyOf(r), KeyOf(g[0])) {
      AddRowLength(g[1..], r);
    }
  }

  lemma AmountForCons(r: Row, s: seq<Row>, k: Key)
    ensures AmountFor([r] + s, k) == (if KeyOf(r) == k then r.amount else 0) + AmountFor(s, k)
    ensures Total([r] + s) == r.amount + Total(s)
    ensures Keys([r] + s) == {KeyOf(r)} + Keys(s)
  {
    assert ([r] + s)[1..] == s;
  }

  lemma {:induction false} AddRowKeys(g: seq<Row>, r: Row)
    ensures Keys(AddRow(g, r)) == Keys(g) + {KeyOf(r)}
    ensures Total(AddRow(g, r)) == Total(g) + r.amount
    ensures forall k :: AmountFor(AddRow(g, r), k) == AmountFor(g, k) + (if KeyOf(r) == k then r.amount else 0)
  {
    if g == [] {
      forall k ensures AmountFor([r], k) == (if KeyOf(r) == k then r.amount else 0) {
        AmountForCons(r, [], k);
      }
      AmountForCons(r, [], KeyOf(r));
    } else {
      var h, t := g[0], g[1..];
      assert g == [h] + t;
      forall k ensures AmountFor(g, k) == (if KeyOf(h) == k then h.amount else 0) + AmountFor(t, k) {
        AmountForCons(h, t, k);
      }
      AmountForCons(h, t, KeyOf(h));
      if KeyOf(h) == KeyOf(r) {
        var h' := Row(h.name, h.unit, h.amount + r.amount);
        forall k ensures AmountFor([h'] + t, k) == (if KeyOf(h') == k then h'.amount else 0) + AmountFor(t, k) {
          AmountForCons(h', t, k);
        }
        AmountForCons(h', t, KeyOf(h'));
      } else if KeyLt(KeyOf(r), KeyOf(h)) {
        forall k ensures AmountFor([r] + g, k) == (if KeyOf(r) == k then r.amount else 0) + AmountFor(g, k) {
          AmountForCons(r, g, k);
        }
        AmountForCons(r, g, KeyOf(r));
      } else {
        var rest := AddRow(t, r);
        AddRowKeys(t, r);
        forall k ensures AmountFor([h] + rest, k) == (if KeyOf(h) == k then h.amount else 0) + AmountFor(rest, k) {
          AmountForCons(h, rest, k);
        }
        AmountForCons(h, rest, KeyOf(h));
      }
    }
  }

  lemma {:induction false} AddRowOrdered(g: seq<Row>, r: Row)
    requires StrictlyOrdered(g)
    ensures StrictlyOrdered(AddRow(g, r))
  {
    if g != [] {
      var h, t := g[0], g[1..];
      var res := AddRow(g, r);
      if KeyOf(h) == KeyOf(r) {
        forall i, j | 0 <= i < j < |res| ensures KeyLt(KeyOf(res[i]), KeyOf(res[j])) {
          assert KeyOf(res[i]) == KeyOf(g[i]) && KeyOf(res[j]) == KeyOf(g[j]);
        }
      } else if KeyLt(KeyOf(r), KeyOf(h)) {
        forall i, j | 0 <= i < j < |res| ensures KeyLt(KeyOf(res[i]), KeyOf(res[j])) {
          if i == 0 && j > 1 {
            KeyLtTransitive(KeyOf(r), KeyOf(h), KeyOf(g[j - 1]));
          }
        }
      } else {
        KeyLtTotal(KeyOf(r), KeyOf(h));
        var rest := AddRow(t, r);
        AddRowOrdered(t, r);
        AddRowKeys(t, r);
        forall j | 0 <= j < |rest| ensures KeyLt(KeyOf(h), KeyOf(rest[j])) {
          assert KeyOf(rest[j]) in Keys(rest);
          if KeyOf(rest[j]) != KeyOf(r) {
            var x :| x in t && KeyOf(x) == KeyOf(rest[j]);
            var m :| 0 <= m < |t| && t[m] == x;
            assert g[m + 1] == x;
          }
        }
        assert res == [h] + rest;
      }
    }
  }

  /** The summed amount of a key absent from a list is zero. */
  lemma {:induction false} AmountForAbsent(s: seq<Row>, k: Key)
    requires k !in Keys(s)
    ensures AmountFor(s, k) == 0
  {
    if s != [] {
      assert s == [s[0]] + s[1..];
      AmountForCons(s[0], s[1..], k);
      AmountForAbsent(s[1..], k);
    }
  }

  /** In a strictly ordered list each entry is alone with its key. */
  lemma {:induction false} AmountForOrdered(g: seq<Row>, i: nat)
    requires StrictlyOrdered(g) && i < |g|
    ensures AmountFor(g, KeyOf(g[i])) == g[i].amount
  {
    var k := KeyOf(g[i]);
    assert g == [g[0]] + g[1..];
    AmountForCons(g[0], g[1..], k);
    if i == 0 {
      if k in Keys(g[1..]) {
        var x :| x in g[1..] && KeyOf(x) == k;
        var m :| 0 <= m < |g[1..]| && g[1..][m] == x;
        assert g[m + 1] == x;
        KeyLtIrreflexive(k);
      }
      AmountForAbsent(g[1..], k);
    } else {
      AmountForOrdered(g[1..], i - 1);
      KeyLtIrreflexive(k);
      assert KeyOf(g[0]) != k;
    }
  }

  /** Grouping keeps the groups strictly ordered, one group per key of the
      input, each key's amount summed, and the grand total. */
  lemma {:induction false} AggregateSpec(rows: seq<Row>)
    ensures StrictlyOrdered(Aggregate(rows))
    ensures Keys(Aggregate(rows)) == Keys(rows)
    ensures forall k :: AmountFor(Aggregate(rows), k) == AmountFor(rows, k)
    ensures Total(Aggregate(rows)) == Total(rows)
  {
    if rows != [] {
      var r, t := rows[0], rows[1..];
      assert rows == [r] + t;
      AggregateSpec(t);
      AddRowOrdered(Aggregate(t), r);
      AddRowKeys(Aggregate(t), r);
      forall k ensures AmountFor(rows, k) == (if KeyOf(r) == k then r.amount else 0) + AmountFor(t, k) {
        AmountForCons(r, t, k);
      }
      AmountForCons(r, t, KeyOf(r));
    }
  }

  /** What the query promises of its result: ordered by name, one entry per
      distinct (name, unit) of the input, each with that key's summed
      amount, and nothing lost or gained overall. */
  lemma AggregateProperties(rows: seq<Row>)
    ensures var g := Aggregate(rows);
      && (forall i, j :: 0 <= i < j < |g| ==> StrLe(g[i].name, g[j].name) && KeyOf(g[i]) != KeyOf(g[j]))
      && Keys(g) == Keys(rows)
      && (forall i :: 0 <= i < |g| ==> g[i].amount == AmountFor(rows, KeyOf(g[i])))
      && Total(g) == Total(rows)
  {
    var g := Aggregate(rows);
    AggregateSpec(rows);
    forall i, j | 0 <= i < j < |g| ensures StrLe(g[i].name, g[j].name) && KeyOf(g[i]) != KeyOf(g[j]) {
      KeyLtIrreflexive(KeyOf(g[i]));
    }
    forall i | 0 <= i < |g| ensures g[i].amount == AmountFor(rows, KeyOf(g[i])) {
      AmountForOrdered(g, i);
    }
  }

  // ---------------------------------------------------------------------
  // The lines of the recipes in a user's cart

  ghost predicate LinesResolvable(lines: seq<Line>, ingredients: map<IngredientId, Ingredient>)
  {
    forall l :: l in lines ==> l.ingredient in ingredients && l.amount >= 0
  }

  /** `IngredientInRecipe.objects.filter(recipe__shopping_cart__user=user)`,
      each line joined with its ingredient's name and unit. */
  function CartRows(lines: seq<Line>, ingredients: map<IngredientId, Ingredient>, carts: set<(UserId, RecipeId)>, user: UserId): (rs: seq<Row>)
    requires LinesResolvable(lines, ingredients)
    ensures |rs| <= |lines|
    ensures (forall l :: l in lines ==> (user, l.recipe) !in carts) ==> rs == []
  {
    if lines == [] then []
    else
      var l := lines[0];
      (if (user, l.recipe) in carts
       then [Row(ingredients[l.ingredient].name, ingredients[l.ingredient].unit, l.amount)]
       else [])
      + CartRows(lines[1..], ingredients, carts, user)
  }

  /** The summed amount of the lines of `user`'s cart recipes. */
  function CartTotal(lines: seq<Line>, carts: set<(UserId, RecipeId)>, user: UserId): int
  {
    if lines == [] then 0
    else (if (user, lines[0].recipe) in carts then lines[0].amount else 0) + CartTotal(lines[1..], carts, user)
  }

  /** The summed amount of ingredient `id` over the lines of `user`'s cart recipes. */
  function IngredientCartTotal(lines: seq<Line>, carts: set<(UserId, RecipeId)>, user: UserId, id: IngredientId): int
  {
    if lines == [] then 0
    else
      var here := if (user, lines[0].recipe) in carts && lines[0].ingredient == id then lines[0].amount else 0;
      here + IngredientCartTotal(lines[1..], carts, user, id)
  }

  lemma {:induction false} CartRowsTotal(lines: seq<Line>, ingredients: map<IngredientId, Ingredient>, carts: set<(UserId, RecipeId)>, user: UserId)
    requires LinesResolvable(lines, ingredients)
    ensures Total(CartRows(lines, ingredients, carts, user)) == CartTotal(lines, carts, user)
  {
    if lines != [] {
      var l := lines[0];
      var rest := CartRows(lines[1..], ingredients, carts, user);
      CartRowsTotal(lines[1..], ingredients, carts, user);
      if (user, l.recipe) in carts {
        AmountForCons(Row(ingredients[l.ingredient].name, ingredients[l.ingredient].unit, l.amount), rest, ("", ""));
      } else {
        assert CartRows(lines, ingredients, carts, user) == rest;
      }
    }
  }

  /** With (name, unit) unique among ingredients, the group of an
      ingredient's (name, unit) holds exactly that ingredient's lines. */
  lemma {:induction false} CartRowsPerIngredient(lines: seq<Line>, ingredients: map<IngredientId, Ingredient>, carts: set<(UserId, RecipeId)>, user: UserId, id: IngredientId)
    requires LinesResolvable(lines, ingredients)
    requires IngredientsUnique(ingredients) && id in ingredients
    ensures AmountFor(CartRows(lines, ingredients, carts, user), (ingredients[id].name, ingredients[id].unit))
         == IngredientCartTotal(lines, carts, user, id)
  {
    if lines != [] {
      var l := lines[0];
      var k := (ingredients[id].name, ingredients[id].unit);
      var rest := CartRows(lines[1..], ingredients, carts, user);
      CartRowsPerIngredient(lines[1..], ingredients, carts, user, id);
      if (user, l.recipe) in carts {
        var row := Row(ingredients[l.ingredient].name, ingredients[l.ingredient].unit, l.amount);
        AmountForCons(row, rest, k);
        assert KeyOf(row) == k <==> l.ingredient == id;
      } else {
        assert CartRows(lines, ingredients, carts, user) == rest;
      }
    }
  }

  /** Only `user`'s own cart pairs matter: carts that agree on `user` give
      the same rows. */
  lemma {:induction false} CartRowsOwnCartOnly(lines: seq<Line>, ingredients: map<IngredientId, Ingredient>,
                                               carts: set<(UserId, RecipeId)>, carts': set<(UserId, RecipeId)>, user: UserId)
    requires LinesResolvable(lines, ingredients)
    requires forall r :: (user, r) in carts <==> (user, r) in carts'
    ensures CartRows(lines, ingredients, carts, user) == CartRows(lines, ingredients, carts', user)
  {
    if lines != [] {
      CartRowsOwnCartOnly(lines[1..], ingredients, carts, carts', user);
    }
  }

  /** The shopping list of `user`: the cart's lines, grouped by (name, unit)
      and summed. Its total is the total amount over the lines of the cart's
      recipes, and each ingredient's entry sums that ingredient's lines. */
  function ShoppingCartRows(lines: seq<Line>, ingredients: map<IngredientId, Ingredient>, carts: set<(UserId, RecipeId)>, user: UserId): (g: seq<Row>)
    requires LinesResolvable(lines, ingredients)
    ensures |g| <= |lines|
    ensures (forall l :: l in lines ==> (user, l.recipe) !in carts) ==> g == []
  {
    Aggregate(CartRows(lines, ingredients, carts, user))
  }

  lemma ShoppingCartConservation(lines: seq<Line>, ingredients: map<IngredientId, Ingredient>, carts: set<(UserId, RecipeId)>, user: UserId)
    requires LinesResolvable(lines, ingredients)
    ensures Total(ShoppingCartRows(lines, ingredients, carts, user)) == CartTotal(lines, carts, user)
  {
    AggregateSpec(CartRows(lines, ingredients, carts, user));
    CartRowsTotal(lines, ingredients, carts, user);
  }

  lemma ShoppingCartPerIngredient(lines: seq<Line>, ingredients: map<IngredientId, Ingredient>,
                                  carts: set<(UserId, RecipeId)>, user: UserId, id: IngredientId)
    requires LinesResolvable(lines, ingredients)
    requires IngredientsUnique(ingredients) && id in ingredients
    ensures AmountFor(ShoppingCartRows(lines, ingredients, carts, user), (ingredients[id].name, ingredients[id].unit))
         == IngredientCartTotal(lines, carts, user, id)
  {
    AggregateSpec(CartRows(lines, ingredients, carts, user));
    CartRowsPerIngredient(lines, ingredients, carts, user, id);
  }

  // ---------------------------------------------------------------------
  // Export

  const Header: string := "Список покупок:\n\n"

  /** `f'{name}, {amount} {measurement_unit}'`. */
  function EntryLine(e: Row): string
  {
    e.name + ", " + NatToString(e.amount) + " " + e.unit
  }

  function EntryLines(entries: seq<Row>): (ls: seq<string>)
    ensures |ls| == |entries| && forall k :: 0 <= k < |entries| ==> ls[k] == EntryLine(entries[k])
  {
    seq(|entries|, k requires 0 <= k < |entries| => EntryLine(entries[k]))
  }

  /** The file content: the header, then one line per entry joined by "\n". */
  function ShoppingListText(entries: seq<Row>): string
  {
    Header + Join(EntryLines(entries), "\n")
  }

  /** `export_file`: the text content of the download. */
  method ExportFile(entries: seq<Row>) returns (content: string)
    ensures content == ShoppingListText(entries)
  {
    var data: seq<string> := [];
    for i := 0 to |entries|
      invariant |data| == i
      invariant forall k :: 0 <= k < i ==> data[k] == EntryLine(entries[k])
    {
      data := data + [EntryLine(entries[i])];
    }
    assert data == EntryLines(entries);
    content := Header + Join(data, "\n");
  }

  /** An empty list exports just the header. */
  lemma ExportEmpty()
    ensures ShoppingListText([]) == Header
  {
    assert EntryLines([]) == [];
  }

  // Reading an exported list back

  /** Reads "name, amount unit" back, taking the name up to the first comma. */
  function ParseLine(line: string): Option<Row>
  {
    var i := IndexOf(line, ',');
    if i + 1 >= |line| || line[i + 1] != ' ' then None
    else
      var rest := line[i + 2..];
      var d := DigitRun(rest);
      if d == 0 || d >= |rest| || rest[d] != ' ' then None
      else Some(Row(line[..i], rest[d + 1..], ParseNat(rest[..d])))
  }

  function ParseLines(ls: seq<string>): Option<seq<Row>>
  {
    if ls == [] then Some([])
    else
      match ParseLine(ls[0])
      case None => None
      case Some(r) =>
        match ParseLines(ls[1..])
        case None => None
        case Some(rs) => Some([r] + rs)
  }

  function ParseShoppingList(content: string): Option<seq<Row>>
  {
    if |content| < |Header| || content[..|Header|] != Header then None
    else
      var body := content[|Header|..];
      if body == "" then Some([]) else ParseLines(Split(body, '\n'))
  }

  lemma ParseEntryLine(e: Row)
    requires ',' !in e.name
    ensures ParseLine(EntryLine(e)) == Some(e)
  {
    var line := EntryLine(e);
    var digits := NatToString(e.amount);
    var n := |e.name|;
    forall k | 0 <= k < n ensures line[k] != ',' {
      assert line[k] == e.name[k];
    }
    IndexOfAt(line, ',', n);
    var rest := line[n + 2..];
    assert rest == digits + (" " + e.unit);
    DigitRunOf(digits, " " + e.unit);
    assert rest[..|digits|] == digits;
    assert rest[|digits| + 1..] == e.unit;
    assert line[..n] == e.name;
    ParseNatToString(e.amount);
  }

  lemma {:induction false} ParseEntryLines(entries: seq<Row>)
    requires forall e :: e in entries ==> ',' !in e.name
    ensures ParseLines(EntryLines(entries)) == Some(entries)
  {
    if entries != [] {
      ParseEntryLine(entries[0]);
      ParseEntryLines(entries[1..]);
      assert EntryLines(entries)[1..] == EntryLines(entries[1..]);
      assert entries == [entries[0]] + entries[1..];
    }
  }

  /** Round trip: the exported text reads back as the entries it was made
      from, when names hold no comma and names and units no line break. */
  lemma ExportRoundTrip(entries: seq<Row>)
    requires forall e :: e in entries ==> ',' !in e.name && '\n' !in e.name && '\n' !in e.unit
    ensures ParseShoppingList(ShoppingListText(entries)) == Some(entries)
  {
    var ls := EntryLines(entries);
    var body := Join(ls, "\n");
    var content := ShoppingListText(entries);
    assert content[..|Header|] == Header && content[|Header|..] == body;
    if entries == [] {
      assert body == "";
    } else {
      forall k | 0 <= k < |ls| ensures '\n' !in ls[k] {
        var e := entries[k];
        assert entries[k] in entries;
        var digits := NatToString(e.amount);
        assert ls[k] == e.name + ", " + digits + " " + e.unit;
        var n := |e.name|;
        forall j | 0 <= j < |ls[k]| ensures ls[k][j] != '\n' {
          if j < n {
            assert ls[k][j] == e.name[j];
          } else if j < n + 2 {
          } else if j < n + 2 + |digits| {
            assert ls[k][j] == digits[j - n - 2] && IsDigit(digits[j - n - 2]);
          } else if j > n + 2 + |digits| {
            assert ls[k][j] == e.unit[j - n - 3 - |digits|];
          }
        }
      }
      assert |body| > 0 by {
        if |ls| > 1 {
          assert body == ls[0] + "\n" + Join(ls[1..], "\n");
        }
        assert |ls[0]| > 0;
      }
      SplitJoin(ls, '\n');
      ParseEntryLines(entries);
    }
  }
}
