/**
 * The shopping list: the ingredient lines of every recipe in a user's cart, grouped by
 * (ingredient name, measurement unit) with their amounts summed, and the rows of the text file
 * the download writes.
 */
module RecipeViews {
  import opened Base
  import opened Collections
  import opened RecipesModels

  /** The recipes in `user`'s shopping cart. */
  function CartRecipes(cart: set<(UserId, RecipeId)>, user: UserId): (r: set<RecipeId>)
    ensures forall x :: x in r <==> (user, x) in cart
  {
    set p | p in cart && p.0 == user :: p.1
  }

  /** A grouping key: ingredient name and unit; both are NULL for a line whose ingredient was deleted. */
  datatype Key = Key(name: Option<string>, unit: Option<string>)

  /** One aggregated entry, in the order of its output row: name, summed amount, unit. */
  datatype Row = Row(name: Option<string>, totalAmount: int, unit: Option<string>)

  function RowKey(row: Row): Key {
    Key(row.name, row.unit)
  }

  /** The key a line is grouped under, through the join with its ingredient. */
  function KeyOf(ingredients: map<IngredientId, Ingredient>, l: IngredientDetail): Key {
    if l.ingredient.Some? && l.ingredient.value in ingredients then
      Key(Some(ingredients[l.ingredient.value].name), Some(ingredients[l.ingredient.value].measurementUnit))
    else Key(None, None)
  }

  /** A line counts for key `k`: its recipe is in the cart and it is grouped under `k`. */
  function Contributes(ingredients: map<IngredientId, Ingredient>, recipes: set<RecipeId>, k: Key): IngredientDetail -> bool {
    (l: IngredientDetail) => l.recipe in recipes && KeyOf(ingredients, l) == k
  }

  function InRecipes(recipes: set<RecipeId>): IngredientDetail -> bool {
    (l: IngredientDetail) => l.recipe in recipes
  }

  /** The sum of the amounts of some lines. */
  function Sum(ls: seq<IngredientDetail>): int {
    if |ls| == 0 then 0 else Sum(ls[..|ls| - 1]) + ls[|ls| - 1].amount
  }

  /** The reference total of key `k`: the sum of the amounts of all lines that count for it. */
  function Total(lines: seq<IngredientDetail>, ingredients: map<IngredientId, Ingredient>, recipes: set<RecipeId>, k: Key): int {
    Sum(Filter(lines, Contributes(ingredients, recipes, k)))
  }

  predicate HasKey(rows: seq<Row>, k: Key) {
    exists i :: 0 <= i < |rows| && RowKey(rows[i]) == k
  }

  /** The total shown for key `k`, 0 when no row has it. */
  function TotalIn(rows: seq<Row>, k: Key): int {
    if |rows| == 0 then 0
    else if RowKey(rows[0]) == k then rows[0].totalAmount
    else TotalIn(rows[1..], k)
  }

  /** No two rows share a key. */
  predicate KeysDistinct(rows: seq<Row>) {
    forall i, j :: 0 <= i < j < |rows| ==> RowKey(rows[i]) != RowKey(rows[j])
  }

  predicate TotalsPositive(rows: seq<Row>) {
    forall i :: 0 <= i < |rows| ==> rows[i].totalAmount >= 1
  }

  /** One step of the grouping: add `amount` to the row of `k`, or open a row for it at the end. */
  function AddAmount(rows: seq<Row>, k: Key, amount: int): (r: seq<Row>)
    ensures |r| >= 1
    decreases |rows|
  {
    if |rows| == 0 then [Row(k.name, amount, k.unit)]
    else if RowKey(rows[0]) == k then [rows[0].(totalAmount := rows[0].totalAmount + amount)] + rows[1..]
    else [rows[0]] + AddAmount(rows[1..], k, amount)
  }

  lemma HasKeyCons(rows: seq<Row>, k: Key)
    requires |rows| > 0
    ensures HasKey(rows, k) <==> RowKey(rows[0]) == k || HasKey(rows[1..], k)
  {
    var tail := rows[1..];
    if HasKey(rows, k) && RowKey(rows[0]) != k {
      var i :| 0 <= i < |rows| && RowKey(rows[i]) == k;
      assert RowKey(tail[i - 1]) == k;
    }
    if HasKey(tail, k) {
      var i :| 0 <= i < |tail| && RowKey(tail[i]) == k;
      assert RowKey(rows[i + 1]) == k;
    }
  }

  /** After the grouping step the key is present, and every other key is present iff it was before. */
  lemma {:induction false} AddAmountKeys(rows: seq<Row>, k: Key, amount: int, k': Key)
    ensures HasKey(AddAmount(rows, k, amount), k') <==> HasKey(rows, k') || k' == k
    decreases |rows|
  {
    var r := AddAmount(rows, k, amount);
    if |rows| == 0 {
      assert RowKey(r[0]) == k;
    } else if RowKey(rows[0]) == k {
      HasKeyCons(rows, k');
      HasKeyCons(r, k');
      assert r[1..] == rows[1..];
    } else {
      AddAmountKeys(rows[1..], k, amount, k');
      HasKeyCons(rows, k');
      HasKeyCons(r, k');
      assert r[1..] == AddAmount(rows[1..], k, amount);
    }
  }

  /** Adding to a row keeps the keys distinct. */
  lemma {:induction false} AddAmountKeepsKeysDistinct(rows: seq<Row>, k: Key, amount: int)
    requires KeysDistinct(rows)
    ensures KeysDistinct(AddAmount(rows, k, amount))
    decreases |rows|
  {
    if |rows| > 0 && RowKey(rows[0]) != k {
      var tail := rows[1..];
      assert KeysDistinct(tail) by {
        forall i, j | 0 <= i < j < |tail| ensures RowKey(tail[i]) != RowKey(tail[j]) {
          assert tail[i] == rows[i + 1] && tail[j] == rows[j + 1];
        }
      }
      AddAmountKeepsKeysDistinct(tail, k, amount);
      var added := AddAmount(tail, k, amount);
      var r := AddAmount(rows, k, amount);
      assert r == [rows[0]] + added;
      forall i | 0 <= i < |tail| ensures RowKey(tail[i]) != RowKey(rows[0]) {
        assert tail[i] == rows[i + 1];
      }
      forall i, j | 0 <= i < j < |r| ensures RowKey(r[i]) != RowKey(r[j]) {
        assert r[j] == added[j - 1];
        if i == 0 {
          AddAmountKeys(tail, k, amount, RowKey(r[j]));
          assert HasKey(added, RowKey(r[j]));
        } else {
          assert r[i] == added[i - 1];
        }
      }
    } else if |rows| > 0 {
      var r := AddAmount(rows, k, amount);
      forall i, j | 0 <= i < j < |r| ensures RowKey(r[i]) != RowKey(r[j]) {
        assert RowKey(r[i]) == RowKey(rows[i]) && RowKey(r[j]) == RowKey(rows[j]);
      }
    }
  }

  /** Adding `amount` under `k` raises the total of `k` by it and leaves every other total alone. */
  lemma {:induction false} AddAmountTotals(rows: seq<Row>, k: Key, amount: int, k': Key)
    ensures TotalIn(AddAmount(rows, k, amount), k') == TotalIn(rows, k') + (if k' == k then amount else 0)
    decreases |rows|
  {
    if |rows| > 0 && RowKey(rows[0]) != k {
      AddAmountTotals(rows[1..], k, amount, k');
      assert AddAmount(rows, k, amount)[1..] == AddAmount(rows[1..], k, amount);
    } else if |rows| > 0 {
      assert AddAmount(rows, k, amount)[1..] == rows[1..];
    }
  }

  /** Adding a positive amount keeps every total positive. */
  lemma {:induction false} AddAmountKeepsPositive(rows: seq<Row>, k: Key, amount: int)
    requires TotalsPositive(rows) && amount >= 1
    ensures TotalsPositive(AddAmount(rows, k, amount))
    decreases |rows|
  {
    if |rows| > 0 && RowKey(rows[0]) != k {
      var tail := rows[1..];
      assert forall i :: 0 <= i < |tail| ==> tail[i] == rows[i + 1];
      AddAmountKeepsPositive(tail, k, amount);
      var r := AddAmount(rows, k, amount);
      assert forall i :: 0 < i < |r| ==> r[i] == AddAmount(tail, k, amount)[i - 1];
    }
  }

  /**
   * The grouping query (`values(name, unit).annotate(Sum(amount))`) over the lines whose recipe is
   * in `recipes`: one row per key that some such line has, carrying the reference total.
   */
  function Group(lines: seq<IngredientDetail>, ingredients: map<IngredientId, Ingredient>, recipes: set<RecipeId>): (r: seq<Row>)
    ensures KeysDistinct(r)
    ensures forall k :: TotalIn(r, k) == Total(lines, ingredients, recipes, k)
    ensures forall k :: HasKey(r, k) <==> exists l :: l in lines && l.recipe in recipes && KeyOf(ingredients, l) == k
    ensures AmountsValid(lines) ==> TotalsPositive(r)
    decreases |lines|
  {
    if |lines| == 0 then []
    else
      var prefix := lines[..|lines| - 1];
      var l := lines[|lines| - 1];
      assert lines == prefix + [l];
      assert AmountsValid(lines) ==> AmountsValid(prefix);
      var g := Group(prefix, ingredients, recipes);
      var r := if l.recipe in recipes then AddAmount(g, KeyOf(ingredients, l), l.amount) else g;
      assert KeysDistinct(r) && (AmountsValid(lines) ==> TotalsPositive(r)) by {
        if l.recipe in recipes {
          AddAmountKeepsKeysDistinct(g, KeyOf(ingredients, l), l.amount);
          if AmountsValid(lines) {
            AddAmountKeepsPositive(g, KeyOf(ingredients, l), l.amount);
          }
        }
      }
      assert forall k :: HasKey(r, k) <==> exists l' :: l' in lines && l'.recipe in recipes && KeyOf(ingredients, l') == k by {
        forall k ensures HasKey(r, k) <==> exists l' :: l' in lines && l'.recipe in recipes && KeyOf(ingredients, l') == k {
          if l.recipe in recipes {
            AddAmountKeys(g, KeyOf(ingredients, l), l.amount, k);
          }
        }
      }
      assert forall k :: TotalIn(r, k) == Total(lines, ingredients, recipes, k) by {
        forall k ensures TotalIn(r, k) == Total(lines, ingredients, recipes, k) {
          var c := Contributes(ingredients, recipes, k);
          var f := Filter(prefix, c);
          if l.recipe in recipes {
            AddAmountTotals(g, KeyOf(ingredients, l), l.amount, k);
          }
          if c(l) {
            assert Filter(lines, c) == f + [l];
            assert (f + [l])[..|f|] == f;
          } else {
            assert Filter(lines, c) == f;
          }
        }
      }
      r
  }

  /** `get_shopping_list_ingredients`: the grouped lines of the recipes in `user`'s cart. */
  function ShoppingListIngredients(cart: set<(UserId, RecipeId)>, user: UserId,
                                   lines: seq<IngredientDetail>, ingredients: map<IngredientId, Ingredient>): (r: seq<Row>)
    ensures KeysDistinct(r)
    ensures forall k :: TotalIn(r, k) == Sum(Filter(lines, Contributes(ingredients, CartRecipes(cart, user), k)))
    ensures forall k :: HasKey(r, k) <==>
      exists l :: l in lines && (user, l.recipe) in cart && KeyOf(ingredients, l) == k
    ensures AmountsValid(lines) ==> TotalsPositive(r)
  {
    Group(lines, ingredients, CartRecipes(cart, user))
  }

  /** An empty cart gives an empty list. */
  lemma EmptyCartGivesEmptyList(cart: set<(UserId, RecipeId)>, user: UserId,
                                lines: seq<IngredientDetail>, ingredients: map<IngredientId, Ingredient>)
    requires forall x :: (user, x) !in cart
    ensures ShoppingListIngredients(cart, user, lines, ingredients) == []
  {
    var r := ShoppingListIngredients(cart, user, lines, ingredients);
    if |r| > 0 {
      assert HasKey(r, RowKey(r[0]));
    }
  }

  /** Two cart recipes that both use 10 g and 15 g of salt give the one row ("Salt", 25, "g"). */
  lemma SharedIngredientIsMerged()
    ensures ShoppingListIngredients({(1, 10), (1, 11)}, 1,
                                    [IngredientDetail(10, Some(3), 10), IngredientDetail(11, Some(3), 15)],
                                    map[3 := Ingredient(3, "Salt", "g")])
      == [Row(Some("Salt"), 25, Some("g"))]
  {
    var ingredients := map[3 := Ingredient(3, "Salt", "g")];
    var lines := [IngredientDetail(10, Some(3), 10), IngredientDetail(11, Some(3), 15)];
    var recipes := CartRecipes({(1, 10), (1, 11)}, 1);
    assert recipes == {10, 11};
    assert lines[..1] == [lines[0]] && [lines[0]][..0] == [];
    var k := Key(Some("Salt"), Some("g"));
    assert KeyOf(ingredients, lines[0]) == k && KeyOf(ingredients, lines[1]) == k;
    assert Group([lines[0]], ingredients, recipes) == [Row(Some("Salt"), 10, Some("g"))];
  }

  /** Lines of recipes outside the cart change nothing: the list is that of the cart's lines alone. */
  lemma {:induction false} OnlyCartLinesCount(lines: seq<IngredientDetail>, ingredients: map<IngredientId, Ingredient>, recipes: set<RecipeId>)
    ensures Group(lines, ingredients, recipes) == Group(Filter(lines, InRecipes(recipes)), ingredients, recipes)
    decreases |lines|
  {
    if |lines| > 0 {
      var prefix := lines[..|lines| - 1];
      var l := lines[|lines| - 1];
      assert lines == prefix + [l];
      OnlyCartLinesCount(prefix, ingredients, recipes);
      var f := Filter(prefix, InRecipes(recipes));
      var all := Filter(lines, InRecipes(recipes));
      if l.recipe in recipes {
        assert all == f + [l];
        assert all[..|all| - 1] == f && all[|all| - 1] == l;
      } else {
        assert all == f;
      }
    }
  }

  /** One value of the written file; csv writes a NULL as an empty field. */
  datatype Cell = Text(s: string) | Number(n: int) | Blank

  function TextOrBlank(o: Option<string>): Cell {
    if o.Some? then Text(o.value) else Blank
  }

  /** A list entry as a file row: name, total amount, unit. */
  function Cells(row: Row): (r: seq<Cell>)
    ensures |r| == 3 && r[1] == Number(row.totalAmount)
    ensures r[0] == (if row.name.Some? then Text(row.name.value) else Blank)
    ensures r[2] == (if row.unit.Some? then Text(row.unit.value) else Blank)
  {
    [TextOrBlank(row.name), Number(row.totalAmount), TextOrBlank(row.unit)]
  }

  /** The header row of the file: ingredient, amount, unit of measurement. */
  const Header: seq<Cell> := [Text("Ингредиент"), Text("Количество"), Text("Единица измерения")]

  /**
   * `download_shopping_cart`: the header row, then one row per list entry in the list's order.
   */
  method DownloadShoppingCart(cart: set<(UserId, RecipeId)>, user: UserId,
                              lines: seq<IngredientDetail>, ingredients: map<IngredientId, Ingredient>)
    returns (out: seq<seq<Cell>>)
    ensures |out| == |ShoppingListIngredients(cart, user, lines, ingredients)| + 1
    ensures out[0] == Header
    ensures forall i :: 0 <= i < |ShoppingListIngredients(cart, user, lines, ingredients)| ==>
      out[i + 1] == Cells(ShoppingListIngredients(cart, user, lines, ingredients)[i])
  {
    var list := ShoppingListIngredients(cart, user, lines, ingredients);
    out := [Header];
    for i := 0 to |list|
      invariant |out| == i + 1 && out[0] == Header
      invariant forall j :: 0 <= j < i ==> out[j + 1] == Cells(list[j])
    {
      out := out + [Cells(list[i])];
    }
  }
}
